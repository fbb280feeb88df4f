/** The main results about every run of the auction engine. */
module EngineTheorems {
  import opened Core
  import opened WinnerSelection
  import opened AuctionHistory
  import opened EngineMachine
  import opened EngineInvariant

  /** The goroutine is about to write the registry. */
  predicate WritesRegistry(pc: Pc) {
    pc.StartAbsent? || pc.CleanHeld?
  }

  /** The goroutine is about to read or write the registry. */
  predicate UsesRegistry(pc: Pc) {
    WritesRegistry(pc) || pc.StartHeld? || pc.BidHeld? || pc.RunHeld?
  }

  /** The goroutine is about to read or write the bids of entry r. */
  predicate UsesBids(pc: Pc, r: nat) {
    (pc.BidEntryHeld? || pc.BidRead? || pc.RunEntryHeld? || pc.RunScan?) && pc.entry == r
  }

  /** No data race: whoever is about to touch the registry or a bid slice shares it with no conflicting access. */
  lemma NoDataRace(s: State, t: nat, u: nat, r: nat)
    requires Reachable(s) && t < |s.threads| && u < |s.threads| && t != u
    ensures WritesRegistry(s.threads[t]) ==> !UsesRegistry(s.threads[u])
    ensures UsesBids(s.threads[t], r) ==> !UsesBids(s.threads[u], r)
  {
    ReachableInv(s);
  }

  /**
   Linearizability: however the goroutines interleave, the events completed form a legal history of the
   sequential auction object, and the registry, the bid slices and the voucher channel hold exactly what
   that history leads to.
   */
  lemma Linearizable(capacity: nat, run: seq<Action>)
    requires Feasible(Init(capacity), run)
    ensures var s := Exec(Init(capacity), run);
            && LegalLog(s.hist.log)
            && DataAgrees(s.data, Replay(s.hist.log))
            && s.hist.taken <= |Replay(s.hist.log).emitted|
            && s.data.vouchers == Replay(s.hist.log).emitted[s.hist.taken..]
            && |s.data.vouchers| <= s.data.capacity
  {
    ReachableInv(Exec(Init(capacity), run));
  }

  /**
   Registry ownership: an id is registered iff exactly one goroutine tends an auction of that id, and
   then the registered entry is the one that goroutine's auction created.
   */
  lemma RegistryOwnership(s: State, id: IntentId)
    requires Reachable(s)
    ensures id in s.data.registry <==>
            exists t: nat :: t < |s.threads| && Tends(s.threads[t]).Some? && s.threads[t].intent.id == id
    ensures forall t: nat | t < |s.threads| && Tends(s.threads[t]).Some? && s.threads[t].intent.id == id ::
              && id in s.data.registry && s.data.registry[id] == s.threads[t].own
              && s.threads[t].own < |s.data.entries|
              && s.data.entries[s.threads[t].own].intent == s.threads[t].intent
    ensures forall t: nat, u: nat | && t < |s.threads| && Tends(s.threads[t]).Some? && s.threads[t].intent.id == id
                                    && u < |s.threads| && Tends(s.threads[u]).Some? && s.threads[u].intent.id == id ::
              t == u
  {
    ReachableInv(s);
    forall t: nat | t < |s.threads| && Tends(s.threads[t]).Some? && s.threads[t].intent.id == id
      ensures id in s.data.registry && s.data.registry[id] == s.threads[t].own
      ensures s.threads[t].own < |s.data.entries|
      ensures s.data.entries[s.threads[t].own].intent == s.threads[t].intent
      ensures s.hist.owners[s.data.registry[id]] == t
    {
      assert PcOk(s.data, s.hist.model, s.hist.owners, t, s.threads[t]);
    }
    if id in s.data.registry {
      var t := s.hist.owners[s.data.registry[id]];
      assert PcOk(s.data, s.hist.model, s.hist.owners, t, s.threads[t]);
      assert Tends(s.threads[t]).Some? && s.threads[t].intent.id == id;
    }
  }

  /**
   An auction goroutine knows only its id, yet what it looks up, scans and deletes is the entry its own
   start created, even when the id has been used before.
   */
  lemma AuctionTouchesOnlyItsOwn(s: State, t: nat)
    requires Reachable(s) && Enabled(s, t) && Tends(s.threads[t]).Some?
    ensures var pc, s' := s.threads[t], Advance(s, t);
            && (pc.RunHeld? ==> s'.threads[t] == RunLooked(pc.intent, pc.own, Some(pc.own)))
            && (pc.RunEntryHeld? ==>
                  && pc.own < |s.data.entries|
                  && s'.threads[t] == RunScan(pc.intent, pc.own, pc.own, s.data.entries[pc.own].bids, 0, None))
            && (pc.CleanHeld? ==>
                  && pc.intent.id in s.data.registry && s.data.registry[pc.intent.id] == pc.own
                  && s'.data.registry == s.data.registry - {pc.intent.id})
            && (!pc.CleanHeld? ==> s'.data.registry == s.data.registry)
            && s'.data.entries == s.data.entries
  {
    ReachableInv(s);
    assert PcOk(s.data, s.hist.model, s.hist.owners, t, s.threads[t]);
  }

  // ---- stale pointers -----------------------------------------------------------------------------

  /** The bid and the entry a SubmitBid has looked up and not yet finished with. */
  function Target(pc: Pc): Option<(Bid, nat)> {
    if pc.BidEntryWait? || pc.BidEntryHeld? || pc.BidRead? || pc.BidWritten? then Some((pc.bid, pc.entry)) else None
  }

  /** However long a SubmitBid pauses after its lookup, and whatever happens to the id meanwhile, its target stays. */
  lemma {:induction false} PausedBidKeepsItsTarget(s: State, run: seq<Action>, t: nat)
    requires Feasible(s, run) && t < |s.threads| && Target(s.threads[t]).Some?
    ensures t < |Exec(s, run).threads|
    ensures Target(Exec(s, run).threads[t]) == Target(s.threads[t]) || Exec(s, run).threads[t] == Done(true)
    decreases |run|
  {
    if run != [] {
      var s' := Next(s, run[0]);
      assert s'.threads[t] == s.threads[t] || run[0] == Go(t);
      if s'.threads[t] == Done(true) {
        FinishedStaysFinished(s', run[1..], t);
      } else {
        PausedBidKeepsItsTarget(s', run[1..], t);
      }
    }
  }

  lemma {:induction false} FinishedStaysFinished(s: State, run: seq<Action>, t: nat)
    requires Feasible(s, run) && t < |s.threads| && s.threads[t].Done?
    ensures t < |Exec(s, run).threads| && Exec(s, run).threads[t] == s.threads[t]
    decreases |run|
  {
    if run != [] {
      FinishedStaysFinished(Next(s, run[0]), run[1..], t);
    }
  }

  /**
   When a SubmitBid finally appends, exactly one bid is added to exactly the entry it looked up: no bid is
   lost, no other entry, no registration, no chosen winner and no voucher changes, be the pointer stale or not.
   */
  lemma AppendTouchesOnlyItsTarget(s: State, t: nat)
    requires Reachable(s) && Enabled(s, t) && s.threads[t].BidRead?
    ensures var bid, r, d, d' := s.threads[t].bid, s.threads[t].entry, s.data, Advance(s, t).data;
            && r < |d.entries| && |d'.entries| == |d.entries|
            && d'.entries[r] == Entry(d.entries[r].intent, d.entries[r].bids + [bid])
            && (forall q | 0 <= q < |d.entries| && q != r :: d'.entries[q] == d.entries[q])
            && d'.registry == d.registry && d'.vouchers == d.vouchers
            && |s.hist.model.auctions| == |Advance(s, t).hist.model.auctions| == |d.entries|
            && (forall q | 0 <= q < |d.entries| ::
                  Advance(s, t).hist.model.auctions[q].phase == s.hist.model.auctions[q].phase)
  {
    ReachableInv(s);
    assert PcOk(s.data, s.hist.model, s.hist.owners, t, s.threads[t]);
  }

  // ---- outcomes -----------------------------------------------------------------------------------

  /** What a StartAuction or SubmitBid call is bound to return, once that is decided. */
  function Verdict(pc: Pc): Option<bool> {
    match pc
    case StartPresent(_) => Some(false)
    case StartAbsent(_) => Some(true)
    case StartInserted(_, _) => Some(true)
    case StartSpawn(_, _) => Some(true)
    case BidLooked(_, found) => Some(found.Some?)
    case BidEntryWait(_, _) => Some(true)
    case BidEntryHeld(_, _) => Some(true)
    case BidRead(_, _, _) => Some(true)
    case BidWritten(_, _) => Some(true)
    case Done(ok) => Some(ok)
    case _ => None
  }

  lemma VerdictGoesOn(s: State, a: Action, t: nat)
    requires Allowed(s, a) && t < |s.threads| && Verdict(s.threads[t]).Some?
    ensures t < |Next(s, a).threads| && Verdict(Next(s, a).threads[t]) == Verdict(s.threads[t])
  {
    assert Next(s, a).threads[t] == s.threads[t] || a == Go(t);
  }

  /**
   The registry decides a call at one moment, its lookup: from there on, whatever else happens, a bid is
   accepted iff its intent was registered then, and a start succeeds iff its id was not. In particular a
   bid looked up before the cleanup is accepted even if the winner has already been selected.
   */
  lemma {:induction false} LookupDecidesTheOutcome(s: State, run: seq<Action>, t: nat)
    requires Feasible(s, [Go(t)] + run) && t < |s.threads|
    requires s.threads[t].BidHeld? || s.threads[t].StartHeld?
    ensures var s' := Exec(s, [Go(t)] + run);
            && t < |s'.threads|
            && Verdict(s'.threads[t]) == Some(
                 if s.threads[t].BidHeld? then s.threads[t].bid.intentId in s.data.registry
                 else s.threads[t].intent.id !in s.data.registry)
  {
    assert ([Go(t)] + run)[1..] == run;
    var s1 := Next(s, Go(t));
    VerdictStays(s1, run, t);
  }

  lemma {:induction false} VerdictStays(s: State, run: seq<Action>, t: nat)
    requires Feasible(s, run) && t < |s.threads| && Verdict(s.threads[t]).Some?
    ensures t < |Exec(s, run).threads| && Verdict(Exec(s, run).threads[t]) == Verdict(s.threads[t])
    decreases |run|
  {
    if run != [] {
      VerdictGoesOn(s, run[0], t);
      VerdictStays(Next(s, run[0]), run[1..], t);
    }
  }

  // ---- vouchers -----------------------------------------------------------------------------------

  /**
   Every voucher ever put on the channel carries the winner of precisely the bids appended to one
   auction before that auction's single selection, and the intent the auction was started for. Nothing
   compares it with the minimum the user asked for: the voucher meets it iff one of those bids did.
   */
  lemma VoucherCarriesTheWinner(capacity: nat, run: seq<Action>, k: nat) returns (r: nat, i: nat)
    requires Feasible(Init(capacity), run)
    requires k < |Exec(Init(capacity), run).hist.model.emitted|
    ensures var h := Exec(Init(capacity), run).hist;
            && i < |h.log| && h.log[i].Select? && h.log[i].auction == r && r < |Started(h.log[..i])|
            && (forall j | 0 <= j < |h.log| && h.log[j].Select? && h.log[j].auction == r :: j == i)
            && AllPriced(Appended(h.log[..i], r))
            && IsWinner(Appended(h.log[..i], r), Some(h.model.emitted[k].winningBid))
    ensures var h := Exec(Init(capacity), run).hist;
            var v := h.model.emitted[k];
            && v.intent == Started(h.log[..i])[r] && v.intentId == v.intent.id
            && v.winningSolver == v.winningBid.solver && v.amountOut == v.winningBid.amountOut
            && v.amountOut.Some?
            && (v.amountOut.value >= v.intent.minAmountOut
                <==> exists b :: && b in Appended(h.log[..i], r) && Priced(b)
                                 && b.amountOut.value >= v.intent.minAmountOut)
  {
    ReachableInv(Exec(Init(capacity), run));
    var h := Exec(Init(capacity), run).hist;
    r, i := VoucherProvenance(h.log, k);
    var v := h.model.emitted[k];
    WinnerIsMaximal(Appended(h.log[..i], r), v.winningBid);
    WinnerMeetsMinimumIffSomeBidDoes(Appended(h.log[..i], r), Some(v.winningBid), v.intent.minAmountOut);
  }

  /** The bid appended at position j is, at its own place in the slice, among the bids selected from at position i. */
  ghost predicate Counted(log: seq<Event>, i: nat, j: nat)
    requires i < |log| && j < |log| && log[i].Select? && log[j].Append?
  {
    var considered, place := Appended(log[..i], log[i].auction), |Appended(log[..j], log[i].auction)|;
    place < |considered| && considered[place] == log[j].bid
  }

  lemma {:induction false} CountedIffBefore(log: seq<Event>, i: nat, j: nat)
    requires i < |log| && j < |log| && log[i].Select? && log[j].Append? && log[j].auction == log[i].auction
    ensures Counted(log, i, j) <==> j < i
  {
    var r := log[i].auction;
    assert log[..j + 1][..j] == log[..j];
    if j < i {
      AppendedGrows(log[..i], j + 1, r);
      assert log[..i][..j + 1] == log[..j + 1];
    } else {
      AppendedGrows(log[..j], i, r);
      assert log[..j][..i] == log[..i];
    }
  }

  /** Whatever happens next, no event and no voucher is taken back or changed. */
  lemma {:induction false} HistoryOnlyGrows(s: State, run: seq<Action>)
    requires Feasible(s, run)
    ensures s.hist.log <= Exec(s, run).hist.log
    ensures s.hist.model.emitted <= Exec(s, run).hist.model.emitted
    decreases |run|
  {
    if run != [] {
      HistoryOnlyGrows(Next(s, run[0]), run[1..]);
    }
  }

  /**
   A bid counts iff it is appended in time. In every run, every selection carries the winner of exactly the
   bids appended to its auction before it: an append, however late, is among them iff it comes first. No
   continuation of the run changes the selection or a voucher already emitted.
   */
  lemma BidCountsIffAppendedInTime(capacity: nat, run: seq<Action>, more: seq<Action>, i: nat)
    requires Feasible(Init(capacity), run) && Feasible(Exec(Init(capacity), run), more)
    requires i < |Exec(Init(capacity), run).hist.log| && Exec(Init(capacity), run).hist.log[i].Select?
    ensures var s := Exec(Init(capacity), run);
            var log, log', r := s.hist.log, Exec(s, more).hist.log, s.hist.log[i].auction;
            && r < |Started(log[..i])| && AllPriced(Appended(log[..i], r))
            && log[i].winner == Winner(Appended(log[..i], r))
            && log <= log' && s.hist.model.emitted <= Exec(s, more).hist.model.emitted
            && (forall j | 0 <= j < |log'| && log'[j].Append? && log'[j].auction == r :: Counted(log', i, j) <==> j < i)
  {
    var s := Exec(Init(capacity), run);
    var log, log', r := s.hist.log, Exec(s, more).hist.log, s.hist.log[i].auction;
    ReachableInv(s);
    SelectionTakesAll(log, i);
    HistoryOnlyGrows(s, more);
    forall j | 0 <= j < |log'| && log'[j].Append? && log'[j].auction == r
      ensures Counted(log', i, j) <==> j < i
    {
      CountedIffBefore(log', i, j);
    }
  }

  lemma SelectionTakesAll(log: seq<Event>, i: nat)
    requires LegalLog(log) && i < |log| && log[i].Select?
    ensures log[i].auction < |Started(log[..i])| && AllPriced(Appended(log[..i], log[i].auction))
    ensures log[i].winner == Winner(Appended(log[..i], log[i].auction))
  {
    EventIsLegal(log, i);
    ReplayKeepsStartsAndAppends(log[..i]);
  }

  lemma {:induction false} AppendedGrows(log: seq<Event>, i: nat, r: nat)
    requires i <= |log|
    ensures Appended(log[..i], r) <= Appended(log, r)
    decreases |log|
  {
    if i < |log| {
      AppendedGrows(log[..|log| - 1], i, r);
      assert log[..|log| - 1][..i] == log[..i];
    } else {
      assert log[..i] == log;
    }
  }

  /**
   Over any run, the successful starts of an id are its vouchers emitted and dropped, its empty auctions and
   the one undecided.
   */
  lemma AtMostOneVoucherPerStart(capacity: nat, run: seq<Action>, id: IntentId)
    requires Feasible(Init(capacity), run)
    ensures var s := Exec(Init(capacity), run);
            && Starts(s.hist.log, id) == Vouchers(s.hist.model.emitted, id) + Closures(s.hist.log, id, Dropped)
                                         + Closures(s.hist.log, id, Unbid) + Undecided(s.hist.model, id)
            && Undecided(s.hist.model, id) <= 1
            && (id !in s.data.registry ==> Undecided(s.hist.model, id) == 0)
  {
    ReachableInv(Exec(Init(capacity), run));
    StartsAreAccountedFor(Exec(Init(capacity), run).hist.log, id);
  }
}
