/**
 The auction engine as a sequential object. A history is a list of atomic events; `Legal` says which
 event may come next and `Replay` gives the state a history leads to. Both the sequential engine code
 and the interleaved engine machine are proved to produce only legal histories.
 */
module AuctionHistory {
  import opened Core
  import opened WinnerSelection

  datatype Fate = Emitted | Dropped | Unbid

  datatype Phase = Open | Chosen(winner: Option<Bid>) | Closed(fate: Fate)

  /** One auction, i.e. one registry entry. Auctions are numbered in order of creation. */
  datatype Auction = Auction(intent: Intent, bids: seq<Bid>, phase: Phase)

  datatype Model = Model(registry: map<IntentId, nat>, auctions: seq<Auction>, emitted: seq<Voucher>)

  datatype Event =
    | Start(intent: Intent)
    | Refuse(intent: Intent)
    | Reject(bid: Bid)
    | Append(auction: nat, bid: Bid)
    | Select(auction: nat, winner: Option<Bid>)
    | Close(auction: nat, fate: Fate)
    | Remove(auction: nat)

  /** The number of the auction registered under an id. */
  function NumberOf(m: Model, id: IntentId): nat {
    if id in m.registry then m.registry[id] else 0
  }

  const Empty: Model := Model(map[], [], [])

  function VoucherFor(intent: Intent, winner: Bid): Voucher {
    Voucher(intent.id, winner.solver, winner.amountOut, intent, winner)
  }

  predicate Legal(m: Model, e: Event) {
    match e
    case Start(intent) => intent.id !in m.registry
    case Refuse(intent) => intent.id in m.registry
    case Reject(bid) => bid.intentId !in m.registry
    case Append(r, bid) =>
      // an append needs the auction to exist, in whatever phase: the pointer may be stale
      r < |m.auctions| && m.auctions[r].intent.id == bid.intentId && Priced(bid)
    case Select(r, winner) =>
      && r < |m.auctions|
      && m.auctions[r].phase == Open
      && AllPriced(m.auctions[r].bids)
      && winner == Winner(m.auctions[r].bids)
    case Close(r, fate) =>
      && r < |m.auctions|
      && m.auctions[r].phase.Chosen?
      && (fate == Unbid <==> m.auctions[r].phase.winner == None)
    case Remove(r) =>
      && r < |m.auctions|
      && m.auctions[r].phase.Closed?
      && m.auctions[r].intent.id in m.registry
      && m.registry[m.auctions[r].intent.id] == r
  }

  function Apply(m: Model, e: Event): Model
    requires Legal(m, e)
  {
    match e
    case Start(intent) =>
      m.(registry := m.registry[intent.id := |m.auctions|],
         auctions := m.auctions + [Auction(intent, [], Open)])
    case Refuse(_) => m
    case Reject(_) => m
    case Append(r, bid) =>
      m.(auctions := m.auctions[r := m.auctions[r].(bids := m.auctions[r].bids + [bid])])
    case Select(r, winner) =>
      m.(auctions := m.auctions[r := m.auctions[r].(phase := Chosen(winner))])
    case Close(r, fate) =>
      var a := m.auctions[r];
      m.(auctions := m.auctions[r := a.(phase := Closed(fate))],
         emitted := if fate == Emitted then m.emitted + [VoucherFor(a.intent, a.phase.winner.value)] else m.emitted)
    case Remove(r) =>
      m.(registry := m.registry - {m.auctions[r].intent.id})
  }

  ghost predicate LegalLog(log: seq<Event>)
    decreases |log|, 0
  {
    log != [] ==>
      && LegalLog(log[..|log| - 1])
      && Legal(Replay(log[..|log| - 1]), log[|log| - 1])
  }

  ghost function Replay(log: seq<Event>): Model
    requires LegalLog(log)
    decreases |log|, 1
  {
    if log == [] then Empty
    else Apply(Replay(log[..|log| - 1]), log[|log| - 1])
  }

  lemma ExtendLog(log: seq<Event>, e: Event)
    requires LegalLog(log) && Legal(Replay(log), e)
    ensures LegalLog(log + [e]) && Replay(log + [e]) == Apply(Replay(log), e)
  {
    assert (log + [e])[..|log|] == log;
  }

  /** Every prefix of a legal history is legal. */
  lemma {:induction false} PrefixIsLegal(log: seq<Event>, i: nat)
    requires LegalLog(log) && i <= |log|
    ensures LegalLog(log[..i])
    decreases |log|
  {
    if i < |log| {
      PrefixIsLegal(log[..|log| - 1], i);
      assert log[..|log| - 1][..i] == log[..i];
    } else {
      assert log[..i] == log;
    }
  }

  /** The event at position i is legal after the events before it. */
  lemma {:induction false} EventIsLegal(log: seq<Event>, i: nat)
    requires LegalLog(log) && i < |log|
    ensures LegalLog(log[..i]) && Legal(Replay(log[..i]), log[i])
    ensures LegalLog(log[..i + 1]) && Replay(log[..i + 1]) == Apply(Replay(log[..i]), log[i])
  {
    PrefixIsLegal(log, i);
    PrefixIsLegal(log, i + 1);
    assert log[..i + 1][..i] == log[..i];
  }

  // ---- what a log says, read off the events alone -------------------------------------------------

  /** The intents that were started, in order; auction r was started for Started(log)[r]. */
  ghost function Started(log: seq<Event>): seq<Intent> {
    if log == [] then []
    else Started(log[..|log| - 1]) + (if log[|log| - 1].Start? then [log[|log| - 1].intent] else [])
  }

  /** The bids appended to auction r, in order. */
  ghost function Appended(log: seq<Event>, r: nat): seq<Bid> {
    if log == [] then []
    else
      var e := log[|log| - 1];
      Appended(log[..|log| - 1], r) + (if e.Append? && e.auction == r then [e.bid] else [])
  }

  /** Successful starts of an id. */
  ghost function Starts(log: seq<Event>, id: IntentId): nat {
    if log == [] then 0
    else
      var e := log[|log| - 1];
      Starts(log[..|log| - 1], id) + (if e.Start? && e.intent.id == id then 1 else 0)
  }

  /** Auctions of an id that closed with the given fate. */
  ghost function Closures(log: seq<Event>, id: IntentId, fate: Fate): nat {
    if log == [] then 0
    else
      var e := log[|log| - 1];
      Closures(log[..|log| - 1], id, fate)
      + (if e.Close? && e.fate == fate && e.auction < |Started(log)| && Started(log)[e.auction].id == id then 1 else 0)
  }

  /** Vouchers of an id among those emitted. */
  ghost function Vouchers(vs: seq<Voucher>, id: IntentId): nat {
    if vs == [] then 0
    else Vouchers(vs[..|vs| - 1], id) + (if vs[|vs| - 1].intentId == id then 1 else 0)
  }

  /** Replay knows exactly the starts and the appends of the log. */
  lemma {:induction false} ReplayKeepsStartsAndAppends(log: seq<Event>)
    requires LegalLog(log)
    ensures |Replay(log).auctions| == |Started(log)|
    ensures forall r | 0 <= r < |Started(log)| ::
              && Replay(log).auctions[r].intent == Started(log)[r]
              && Replay(log).auctions[r].bids == Appended(log, r)
              && AllPriced(Appended(log, r))
    ensures forall r | |Started(log)| <= r :: Appended(log, r) == []
  {
    if log != [] {
      var before := log[..|log| - 1];
      ReplayKeepsStartsAndAppends(before);
      assert |Started(before)| <= |Started(log)|;
    }
  }

  /** Every bid appended to an auction is a bid for the id the auction was started for. */
  lemma {:induction false} AppendedBidsMatch(log: seq<Event>, r: nat)
    requires LegalLog(log) && r < |Started(log)|
    ensures forall b | b in Appended(log, r) :: b.intentId == Started(log)[r].id
  {
    var before, e := log[..|log| - 1], log[|log| - 1];
    ReplayKeepsStartsAndAppends(before);
    if r < |Started(before)| {
      AppendedBidsMatch(before, r);
    }
  }

  /** A chosen or closed auction was selected at some position, with the winner of the bids appended by then. */
  lemma {:induction false} SelectionOf(log: seq<Event>, r: nat) returns (i: nat)
    requires LegalLog(log)
    requires r < |Replay(log).auctions| && Replay(log).auctions[r].phase != Open
    ensures i < |log| && log[i].Select? && log[i].auction == r
    ensures Replay(log).auctions[r].phase.Chosen? ==> log[i].winner == Replay(log).auctions[r].phase.winner
    ensures Replay(log).auctions[r].phase.Closed? ==>
              (log[i].winner == None <==> Replay(log).auctions[r].phase.fate == Unbid)
  {
    var before, e := log[..|log| - 1], log[|log| - 1];
    if e.Select? && e.auction == r {
      i := |log| - 1;
    } else {
      i := SelectionOf(before, r);
    }
  }

  /** No auction is selected twice. */
  lemma {:induction false} SelectedOnce(log: seq<Event>, i: nat, j: nat)
    requires LegalLog(log) && i < |log| && j < |log|
    requires log[i].Select? && log[j].Select? && log[i].auction == log[j].auction
    ensures i == j
  {
    if i < j {
      SelectedStaysSelected(log, i, j);
      EventIsLegal(log, j);
    } else if j < i {
      SelectedStaysSelected(log, j, i);
      EventIsLegal(log, i);
    }
  }

  lemma DecidedStaysDecided(m: Model, e: Event, r: nat)
    requires Legal(m, e) && r < |m.auctions| && m.auctions[r].phase != Open
    ensures r < |Apply(m, e).auctions| && Apply(m, e).auctions[r].phase != Open
  {
  }

  lemma {:induction false} SelectedStaysSelected(log: seq<Event>, i: nat, j: nat)
    requires LegalLog(log) && i < j <= |log| && log[i].Select?
    ensures LegalLog(log[..j])
    ensures log[i].auction < |Replay(log[..j]).auctions|
    ensures Replay(log[..j]).auctions[log[i].auction].phase != Open
    decreases j
  {
    EventIsLegal(log, j - 1);
    if i < j - 1 {
      SelectedStaysSelected(log, i, j - 1);
      DecidedStaysDecided(Replay(log[..j - 1]), log[j - 1], log[i].auction);
    }
  }

  // ---- theorems about every legal history ---------------------------------------------------------

  /** The registry holds, under each id, an auction of that id, and it holds every undecided auction. */
  ghost predicate Consistent(m: Model) {
    && (forall id | id in m.registry :: m.registry[id] < |m.auctions| && m.auctions[m.registry[id]].intent.id == id)
    && (forall r | 0 <= r < |m.auctions| && !m.auctions[r].phase.Closed? ::
          m.auctions[r].intent.id in m.registry && m.registry[m.auctions[r].intent.id] == r)
  }

  lemma ApplyKeepsConsistent(m: Model, e: Event)
    requires Consistent(m) && Legal(m, e)
    ensures Consistent(Apply(m, e))
  {
    match e
    case Start(_) =>
    case Refuse(_) =>
    case Reject(_) =>
    case Append(_, _) =>
    case Select(_, _) =>
    case Close(_, _) =>
    case Remove(_) =>
  }

  lemma {:induction false} ReplayIsConsistent(log: seq<Event>)
    requires LegalLog(log)
    ensures Consistent(Replay(log))
  {
    if log != [] {
      ReplayIsConsistent(log[..|log| - 1]);
      ApplyKeepsConsistent(Replay(log[..|log| - 1]), log[|log| - 1]);
    }
  }

  /** 1 while the registered auction of the id has not emitted, dropped or given up, else 0. */
  ghost function Undecided(m: Model, id: IntentId): nat {
    if id in m.registry && m.registry[id] < |m.auctions| && !m.auctions[m.registry[id]].phase.Closed? then 1 else 0
  }

  /** Only a start makes an auction undecided and only a close decides one. */
  lemma ApplyMovesUndecided(m: Model, e: Event, id: IntentId)
    requires Consistent(m) && Legal(m, e)
    ensures Undecided(Apply(m, e), id) == Undecided(m, id)
              + (if e.Start? && e.intent.id == id then 1 else 0)
              - (if e.Close? && m.auctions[e.auction].intent.id == id then 1 else 0)
  {
    ApplyKeepsConsistent(m, e);
    if id in m.registry {
      assert m.auctions[m.registry[id]].intent.id == id;
    }
  }

  lemma ApplyMovesVouchers(m: Model, e: Event, id: IntentId)
    requires Legal(m, e)
    ensures Vouchers(Apply(m, e).emitted, id) == Vouchers(m.emitted, id)
              + (if e.Close? && e.fate == Emitted && m.auctions[e.auction].intent.id == id then 1 else 0)
  {
    if e.Close? && e.fate == Emitted {
      assert Apply(m, e).emitted[..|m.emitted|] == m.emitted;
    }
  }

  /**
   Every successful start of an id yields at most one voucher: the starts are exactly the vouchers
   emitted, the vouchers dropped, the auctions without bids and the one auction still undecided.
   */
  lemma {:induction false} StartsAreAccountedFor(log: seq<Event>, id: IntentId)
    requires LegalLog(log)
    ensures Starts(log, id) == Vouchers(Replay(log).emitted, id) + Closures(log, id, Dropped)
                               + Closures(log, id, Unbid) + Undecided(Replay(log), id)
  {
    if log != [] {
      var before, e := log[..|log| - 1], log[|log| - 1];
      StartsAreAccountedFor(before, id);
      ReplayIsConsistent(before);
      ApplyMovesUndecided(Replay(before), e, id);
      ApplyMovesVouchers(Replay(before), e, id);
      if e.Close? {
        ReplayKeepsStartsAndAppends(before);
        assert Started(log) == Started(before);
      }
    }
  }

  /**
   Where a voucher comes from: its auction was selected exactly once, at position i, and the voucher
   carries the winner of precisely the bids appended to that auction before i, and the intent it was
   started for. Bids appended later take no part.
   */
  lemma {:induction false} VoucherProvenance(log: seq<Event>, k: nat) returns (r: nat, i: nat)
    requires LegalLog(log) && k < |Replay(log).emitted|
    ensures i < |log| && log[i].Select? && log[i].auction == r && r < |Started(log[..i])|
    ensures forall j | 0 <= j < |log| && log[j].Select? && log[j].auction == r :: j == i
    ensures AllPriced(Appended(log[..i], r))
    ensures var v := Replay(log).emitted[k];
            && IsWinner(Appended(log[..i], r), Some(v.winningBid))
            && v.intent == Started(log[..i])[r] && v.intentId == v.intent.id
            && v.winningSolver == v.winningBid.solver && v.amountOut == v.winningBid.amountOut
  {
    var before, e := log[..|log| - 1], log[|log| - 1];
    if k < |Replay(before).emitted| {
      r, i := VoucherProvenance(before, k);
      assert log[..i] == before[..i];
    } else {
      r := e.auction;
      i := SelectionOf(before, r);
      assert log[..i] == before[..i];
      EventIsLegal(log, i);
      ReplayKeepsStartsAndAppends(log[..i]);
      ReplayKeepsStartsAndAppends(before);
      StartedGrows(before, i);
      assert log[i].winner == Replay(before).auctions[r].phase.winner;
      WinnerMeetsTheRule(Appended(log[..i], r));
    }
    forall j | 0 <= j < |log| && log[j].Select? && log[j].auction == r
      ensures j == i
    {
      SelectedOnce(log, i, j);
    }
  }

  lemma {:induction false} StartedGrows(log: seq<Event>, i: nat)
    requires i <= |log|
    ensures Started(log[..i]) <= Started(log)
    decreases |log|
  {
    if i < |log| {
      StartedGrows(log[..|log| - 1], i);
      assert log[..|log| - 1][..i] == log[..i];
    } else {
      assert log[..i] == log;
    }
  }
}
