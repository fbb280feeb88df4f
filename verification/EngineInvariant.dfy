/** What every reachable state of the engine machine satisfies. */
module EngineInvariant {
  import opened Core
  import opened WinnerSelection
  import opened AuctionHistory
  import opened EngineMachine
  import RwMutex

  // ---- mutual exclusion ---------------------------------------------------------------------------

  /** The goroutine is inside a section guarded by the engine's write lock. */
  predicate Writes(pc: Pc) {
    pc.StartHeld? || pc.StartPresent? || pc.StartAbsent? || pc.StartInserted? || pc.CleanHeld? || pc.CleanDeleted?
  }

  /** The goroutine is inside a section guarded by the engine's read lock. */
  predicate Reads(pc: Pc) {
    pc.BidHeld? || pc.BidLooked? || pc.RunHeld? || pc.RunLooked?
  }

  /** The entry whose lock guards the section the goroutine is in. */
  function Holds(pc: Pc): Option<nat> {
    if pc.BidEntryHeld? || pc.BidRead? || pc.BidWritten? || pc.RunEntryHeld? || pc.RunScan? || pc.RunScanned?
    then Some(pc.entry) else None
  }

  /** The engine lock is held by exactly the goroutines inside the sections it guards. */
  ghost predicate EngineLockAgrees(l: Locks, threads: seq<Pc>) {
    && (forall t | 0 <= t < |threads| :: Writes(threads[t]) <==> l.mutex.writer == Some(t))
    && (forall t | 0 <= t < |threads| :: Reads(threads[t]) <==> t in l.mutex.readers)
    && (l.mutex.writer.Some? ==> l.mutex.writer.value < |threads| && l.mutex.readers == {})
    && (forall t | t in l.mutex.readers :: t < |threads|)
  }

  /** An entry lock is held by exactly the goroutine inside a section it guards. */
  ghost predicate EntryLocksAgree(l: Locks, threads: seq<Pc>) {
    && (forall t | 0 <= t < |threads| && Holds(threads[t]).Some? ::
          Holds(threads[t]).value in l.entries && l.entries[Holds(threads[t]).value] == t)
    && (forall r | r in l.entries :: l.entries[r] < |threads| && Holds(threads[l.entries[r]]) == Some(r))
  }

  /** The lock move of a step matches the sections it leaves and enters. */
  ghost predicate MoveFits(m: LockMove, pc: Pc, pc': Pc) {
    && Writes(pc') == (m == OnEngine(RwMutex.TakeWrite) || (Writes(pc) && m != OnEngine(RwMutex.DropWrite)))
    && Reads(pc') == (m == OnEngine(RwMutex.TakeRead) || (Reads(pc) && m != OnEngine(RwMutex.DropRead)))
    && Holds(pc') == (match m case TakeEntry(r) => Some(r) case DropEntry(_) => None case _ => Holds(pc))
    && (m == OnEngine(RwMutex.DropWrite) ==> Writes(pc))
    && (m == OnEngine(RwMutex.DropRead) ==> Reads(pc))
    && (m.TakeEntry? ==> Holds(pc) == None)
    && (m.DropEntry? ==> Holds(pc) == Some(m.r))
  }

  lemma MovesFit(d: Data, pc: Pc)
    requires Ready(d, pc)
    ensures MoveFits(MoveOf(pc), pc, PcAfter(d, pc))
  {
  }

  lemma MoveKeepsEngineLock(l: Locks, threads: seq<Pc>, m: LockMove, t: nat, pc': Pc)
    requires EngineLockAgrees(l, threads) && t < |threads|
    requires CanMove(l, m) && MoveFits(m, threads[t], pc')
    ensures EngineLockAgrees(MoveLocks(l, m, t), threads[t := pc'])
  {
  }

  lemma MoveKeepsEntryLocks(l: Locks, threads: seq<Pc>, m: LockMove, t: nat, pc': Pc)
    requires EntryLocksAgree(l, threads) && t < |threads|
    requires CanMove(l, m) && MoveFits(m, threads[t], pc')
    ensures EntryLocksAgree(MoveLocks(l, m, t), threads[t := pc'])
  {
  }

  lemma NewcomerKeepsLocks(l: Locks, threads: seq<Pc>, pc: Pc)
    requires EngineLockAgrees(l, threads) && EntryLocksAgree(l, threads)
    requires !Writes(pc) && !Reads(pc) && Holds(pc) == None
    ensures EngineLockAgrees(l, threads + [pc]) && EntryLocksAgree(l, threads + [pc])
  {
  }

  lemma LocksKept(s: State, t: nat)
    requires EngineLockAgrees(s.locks, s.threads) && EntryLocksAgree(s.locks, s.threads) && Enabled(s, t)
    ensures EngineLockAgrees(Advance(s, t).locks, Advance(s, t).threads)
    ensures EntryLocksAgree(Advance(s, t).locks, Advance(s, t).threads)
  {
    var pc := s.threads[t];
    var pc', m := PcAfter(s.data, pc), MoveOf(pc);
    MovesFit(s.data, pc);
    MoveKeepsEngineLock(s.locks, s.threads, m, t, pc');
    MoveKeepsEntryLocks(s.locks, s.threads, m, t, pc');
    if pc.StartSpawn? {
      NewcomerKeepsLocks(MoveLocks(s.locks, m, t), s.threads[t := pc'], RunTimer(pc.intent, pc.own));
    } else {
      assert s.threads[t := pc'] + Spawned(pc) == s.threads[t := pc'];
    }
  }

  // ---- ownership and refinement -------------------------------------------------------------------

  /** The entry an auction goroutine, or the goroutine about to spawn it, is in charge of until it is deleted. */
  function Tends(pc: Pc): Option<nat> {
    if || pc.StartInserted? || pc.StartSpawn? || pc.RunTimer? || pc.RunWait? || pc.RunHeld? || pc.RunLooked?
       || pc.RunEntryWait? || pc.RunEntryHeld? || pc.RunScan? || pc.RunScanned? || pc.RunEmit? || pc.CleanWait?
       || pc.CleanHeld?
    then Some(pc.own) else None
  }

  /** The data is the model the events replay to. */
  ghost predicate DataAgrees(d: Data, m: Model) {
    && d.registry == m.registry
    && |d.entries| == |m.auctions|
    && (forall r | 0 <= r < |d.entries| ::
          && d.entries[r].intent == m.auctions[r].intent
          && d.entries[r].bids == m.auctions[r].bids
          && AllPriced(d.entries[r].bids))
  }

  /** Every registered entry carries its id and is tended by the goroutine recorded for it. */
  ghost predicate RegistryTended(d: Data, owners: seq<nat>, threads: seq<Pc>) {
    && |owners| == |d.entries|
    && (forall id | id in d.registry ::
          && d.registry[id] < |d.entries|
          && d.entries[d.registry[id]].intent.id == id
          && owners[d.registry[id]] < |threads|
          && Tends(threads[owners[d.registry[id]]]) == Some(d.registry[id]))
  }

  ghost predicate VouchersAgree(d: Data, h: History) {
    && |d.vouchers| <= d.capacity
    && h.taken <= |h.model.emitted|
    && h.model.emitted[h.taken..] == d.vouchers
  }

  /** Goroutine t tends entry own, which was created for its intent and is registered under its id. */
  ghost predicate InCharge(d: Data, owners: seq<nat>, t: nat, intent: Intent, own: nat) {
    && own < |d.entries| && own < |owners|
    && owners[own] == t
    && d.entries[own].intent == intent
    && intent.id in d.registry && d.registry[intent.id] == own
  }

  /** The phase of the auction a tending goroutine is in charge of. */
  ghost predicate PhaseFits(pc: Pc, phase: Phase) {
    if pc.RunScanned? || pc.RunEmit? then phase == Chosen(pc.winner)
    else if pc.CleanWait? || pc.CleanHeld? then phase.Closed?
    else phase == Open
  }

  /** A bid under way targets an entry of its own intent and has both amounts. */
  ghost predicate BidFits(d: Data, pc: Pc) {
    match pc
    case BidWait(bid) => Priced(bid)
    case BidHeld(bid) => Priced(bid)
    case BidLooked(bid, found) => Priced(bid) && (found.Some? ==> Targets(d, bid, found.value))
    case BidEntryWait(bid, r) => Priced(bid) && Targets(d, bid, r)
    case BidEntryHeld(bid, r) => Priced(bid) && Targets(d, bid, r)
    case BidRead(bid, r, seen) => Priced(bid) && Targets(d, bid, r) && seen == d.entries[r].bids
    case BidWritten(bid, r) => Priced(bid) && Targets(d, bid, r)
    case _ => true
  }

  ghost predicate Targets(d: Data, bid: Bid, r: nat) {
    r < |d.entries| && d.entries[r].intent.id == bid.intentId
  }

  /** What an auction goroutine found by id is its own entry, and its scan agrees with the entry. */
  ghost predicate RunFits(d: Data, pc: Pc) {
    match pc
    case RunLooked(_, own, found) => found == Some(own)
    case RunEntryWait(_, own, r) => r == own
    case RunEntryHeld(_, own, r) => r == own
    case RunScan(_, own, r, bids, k, w) =>
      && r == own && r < |d.entries| && bids == d.entries[r].bids
      && k <= |bids| && AllPriced(bids) && w == Scan(bids, k)
    case RunScanned(_, own, r, _) => r == own
    case StartAbsent(intent) => intent.id !in d.registry
    case _ => true
  }

  /** A tending goroutine is in charge of its entry, and the auction is in the phase it takes it to be in. */
  ghost predicate TendFits(d: Data, m: Model, owners: seq<nat>, t: nat, pc: Pc) {
    Tends(pc).Some? ==>
      && InCharge(d, owners, t, pc.intent, pc.own)
      && pc.own < |m.auctions|
      && PhaseFits(pc, m.auctions[pc.own].phase)
  }

  ghost predicate PcOk(d: Data, m: Model, owners: seq<nat>, t: nat, pc: Pc) {
    BidFits(d, pc) && RunFits(d, pc) && TendFits(d, m, owners, t, pc)
  }

  ghost predicate Keyed(d: Data) {
    forall id | id in d.registry :: d.registry[id] < |d.entries| && d.entries[d.registry[id]].intent.id == id
  }

  ghost predicate Inv(s: State) {
    && EngineLockAgrees(s.locks, s.threads)
    && EntryLocksAgree(s.locks, s.threads)
    && LegalLog(s.hist.log)
    && s.hist.model == Replay(s.hist.log)
    && DataAgrees(s.data, s.hist.model)
    && RegistryTended(s.data, s.hist.owners, s.threads)
    && VouchersAgree(s.data, s.hist)
    && PcsOk(s)
  }

  ghost predicate PcsOk(s: State) {
    forall t | 0 <= t < |s.threads| :: PcOk(s.data, s.hist.model, s.hist.owners, t, s.threads[t])
  }

  /** The model after a step. */
  ghost function ModelAfter(d: Data, m: Model, pc: Pc): Model
    requires EventOf(d, pc).Some? ==> Legal(m, EventOf(d, pc).value)
  {
    if EventOf(d, pc).None? then m else Apply(m, EventOf(d, pc).value)
  }

  /** The event a step completes is legal. */
  lemma StepIsLegal(d: Data, m: Model, owners: seq<nat>, t: nat, pc: Pc)
    requires DataAgrees(d, m) && Ready(d, pc) && PcOk(d, m, owners, t, pc)
    ensures EventOf(d, pc).Some? ==> Legal(m, EventOf(d, pc).value)
  {
  }

  lemma DataKept(d: Data, m: Model, owners: seq<nat>, t: nat, pc: Pc)
    requires DataAgrees(d, m) && Ready(d, pc) && PcOk(d, m, owners, t, pc)
    requires EventOf(d, pc).Some? ==> Legal(m, EventOf(d, pc).value)
    ensures DataAgrees(DataAfter(d, pc), ModelAfter(d, m, pc))
  {
  }

  // The moving goroutine arrives where it should.

  lemma OwnBidFits(d: Data, pc: Pc)
    requires Keyed(d) && Ready(d, pc) && BidFits(d, pc)
    ensures BidFits(DataAfter(d, pc), PcAfter(d, pc))
  {
  }

  lemma OwnRunFits(d: Data, m: Model, owners: seq<nat>, t: nat, pc: Pc)
    requires DataAgrees(d, m) && Ready(d, pc) && PcOk(d, m, owners, t, pc)
    ensures RunFits(DataAfter(d, pc), PcAfter(d, pc))
  {
  }

  /** A tending goroutine stays in charge until it deletes; the one that inserted the entry comes to be. */
  lemma OwnStaysInCharge(d: Data, owners: seq<nat>, t: nat, pc: Pc, spawned: nat)
    requires |owners| == |d.entries| && Ready(d, pc)
    requires Tends(pc).Some? ==> InCharge(d, owners, t, pc.intent, pc.own)
    ensures var pc' := PcAfter(d, pc);
            && (Tends(pc').Some? ==>
                  InCharge(DataAfter(d, pc), OwnersAfter(owners, pc, t, spawned), t, pc'.intent, pc'.own))
            && (Tends(pc').Some? && !pc.StartAbsent? ==> Tends(pc) == Tends(pc'))
  {
  }

  lemma OwnPhaseFits(d: Data, m: Model, pc: Pc)
    requires Ready(d, pc) && |m.auctions| == |d.entries| && RunFits(d, pc)
    requires Tends(pc).Some? ==> pc.own < |m.auctions| && PhaseFits(pc, m.auctions[pc.own].phase)
    requires EventOf(d, pc).Some? ==> Legal(m, EventOf(d, pc).value)
    ensures var pc', m' := PcAfter(d, pc), ModelAfter(d, m, pc);
            Tends(pc').Some? && (Tends(pc) == Tends(pc') || pc.StartAbsent?) ==>
              pc'.own < |m'.auctions| && PhaseFits(pc', m'.auctions[pc'.own].phase)
  {
  }

  lemma OwnTendFits(d: Data, m: Model, owners: seq<nat>, t: nat, pc: Pc, spawned: nat)
    requires DataAgrees(d, m) && |owners| == |d.entries| && Ready(d, pc) && PcOk(d, m, owners, t, pc)
    requires EventOf(d, pc).Some? ==> Legal(m, EventOf(d, pc).value)
    ensures TendFits(DataAfter(d, pc), ModelAfter(d, m, pc), OwnersAfter(owners, pc, t, spawned), t, PcAfter(d, pc))
  {
    OwnStaysInCharge(d, owners, t, pc, spawned);
    OwnPhaseFits(d, m, pc);
  }

  // The moving goroutine leaves the other goroutines where they were.

  lemma OtherBidFits(d: Data, pc: Pc, other: Pc)
    requires Ready(d, pc) && BidFits(d, pc) && BidFits(d, other)
    requires Holds(pc).Some? ==> Holds(pc) != Holds(other)
    ensures BidFits(DataAfter(d, pc), other)
  {
  }

  lemma OtherRunFits(d: Data, pc: Pc, other: Pc)
    requires Ready(d, pc) && RunFits(d, other)
    requires !(Writes(pc) && Writes(other))
    requires Holds(pc).Some? ==> Holds(pc) != Holds(other)
    ensures RunFits(DataAfter(d, pc), other)
  {
  }

  lemma OtherStaysInCharge(d: Data, owners: seq<nat>, t: nat, pc: Pc, spawned: nat, u: nat, intent: Intent, own: nat)
    requires |owners| == |d.entries| && Ready(d, pc) && t != u && RunFits(d, pc)
    requires Tends(pc).Some? ==> InCharge(d, owners, t, pc.intent, pc.own)
    requires InCharge(d, owners, u, intent, own)
    ensures InCharge(DataAfter(d, pc), OwnersAfter(owners, pc, t, spawned), u, intent, own)
  {
  }

  /** The auction whose phase a step may change. */
  lemma OtherPhaseKept(d: Data, m: Model, pc: Pc, own: nat)
    requires EventOf(d, pc).Some? ==> Legal(m, EventOf(d, pc).value)
    requires RunFits(d, pc) && own < |m.auctions| && Tends(pc) != Some(own)
    ensures own < |ModelAfter(d, m, pc).auctions|
    ensures ModelAfter(d, m, pc).auctions[own].phase == m.auctions[own].phase
  {
  }

  lemma OtherTendFits(d: Data, m: Model, owners: seq<nat>, t: nat, pc: Pc, spawned: nat, u: nat, other: Pc)
    requires |owners| == |d.entries| && Ready(d, pc) && t != u
    requires PcOk(d, m, owners, t, pc) && TendFits(d, m, owners, u, other)
    requires EventOf(d, pc).Some? ==> Legal(m, EventOf(d, pc).value)
    ensures TendFits(DataAfter(d, pc), ModelAfter(d, m, pc), OwnersAfter(owners, pc, t, spawned), u, other)
  {
    if Tends(other).Some? {
      OtherStaysInCharge(d, owners, t, pc, spawned, u, other.intent, other.own);
      OtherPhaseKept(d, m, pc, other.own);
    }
  }

  lemma TendingGoesOn(d: Data, pc: Pc)
    requires Ready(d, pc) && Tends(pc).Some? && !pc.StartSpawn? && !pc.CleanHeld?
    ensures Tends(PcAfter(d, pc)) == Tends(pc)
  {
  }

  /** One registered id, after a step that leaves it registered under the same entry. */
  lemma IdStaysTended(d: Data, owners: seq<nat>, threads: seq<Pc>, t: nat, id: IntentId)
    requires RegistryTended(d, owners, threads) && t < |threads| && Ready(d, threads[t])
    requires threads[t].StartSpawn? || threads[t].CleanHeld? ==>
               InCharge(d, owners, t, threads[t].intent, threads[t].own)
    requires id in d.registry && (threads[t].CleanHeld? ==> id != threads[t].intent.id)
    ensures var r, owners' := d.registry[id], OwnersAfter(owners, threads[t], t, |threads|);
            var threads' := threads[t := PcAfter(d, threads[t])] + Spawned(threads[t]);
            r < |owners'| && owners'[r] < |threads'| && Tends(threads'[owners'[r]]) == Some(r)
  {
    if Tends(threads[t]).Some? && !threads[t].StartSpawn? && !threads[t].CleanHeld? {
      TendingGoesOn(d, threads[t]);
    }
  }

  lemma RegistryKept(d: Data, m: Model, owners: seq<nat>, threads: seq<Pc>, t: nat)
    requires RegistryTended(d, owners, threads) && t < |threads|
    requires Ready(d, threads[t]) && PcOk(d, m, owners, t, threads[t])
    ensures RegistryTended(DataAfter(d, threads[t]), OwnersAfter(owners, threads[t], t, |threads|),
                           threads[t := PcAfter(d, threads[t])] + Spawned(threads[t]))
  {
    var pc := threads[t];
    forall id | id in d.registry && (pc.CleanHeld? ==> id != pc.intent.id)
      ensures var r, owners' := d.registry[id], OwnersAfter(owners, pc, t, |threads|);
              var threads' := threads[t := PcAfter(d, pc)] + Spawned(pc);
              r < |owners'| && owners'[r] < |threads'| && Tends(threads'[owners'[r]]) == Some(r)
    {
      IdStaysTended(d, owners, threads, t, id);
    }
  }

  lemma VouchersKept(d: Data, h: History, t: nat, pc: Pc)
    requires VouchersAgree(d, h) && DataAgrees(d, h.model) && Ready(d, pc) && PcOk(d, h.model, h.owners, t, pc)
    requires EventOf(d, pc).Some? ==> Legal(h.model, EventOf(d, pc).value)
    ensures VouchersAgree(DataAfter(d, pc), HistoryAfter(h, EventOf(d, pc)))
  {
    if pc.RunEmit? && pc.winner.Some? && |d.vouchers| < d.capacity {
      var v := VoucherFor(pc.intent, pc.winner.value);
      assert HistoryAfter(h, EventOf(d, pc)).model.emitted == h.model.emitted + [v];
      assert (h.model.emitted + [v])[h.taken..] == h.model.emitted[h.taken..] + [v];
    }
  }

  lemma NewPcOk(s: State, t: nat)
    requires Inv(s) && Enabled(s, t) && s.threads[t].StartSpawn?
    ensures PcOk(s.data, s.hist.model, Advance(s, t).hist.owners, |s.threads|,
                 RunTimer(s.threads[t].intent, s.threads[t].own))
  {
    assert PcOk(s.data, s.hist.model, s.hist.owners, t, s.threads[t]);
  }

  lemma PcsKept(s: State, t: nat, u: nat)
    requires Inv(s) && Enabled(s, t) && u < |s.threads|
    requires EventOf(s.data, s.threads[t]).Some? ==> Legal(s.hist.model, EventOf(s.data, s.threads[t]).value)
    ensures PcOk(Advance(s, t).data, Advance(s, t).hist.model, Advance(s, t).hist.owners, u, Advance(s, t).threads[u])
  {
    var d, m, owners, pc, other := s.data, s.hist.model, s.hist.owners, s.threads[t], s.threads[u];
    assert PcOk(d, m, owners, t, pc) && PcOk(d, m, owners, u, other);
    if u == t {
      OwnBidFits(d, pc);
      OwnRunFits(d, m, owners, t, pc);
      OwnTendFits(d, m, owners, t, pc, |s.threads|);
    } else {
      OtherBidFits(d, pc, other);
      OtherRunFits(d, pc, other);
      OtherTendFits(d, m, owners, t, pc, |s.threads|, u, other);
    }
  }

  lemma AllPcsKept(s: State, t: nat)
    requires Inv(s) && Enabled(s, t)
    requires EventOf(s.data, s.threads[t]).Some? ==> Legal(s.hist.model, EventOf(s.data, s.threads[t]).value)
    ensures PcsOk(Advance(s, t))
  {
    var s' := Advance(s, t);
    forall u | 0 <= u < |s'.threads|
      ensures PcOk(s'.data, s'.hist.model, s'.hist.owners, u, s'.threads[u])
    {
      if u < |s.threads| {
        PcsKept(s, t, u);
      } else {
        NewPcOk(s, t);
      }
    }
  }

  lemma StepKeepsInv(s: State, t: nat)
    requires Inv(s) && Enabled(s, t)
    ensures Inv(Advance(s, t))
  {
    var d, h, pc := s.data, s.hist, s.threads[t];
    assert PcOk(d, h.model, h.owners, t, pc);
    StepIsLegal(d, h.model, h.owners, t, pc);
    if EventOf(d, pc).Some? {
      ExtendLog(h.log, EventOf(d, pc).value);
    }
    LocksKept(s, t);
    DataKept(d, h.model, h.owners, t, pc);
    RegistryKept(d, h.model, h.owners, s.threads, t);
    VouchersKept(d, h, t, pc);
    AllPcsKept(s, t);
  }

  lemma NewcomerKeepsInv(s: State, pc: Pc)
    requires Inv(s) && (pc.StartWait? || pc.BidCheck?)
    ensures Inv(s.(threads := s.threads + [pc]))
  {
    NewcomerKeepsLocks(s.locks, s.threads, pc);
  }

  lemma TakeKeepsInv(s: State)
    requires Inv(s) && Allowed(s, Take)
    ensures Inv(Next(s, Take))
  {
    var s' := Next(s, Take);
    assert s'.hist.model.emitted[s'.hist.taken..] == s.hist.model.emitted[s.hist.taken..][1..];
    assert PcsOk(s') by {
      forall t | 0 <= t < |s'.threads|
        ensures PcOk(s'.data, s'.hist.model, s'.hist.owners, t, s'.threads[t])
      {
        assert PcOk(s.data, s.hist.model, s.hist.owners, t, s.threads[t]);
      }
    }
  }

  lemma ActionKeepsInv(s: State, a: Action)
    requires Inv(s) && Allowed(s, a)
    ensures Inv(Next(s, a))
  {
    match a
    case CallStart(intent) => NewcomerKeepsInv(s, StartWait(intent));
    case CallBid(bid) => NewcomerKeepsInv(s, BidCheck(bid));
    case Take => TakeKeepsInv(s);
    case Go(t) => StepKeepsInv(s, t);
  }

  /** Every state of every run satisfies the invariant. */
  lemma {:induction false} RunKeepsInv(s: State, run: seq<Action>)
    requires Inv(s) && Feasible(s, run)
    ensures Inv(Exec(s, run))
    decreases |run|
  {
    if run != [] {
      ActionKeepsInv(s, run[0]);
      RunKeepsInv(Next(s, run[0]), run[1..]);
    }
  }

  /** Some run of a new engine leads to s. */
  ghost predicate Reachable(s: State) {
    exists capacity, run :: Feasible(Init(capacity), run) && s == Exec(Init(capacity), run)
  }

  lemma ReachableInv(s: State)
    requires Reachable(s)
    ensures Inv(s)
  {
    var capacity, run :| Feasible(Init(capacity), run) && s == Exec(Init(capacity), run);
    RunKeepsInv(Init(capacity), run);
  }
}
