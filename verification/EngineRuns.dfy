/** Building runs of the engine machine piece by piece: whole operations, undisturbed, from any calm state. */
module EngineRuns {
  import opened Core
  import opened WinnerSelection
  import opened AuctionHistory
  import opened EngineMachine
  import RwMutex

  /** Goroutines alone, without new calls, can get from e to e'. */
  ghost predicate Goes(e: State, e': State) {
    exists run :: GoOnly(run) && Feasible(e, run) && Exec(e, run) == e'
  }

  predicate GoOnly(run: seq<Action>) {
    forall a | a in run :: a.Go?
  }

  /** Some run leads from s to s'. */
  ghost predicate Reaches(s: State, s': State) {
    exists run :: Feasible(s, run) && Exec(s, run) == s'
  }

  lemma {:induction false} ExecConcat(s: State, run: seq<Action>, more: seq<Action>)
    requires Feasible(s, run) && Feasible(Exec(s, run), more)
    ensures Feasible(s, run + more) && Exec(s, run + more) == Exec(Exec(s, run), more)
    decreases |run|
  {
    if run == [] {
      assert run + more == more;
    } else {
      ExecConcat(Next(s, run[0]), run[1..], more);
      assert (run + more)[1..] == run[1..] + more;
    }
  }

  lemma OneAction(s: State, a: Action)
    requires Allowed(s, a)
    ensures Feasible(s, [a]) && Exec(s, [a]) == Next(s, a)
  {
    assert [a][1..] == [];
  }

  lemma GoesNowhere(e: State)
    ensures Goes(e, e)
  {
    assert GoOnly([]) && Feasible(e, []) && Exec(e, []) == e;
  }

  lemma GoesOn(e0: State, e: State, t: nat)
    requires Goes(e0, e) && Enabled(e, t)
    ensures Goes(e0, Advance(e, t))
  {
    var run :| GoOnly(run) && Feasible(e0, run) && Exec(e0, run) == e;
    OneAction(e, Go(t));
    ExecConcat(e0, run, [Go(t)]);
    assert GoOnly(run + [Go(t)]);
  }

  lemma GoesFurther(e0: State, e: State, e': State)
    requires Goes(e0, e) && Goes(e, e')
    ensures Goes(e0, e')
  {
    var run :| GoOnly(run) && Feasible(e0, run) && Exec(e0, run) == e;
    var more :| GoOnly(more) && Feasible(e, more) && Exec(e, more) == e';
    ExecConcat(e0, run, more);
    assert GoOnly(run + more);
  }

  lemma CallAndGo(s: State, e: State, a: Action, e': State)
    requires Reaches(s, e) && Allowed(e, a) && Goes(Next(e, a), e')
    ensures Reaches(s, e')
  {
    var run :| Feasible(s, run) && Exec(s, run) == e;
    var more :| GoOnly(more) && Feasible(Next(e, a), more) && Exec(Next(e, a), more) == e';
    OneAction(e, a);
    ExecConcat(e, [a], more);
    ExecConcat(s, run, [a] + more);
  }

  lemma GoOn(s: State, e: State, e': State)
    requires Reaches(s, e) && Goes(e, e')
    ensures Reaches(s, e')
  {
    var run :| Feasible(s, run) && Exec(s, run) == e;
    var more :| GoOnly(more) && Feasible(e, more) && Exec(e, more) == e';
    ExecConcat(s, run, more);
  }

  lemma ReachesItself(s: State)
    ensures Reaches(s, s)
  {
    assert Feasible(s, []) && Exec(s, []) == s;
  }

  // ---- locks --------------------------------------------------------------------------------------

  const Unlocked: Locks := Locks(RwMutex.Free, map[])

  function WriteLocked(t: nat): Locks {
    Unlocked.(mutex := RwMutex.RwMutex(Some(t), {}))
  }

  function ReadLocked(t: nat): Locks {
    Unlocked.(mutex := RwMutex.RwMutex(None, {t}))
  }

  function EntryLocked(r: nat, t: nat): Locks {
    Unlocked.(entries := map[r := t])
  }

  lemma Unlocking(r: nat, t: nat)
    ensures MoveLocks(Unlocked, OnEngine(RwMutex.TakeWrite), t) == WriteLocked(t)
    ensures MoveLocks(WriteLocked(t), OnEngine(RwMutex.DropWrite), t) == Unlocked
    ensures MoveLocks(Unlocked, OnEngine(RwMutex.TakeRead), t) == ReadLocked(t)
    ensures MoveLocks(ReadLocked(t), OnEngine(RwMutex.DropRead), t) == Unlocked
    ensures MoveLocks(Unlocked, TakeEntry(r), t) == EntryLocked(r, t)
    ensures MoveLocks(EntryLocked(r, t), DropEntry(r), t) == Unlocked
  {
    assert {t} - {t} == {};
    assert {} + {t} == {t};
    assert Unlocked.entries[r := t] == EntryLocked(r, t).entries;
    assert EntryLocked(r, t).entries - {r} == map[];
  }

  // ---- single steps -------------------------------------------------------------------------------

  /** The state e with goroutine t at pc and these locks. */
  function At(e: State, t: nat, pc: Pc, locks: Locks): State
    requires t < |e.threads|
  {
    e.(threads := e.threads[t := pc], locks := locks)
  }

  /** One more step of goroutine t that changes neither the data nor the history. */
  lemma Silent(e0: State, e: State, t: nat, pc: Pc, locks: Locks, pc': Pc, locks': Locks)
    requires t < |e.threads| && Goes(e0, At(e, t, pc, locks))
    requires !pc.Done? && CanMove(locks, MoveOf(pc)) && Ready(e.data, pc)
    requires PcAfter(e.data, pc) == pc' && MoveLocks(locks, MoveOf(pc), t) == locks'
    requires DataAfter(e.data, pc) == e.data && EventOf(e.data, pc) == None
    requires !pc.StartSpawn? && !pc.StartAbsent?
    ensures Goes(e0, At(e, t, pc', locks'))
  {
    GoesOn(e0, At(e, t, pc, locks), t);
    assert e.threads[t := pc][t := pc'] + [] == e.threads[t := pc'];
  }

  /** One more step of goroutine t, which spawns nothing; e' is where it leads. */
  lemma Acts(e0: State, e: State, t: nat, pc: Pc, locks: Locks) returns (e': State)
    requires t < |e.threads| && Goes(e0, At(e, t, pc, locks))
    requires !pc.Done? && CanMove(locks, MoveOf(pc)) && Ready(e.data, pc) && !pc.StartSpawn?
    ensures Goes(e0, e') && t < |e'.threads| && e' == At(e', t, PcAfter(e.data, pc), MoveLocks(locks, MoveOf(pc), t))
    ensures e'.threads == e.threads[t := PcAfter(e.data, pc)] && e'.data == DataAfter(e.data, pc)
    ensures e'.hist.log == (if EventOf(e.data, pc).Some? then e.hist.log + [EventOf(e.data, pc).value] else e.hist.log)
    ensures e'.hist.taken == e.hist.taken
  {
    var m, pc' := At(e, t, pc, locks), PcAfter(e.data, pc);
    GoesOn(e0, m, t);
    e' := Advance(m, t);
    assert m.threads[t := pc'] + [] == e.threads[t := pc'];
    assert e'.threads[t := pc'] == e'.threads;
  }

  /** e is where it is. */
  lemma Standing(e: State, t: nat)
    requires t < |e.threads|
    ensures e == At(e, t, e.threads[t], e.locks) && Goes(e, At(e, t, e.threads[t], e.locks))
  {
    GoesNowhere(e);
    assert e.threads[t := e.threads[t]] == e.threads;
  }

  // ---- whole operations ---------------------------------------------------------------------------

  lemma StartEnters(e: State, t: nat, intent: Intent)
    requires e.locks == Unlocked && t < |e.threads| && e.threads[t] == StartWait(intent)
    requires intent.id !in e.data.registry
    ensures Goes(e, At(e, t, StartAbsent(intent), WriteLocked(t)))
  {
    Standing(e, t);
    Unlocking(0, t);
    Silent(e, e, t, StartWait(intent), Unlocked, StartHeld(intent), WriteLocked(t));
    Silent(e, e, t, StartHeld(intent), WriteLocked(t), StartAbsent(intent), WriteLocked(t));
  }

  /** The data after a start. */
  function Registered(d: Data, intent: Intent): Data {
    d.(registry := d.registry[intent.id := |d.entries|], entries := d.entries + [Entry(intent, [])])
  }

  /** An undisturbed StartAuction under a free id succeeds and leaves its auction waiting for the timer. */
  lemma StartGoes(e: State, t: nat, intent: Intent) returns (e': State)
    requires e.locks == Unlocked && t < |e.threads| && e.threads[t] == StartWait(intent)
    requires intent.id !in e.data.registry
    ensures Goes(e, e') && e'.locks == Unlocked && e'.data == Registered(e.data, intent)
    ensures e'.threads == e.threads[t := Done(true)] + [RunTimer(intent, |e.data.entries|)]
    ensures e'.hist.log == e.hist.log + [Start(intent)] && e'.hist.taken == e.hist.taken
  {
    var n := |e.data.entries|;
    StartEnters(e, t, intent);
    var m := Acts(e, e, t, StartAbsent(intent), WriteLocked(t));
    Unlocking(0, t);
    Silent(e, m, t, StartInserted(intent, n), WriteLocked(t), StartSpawn(intent, n), Unlocked);
    var m' := At(m, t, StartSpawn(intent, n), Unlocked);
    GoesOn(e, m', t);
    e' := Advance(m', t);
    assert m'.threads[t := Done(true)] == e.threads[t := Done(true)];
  }

  lemma BidEnters(e: State, t: nat, bid: Bid)
    requires e.locks == Unlocked && t < |e.threads| && e.threads[t] == BidCheck(bid) && Priced(bid)
    ensures Goes(e, At(e, t, BidHeld(bid), ReadLocked(t)))
  {
    Standing(e, t);
    Unlocking(0, t);
    Silent(e, e, t, BidCheck(bid), Unlocked, BidWait(bid), Unlocked);
    Silent(e, e, t, BidWait(bid), Unlocked, BidHeld(bid), ReadLocked(t));
  }

  lemma BidLooksUp(e: State, t: nat, bid: Bid, r: nat)
    requires e.locks == Unlocked && t < |e.threads| && e.threads[t] == BidCheck(bid) && Priced(bid)
    requires bid.intentId in e.data.registry && e.data.registry[bid.intentId] == r
    ensures Goes(e, At(e, t, BidEntryWait(bid, r), Unlocked))
  {
    BidEnters(e, t, bid);
    Unlocking(r, t);
    Silent(e, e, t, BidHeld(bid), ReadLocked(t), BidLooked(bid, Some(r)), ReadLocked(t));
    Silent(e, e, t, BidLooked(bid, Some(r)), ReadLocked(t), BidEntryWait(bid, r), Unlocked);
  }

  lemma BidReads(e: State, t: nat, bid: Bid, r: nat)
    requires e.locks == Unlocked && t < |e.threads| && e.threads[t] == BidCheck(bid) && Priced(bid)
    requires bid.intentId in e.data.registry && e.data.registry[bid.intentId] == r < |e.data.entries|
    ensures Goes(e, At(e, t, BidRead(bid, r, e.data.entries[r].bids), EntryLocked(r, t)))
  {
    BidLooksUp(e, t, bid, r);
    Unlocking(r, t);
    Silent(e, e, t, BidEntryWait(bid, r), Unlocked, BidEntryHeld(bid, r), EntryLocked(r, t));
    Silent(e, e, t, BidEntryHeld(bid, r), EntryLocked(r, t),
           BidRead(bid, r, e.data.entries[r].bids), EntryLocked(r, t));
  }

  /** The data after an append. */
  function WithBid(d: Data, r: nat, bid: Bid): Data
    requires r < |d.entries|
  {
    d.(entries := d.entries[r := d.entries[r].(bids := d.entries[r].bids + [bid])])
  }

  /** An undisturbed SubmitBid with both amounts for a registered id succeeds. */
  lemma BidGoes(e: State, t: nat, bid: Bid, r: nat) returns (e': State)
    requires e.locks == Unlocked && t < |e.threads| && e.threads[t] == BidCheck(bid) && Priced(bid)
    requires bid.intentId in e.data.registry && e.data.registry[bid.intentId] == r < |e.data.entries|
    ensures Goes(e, e') && e'.data == WithBid(e.data, r, bid) && e'.locks == Unlocked
    ensures e'.threads == e.threads[t := Done(true)]
    ensures e'.hist.log == e.hist.log + [Append(r, bid)] && e'.hist.taken == e.hist.taken
  {
    BidReads(e, t, bid, r);
    var m := Acts(e, e, t, BidRead(bid, r, e.data.entries[r].bids), EntryLocked(r, t));
    Unlocking(r, t);
    e' := Acts(e, m, t, BidWritten(bid, r), EntryLocked(r, t));
    assert m.threads[t := Done(true)] == e.threads[t := Done(true)];
  }

  lemma AuctionEnters(e: State, t: nat, intent: Intent, r: nat)
    requires e.locks == Unlocked && t < |e.threads| && e.threads[t] == RunTimer(intent, r)
    ensures Goes(e, At(e, t, RunHeld(intent, r), ReadLocked(t)))
  {
    Standing(e, t);
    Unlocking(r, t);
    Silent(e, e, t, RunTimer(intent, r), Unlocked, RunWait(intent, r), Unlocked);
    Silent(e, e, t, RunWait(intent, r), Unlocked, RunHeld(intent, r), ReadLocked(t));
  }

  lemma AuctionLooksUp(e: State, t: nat, intent: Intent, r: nat)
    requires e.locks == Unlocked && t < |e.threads| && e.threads[t] == RunTimer(intent, r)
    requires intent.id in e.data.registry && e.data.registry[intent.id] == r
    ensures Goes(e, At(e, t, RunEntryWait(intent, r, r), Unlocked))
  {
    AuctionEnters(e, t, intent, r);
    Unlocking(r, t);
    Silent(e, e, t, RunHeld(intent, r), ReadLocked(t), RunLooked(intent, r, Some(r)), ReadLocked(t));
    Silent(e, e, t, RunLooked(intent, r, Some(r)), ReadLocked(t), RunEntryWait(intent, r, r), Unlocked);
  }

  /** Where the auction goroutine is after k iterations of the selection loop. */
  function Scanning(intent: Intent, r: nat, bids: seq<Bid>, k: nat): Pc
    requires AllPriced(bids) && k <= |bids|
  {
    RunScan(intent, r, r, bids, k, Scan(bids, k))
  }

  lemma {:induction false} ScanGoes(e: State, t: nat, intent: Intent, r: nat, bids: seq<Bid>, k: nat)
    requires e.locks == Unlocked && t < |e.threads| && e.threads[t] == RunTimer(intent, r)
    requires intent.id in e.data.registry && e.data.registry[intent.id] == r < |e.data.entries|
    requires bids == e.data.entries[r].bids && AllPriced(bids) && k <= |bids|
    ensures Goes(e, At(e, t, Scanning(intent, r, bids, k), EntryLocked(r, t)))
  {
    var locked := EntryLocked(r, t);
    if k == 0 {
      AuctionLooksUp(e, t, intent, r);
      Unlocking(r, t);
      Silent(e, e, t, RunEntryWait(intent, r, r), Unlocked, RunEntryHeld(intent, r, r), locked);
      Silent(e, e, t, RunEntryHeld(intent, r, r), locked, Scanning(intent, r, bids, 0), locked);
    } else {
      ScanGoes(e, t, intent, r, bids, k - 1);
      Silent(e, e, t, Scanning(intent, r, bids, k - 1), locked, Scanning(intent, r, bids, k), locked);
    }
  }

  /** An undisturbed auction goroutine selects the winner of its entry's bids. */
  lemma SelectGoes(e: State, t: nat, intent: Intent, r: nat) returns (e': State)
    requires e.locks == Unlocked && t < |e.threads| && e.threads[t] == RunTimer(intent, r)
    requires intent.id in e.data.registry && e.data.registry[intent.id] == r < |e.data.entries|
    requires AllPriced(e.data.entries[r].bids)
    ensures var w := Winner(e.data.entries[r].bids);
            && Goes(e, e') && e'.data == e.data && e'.locks == Unlocked
            && e'.threads == e.threads[t := RunEmit(intent, r, w)]
            && e'.hist.log == e.hist.log + [Select(r, w)] && e'.hist.taken == e.hist.taken
  {
    var bids := e.data.entries[r].bids;
    var w := Winner(bids);
    ScanGoes(e, t, intent, r, bids, |bids|);
    var m := Acts(e, e, t, Scanning(intent, r, bids, |bids|), EntryLocked(r, t));
    Unlocking(r, t);
    e' := Acts(e, m, t, RunScanned(intent, r, r, w), EntryLocked(r, t));
    assert m.threads[t := RunEmit(intent, r, w)] == e.threads[t := RunEmit(intent, r, w)];
  }

  lemma SoleBidWins(bid: Bid)
    requires Priced(bid)
    ensures AllPriced([bid]) && Winner([bid]) == Some(bid)
  {
    assert Scan([bid], 0) == None;
  }

  lemma EmitGoes(e: State, t: nat, intent: Intent, r: nat, w: Bid) returns (e': State)
    requires e.locks == Unlocked && t < |e.threads| && e.threads[t] == RunEmit(intent, r, Some(w))
    requires |e.data.vouchers| < e.data.capacity
    ensures e'.threads == e.threads[t := CleanWait(intent, r)] && e'.hist.taken == e.hist.taken
    ensures Goes(e, At(e', t, CleanHeld(intent, r), WriteLocked(t)))
    ensures e'.data == e.data.(vouchers := e.data.vouchers + [VoucherFor(intent, w)])
  {
    Standing(e, t);
    e' := Acts(e, e, t, RunEmit(intent, r, Some(w)), Unlocked);
    Unlocking(r, t);
    Silent(e, e', t, CleanWait(intent, r), Unlocked, CleanHeld(intent, r), WriteLocked(t));
  }

  /** An undisturbed auction goroutine with a winner and room in the channel emits the voucher and cleans up. */
  lemma CloseGoes(e: State, t: nat, intent: Intent, r: nat, w: Bid) returns (e': State)
    requires e.locks == Unlocked && t < |e.threads| && e.threads[t] == RunEmit(intent, r, Some(w))
    requires |e.data.vouchers| < e.data.capacity
    ensures Goes(e, e') && e'.locks == Unlocked && e'.threads == e.threads[t := Done(true)]
    ensures e'.data == e.data.(vouchers := e.data.vouchers + [VoucherFor(intent, w)],
                               registry := e.data.registry - {intent.id})
    ensures e'.hist.taken == e.hist.taken
  {
    var m := EmitGoes(e, t, intent, r, w);
    var m' := Acts(e, m, t, CleanHeld(intent, r), WriteLocked(t));
    Unlocking(r, t);
    e' := Acts(e, m', t, CleanDeleted(intent, r), WriteLocked(t));
    assert m'.threads[t := Done(true)] == e.threads[t := Done(true)];
  }
}
