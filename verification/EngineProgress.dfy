/** Nothing in the engine gets stuck, and every operation under way completes within a bounded number of steps. */
module EngineProgress {
  import opened Core
  import opened EngineMachine
  import RwMutex
  import opened EngineInvariant

  // ---- deadlock freedom ---------------------------------------------------------------------------

  /**
   Enabled even if a waiting writer keeps new readers out, as Go's RWMutex does. Safety is proved for
   the laxer `Enabled`, progress for this stricter rule.
   */
  ghost predicate StrictlyEnabled(s: State, t: nat) {
    && Enabled(s, t)
    && (MoveOf(s.threads[t]) == OnEngine(RwMutex.TakeRead) ==>
          forall u | 0 <= u < |s.threads| :: MoveOf(s.threads[u]) != OnEngine(RwMutex.TakeWrite))
  }

  predicate HoldsSomeLock(pc: Pc) {
    Writes(pc) || Reads(pc) || Holds(pc).Some?
  }

  /** No step ever dereferences a dangling entry or a nil amount. */
  lemma AlwaysReady(s: State, t: nat)
    requires Reachable(s) && t < |s.threads|
    ensures Ready(s.data, s.threads[t])
  {
    ReachableInv(s);
    assert PcOk(s.data, s.hist.model, s.hist.owners, t, s.threads[t]);
  }

  /** No goroutine holds the engine lock and an entry lock, or two entry locks, at once. */
  lemma OneLockAtATime(s: State, t: nat)
    requires Reachable(s) && t < |s.threads|
    ensures !(s.locks.mutex.writer == Some(t) && t in s.locks.mutex.readers)
    ensures s.locks.mutex.writer == Some(t) || t in s.locks.mutex.readers ==> t !in s.locks.entries.Values
    ensures forall q, r | && q in s.locks.entries && r in s.locks.entries
                          && s.locks.entries[q] == t == s.locks.entries[r] ::
              q == r
  {
    ReachableInv(s);
  }

  /** Inside a guarded section no further lock is taken. */
  lemma HoldersTakeNoLock(pc: Pc)
    requires HoldsSomeLock(pc)
    ensures MoveOf(pc) != OnEngine(RwMutex.TakeRead) && MoveOf(pc) != OnEngine(RwMutex.TakeWrite)
    ensures !MoveOf(pc).TakeEntry? && !pc.Done?
  {
  }

  /** Whoever holds a lock can take its next step, whatever the others do. */
  lemma LockHolderCanMove(s: State, t: nat)
    requires Reachable(s) && t < |s.threads| && HoldsSomeLock(s.threads[t])
    ensures StrictlyEnabled(s, t)
  {
    ReachableInv(s);
    HoldersTakeNoLock(s.threads[t]);
    AlwaysReady(s, t);
  }

  lemma UnlockedCanMove(s: State, t: nat)
    requires Reachable(s) && t < |s.threads| && !s.threads[t].Done?
    requires forall u | 0 <= u < |s.threads| :: !HoldsSomeLock(s.threads[u])
    ensures Enabled(s, t)
  {
    ReachableInv(s);
    AlwaysReady(s, t);
    assert s.locks.mutex.readers == {} by {
      if u :| u in s.locks.mutex.readers {
        assert HoldsSomeLock(s.threads[u]);
      }
    }
    if s.locks.mutex.writer.Some? {
      assert HoldsSomeLock(s.threads[s.locks.mutex.writer.value]);
    }
    if r :| r in s.locks.entries {
      assert HoldsSomeLock(s.threads[s.locks.entries[r]]);
    }
  }

  /** As long as some goroutine has not finished, some goroutine can move: no reachable state is a deadlock. */
  lemma NeverStuck(s: State, t: nat) returns (u: nat)
    requires Reachable(s) && t < |s.threads| && !s.threads[t].Done?
    ensures StrictlyEnabled(s, u)
  {
    if u' :| 0 <= u' < |s.threads| && HoldsSomeLock(s.threads[u']) {
      LockHolderCanMove(s, u');
      u := u';
    } else if u' :| 0 <= u' < |s.threads| && MoveOf(s.threads[u']) == OnEngine(RwMutex.TakeWrite) {
      UnlockedCanMove(s, u');
      u := u';
    } else {
      UnlockedCanMove(s, t);
      u := t;
    }
  }

  // ---- bounded completion -------------------------------------------------------------------------

  /** Steps still to take, not counting the iterations of the selection loop; a spawner counts the auction it spawns. */
  function Rank(pc: Pc): nat {
    match pc
    case StartWait(_) => 17
    case StartHeld(_) => 16
    case StartPresent(_) => 1
    case StartAbsent(_) => 15
    case StartInserted(_, _) => 14
    case StartSpawn(_, _) => 13
    case BidCheck(_) => 8
    case BidWait(_) => 7
    case BidHeld(_) => 6
    case BidLooked(_, _) => 5
    case BidEntryWait(_, _) => 4
    case BidEntryHeld(_, _) => 3
    case BidRead(_, _, _) => 2
    case BidWritten(_, _) => 1
    case RunTimer(_, _) => 12
    case RunWait(_, _) => 11
    case RunHeld(_, _) => 10
    case RunLooked(_, _, _) => 9
    case RunEntryWait(_, _, _) => 8
    case RunEntryHeld(_, _, _) => 7
    case RunScan(_, _, _, _, _, _) => 6
    case RunScanned(_, _, _, _) => 5
    case RunEmit(_, _, _) => 4
    case CleanWait(_, _) => 3
    case CleanHeld(_, _) => 2
    case CleanDeleted(_, _) => 1
    case Done(_) => 0
  }

  /** Iterations of the selection loop still to run. */
  function ScanLeft(pc: Pc): nat {
    if pc.RunScan? && pc.next <= |pc.bids| then |pc.bids| - pc.next else 0
  }

  /** 1 while the goroutine may still append a bid. */
  function MayAppend(pc: Pc): nat {
    if || pc.BidCheck? || pc.BidWait? || pc.BidHeld? || pc.BidLooked?
       || pc.BidEntryWait? || pc.BidEntryHeld? || pc.BidRead?
    then 1 else 0
  }

  function Sum(f: Pc -> nat, threads: seq<Pc>): nat {
    if threads == [] then 0 else Sum(f, threads[..|threads| - 1]) + f(threads[|threads| - 1])
  }

  function BidCount(entries: seq<Entry>): nat {
    if entries == [] then 0 else BidCount(entries[..|entries| - 1]) + |entries[|entries| - 1].bids|
  }

  /** The bids appended so far and those that may still be: no auction can ever see more. */
  function BidBound(s: State): nat {
    BidCount(s.data.entries) + Sum(MayAppend, s.threads)
  }

  lemma {:induction false} SumUpdate(f: Pc -> nat, threads: seq<Pc>, t: nat, pc: Pc)
    requires t < |threads|
    ensures Sum(f, threads[t := pc]) == Sum(f, threads) - f(threads[t]) + f(pc)
  {
    var n := |threads| - 1;
    if t < n {
      SumUpdate(f, threads[..n], t, pc);
      assert threads[t := pc][..n] == threads[..n][t := pc];
    } else {
      assert threads[t := pc][..n] == threads[..n];
    }
  }

  lemma SumSnoc(f: Pc -> nat, threads: seq<Pc>, pc: Pc)
    ensures Sum(f, threads + [pc]) == Sum(f, threads) + f(pc)
  {
    assert (threads + [pc])[..|threads|] == threads;
  }

  lemma {:induction false} BidCountUpdate(entries: seq<Entry>, r: nat, e: Entry)
    requires r < |entries|
    ensures BidCount(entries[r := e]) == BidCount(entries) - |entries[r].bids| + |e.bids|
    ensures |entries[r].bids| <= BidCount(entries)
  {
    var n := |entries| - 1;
    if r < n {
      BidCountUpdate(entries[..n], r, e);
      assert entries[r := e][..n] == entries[..n][r := e];
    } else {
      assert entries[r := e][..n] == entries[..n];
    }
  }

  /** How a step of goroutine t changes a sum over all goroutines. */
  lemma SumAdvance(f: Pc -> nat, s: State, t: nat)
    requires Enabled(s, t)
    ensures var pc := s.threads[t];
            Sum(f, Advance(s, t).threads) == Sum(f, s.threads) - f(pc) + f(PcAfter(s.data, pc))
              + (if pc.StartSpawn? then f(RunTimer(pc.intent, pc.own)) else 0)
  {
    var pc := s.threads[t];
    var moved := s.threads[t := PcAfter(s.data, pc)];
    SumUpdate(f, s.threads, t, PcAfter(s.data, pc));
    if pc.StartSpawn? {
      SumSnoc(f, moved, RunTimer(pc.intent, pc.own));
    } else {
      assert moved + Spawned(pc) == moved;
    }
  }

  lemma MayAppendFalls(d: Data, pc: Pc)
    requires Ready(d, pc)
    ensures MayAppend(PcAfter(d, pc)) <= MayAppend(pc)
    ensures pc.BidRead? ==> MayAppend(PcAfter(d, pc)) + 1 == MayAppend(pc)
    ensures DataAfter(d, pc).entries == d.entries || pc.BidRead? || pc.StartAbsent?
  {
  }

  /** A step never raises the number of bids an auction may come to see. */
  lemma BidBoundKept(s: State, t: nat)
    requires Inv(s) && Enabled(s, t)
    ensures BidBound(Advance(s, t)) <= BidBound(s)
  {
    var d, pc := s.data, s.threads[t];
    assert PcOk(d, s.hist.model, s.hist.owners, t, pc);
    SumAdvance(MayAppend, s, t);
    MayAppendFalls(d, pc);
    if pc.BidRead? {
      BidCountUpdate(d.entries, pc.entry, d.entries[pc.entry].(bids := pc.seen + [pc.bid]));
    } else if pc.StartAbsent? {
      assert (d.entries + [Entry(pc.intent, [])])[..|d.entries|] == d.entries;
    }
  }

  lemma RankFalls(d: Data, pc: Pc)
    requires Ready(d, pc) && !pc.Done?
    ensures var after := Rank(PcAfter(d, pc)) + (if pc.StartSpawn? then Rank(RunTimer(pc.intent, pc.own)) else 0);
            if pc.RunScan? && pc.next < |pc.bids|
            then after == Rank(pc) && ScanLeft(PcAfter(d, pc)) == ScanLeft(pc) - 1
            else after < Rank(pc)
    ensures pc.RunEntryHeld? ==> ScanLeft(PcAfter(d, pc)) == |d.entries[pc.entry].bids|
    ensures !pc.RunEntryHeld? ==> ScanLeft(PcAfter(d, pc)) <= ScanLeft(pc)
  {
  }

  /** Every step lowers the rank, or leaves it and runs one iteration of a selection loop. */
  lemma StepLowersMeasure(s: State, t: nat)
    requires Enabled(s, t)
    ensures var s' := Advance(s, t);
            || (Sum(Rank, s'.threads) < Sum(Rank, s.threads)
                && Sum(ScanLeft, s'.threads) <= Sum(ScanLeft, s.threads) + BidBound(s))
            || (Sum(Rank, s'.threads) == Sum(Rank, s.threads)
                && Sum(ScanLeft, s'.threads) == Sum(ScanLeft, s.threads) - 1)
  {
    var d, pc := s.data, s.threads[t];
    RankFalls(d, pc);
    SumAdvance(Rank, s, t);
    SumAdvance(ScanLeft, s, t);
    if pc.RunEntryHeld? {
      BidCountUpdate(d.entries, pc.entry, d.entries[pc.entry]);
    }
  }

  /** A run in which nothing new is called is no longer than this. */
  function StepBound(s: State, bids: nat): nat {
    Sum(Rank, s.threads) * (bids + 1) + Sum(ScanLeft, s.threads)
  }

  lemma SmallerProduct(a: nat, b: nat, n: nat)
    requires a < b
    ensures a * n + n <= b * n
  {
    assert (a + 1) * n <= b * n;
  }

  /**
   Bounded completion: from any reachable state, goroutines left to themselves take at most StepBound
   steps, however they are scheduled; with NeverStuck, every operation under way therefore finishes.
   */
  lemma CompletionBound(s: State, run: seq<Action>)
    requires Reachable(s) && Feasible(s, run)
    requires forall a | a in run :: a.Go?
    ensures |run| <= StepBound(s, BidBound(s))
  {
    ReachableInv(s);
    BoundedSteps(s, run, BidBound(s));
  }

  lemma {:induction false} BoundedSteps(s: State, run: seq<Action>, bids: nat)
    requires Inv(s) && Feasible(s, run) && BidBound(s) <= bids
    requires forall a | a in run :: a.Go?
    ensures |run| <= StepBound(s, bids)
    decreases |run|
  {
    if run != [] {
      assert run[0] in run;
      StepLowersBound(s, run[0].t, bids);
      BoundedSteps(Next(s, run[0]), run[1..], bids);
    }
  }

  lemma StepLowersBound(s: State, t: nat, bids: nat)
    requires Inv(s) && Enabled(s, t) && BidBound(s) <= bids
    ensures Inv(Advance(s, t)) && BidBound(Advance(s, t)) <= bids
    ensures StepBound(Advance(s, t), bids) < StepBound(s, bids)
  {
    StepLowersMeasure(s, t);
    BidBoundKept(s, t);
    StepKeepsInv(s, t);
    LowerMeasureIsSmaller(Sum(Rank, s.threads), Sum(ScanLeft, s.threads),
                          Sum(Rank, Advance(s, t).threads), Sum(ScanLeft, Advance(s, t).threads), bids);
  }

  lemma LowerMeasureIsSmaller(r: nat, c: nat, r': nat, c': nat, bids: nat)
    requires (r' < r && c' <= c + bids) || (r' == r && c' == c - 1)
    ensures r' * (bids + 1) + c' < r * (bids + 1) + c
  {
    if r' < r {
      SmallerProduct(r', r, bids + 1);
    }
  }

  /** Once nothing can move, every operation has returned, every lock is free and no entry has leaked. */
  lemma QuiescenceIsClean(s: State)
    requires Reachable(s) && forall u | 0 <= u < |s.threads| :: !StrictlyEnabled(s, u)
    ensures forall t | 0 <= t < |s.threads| :: s.threads[t].Done?
    ensures s.data.registry == map[]
    ensures s.locks == Locks(RwMutex.Free, map[])
  {
    forall t | 0 <= t < |s.threads|
      ensures s.threads[t].Done?
    {
      if !s.threads[t].Done? {
        var u := NeverStuck(s, t);
      }
    }
    ReachableInv(s);
    FinishedIsClean(s);
  }

  lemma FinishedIsClean(s: State)
    requires Inv(s) && forall t | 0 <= t < |s.threads| :: s.threads[t].Done?
    ensures s.data.registry == map[]
    ensures s.locks == Locks(RwMutex.Free, map[])
  {
    NobodyTends(s.data, s.hist.owners, s.threads);
    NobodyHolds(s.locks, s.threads);
  }

  lemma NobodyTends(d: Data, owners: seq<nat>, threads: seq<Pc>)
    requires RegistryTended(d, owners, threads) && forall t | 0 <= t < |threads| :: threads[t].Done?
    ensures d.registry == map[]
  {
    assert forall t | 0 <= t < |threads| :: Tends(threads[t]).None?;
    assert d.registry.Keys == {};
  }

  lemma NobodyHolds(l: Locks, threads: seq<Pc>)
    requires EngineLockAgrees(l, threads) && EntryLocksAgree(l, threads)
    requires forall t | 0 <= t < |threads| :: threads[t].Done?
    ensures l == Locks(RwMutex.Free, map[])
  {
    assert forall t | 0 <= t < |threads| :: !HoldsSomeLock(threads[t]);
    assert l.entries.Keys == {};
    assert l.entries == map[];
    assert l.mutex.readers == {};
    assert l.mutex.writer == None;
  }
}
