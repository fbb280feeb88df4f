/**
 What passes through the pipeline and in which order: queues are first in, first out, one dispatcher hands
 over one item at a time, and the engine answers in the order of the queue.
 */
module Traffic {
  import opened Core
  import opened Signer
  import opened NonceQueue
  import opened WinnerSelection
  import opened Relayer
  import H = AuctionHistory
  import Engine = EngineMachine
  import CallHistories
  import Conservation
  import EngineRuns

  // ---- what a run does ----------------------------------------------------------------------------

  /** The bids that were submitted and found room, in order. */
  function BidsQueued(keccak: Keccak, s: State, run: seq<Action>): seq<Bid>
    requires Feasible(keccak, s, run)
    decreases |run|
  {
    if run == [] then []
    else (if run[0].SubmitBid? && |s.bidCh| < 10_000 then [run[0].bid] else [])
         + BidsQueued(keccak, Next(keccak, s, run[0]), run[1..])
  }

  /** The intents that were submitted and found room, in order, numbered as they were accepted. */
  function IntentsQueued(keccak: Keccak, s: State, run: seq<Action>): seq<Intent>
    requires Feasible(keccak, s, run)
    decreases |run|
  {
    if run == [] then []
    else (if run[0].SubmitIntent? && |s.intentCh| < 256 then [run[0].intent.(serial := |s.accepted|)] else [])
         + IntentsQueued(keccak, Next(keccak, s, run[0]), run[1..])
  }

  /** The ids taken from the failure queue, in order. */
  function Drained(keccak: Keccak, s: State, run: seq<Action>): seq<IntentId>
    requires Feasible(keccak, s, run)
    decreases |run|
  {
    if run == [] then []
    else (if run[0].DrainFailure? then [s.failedCh[0]] else []) + Drained(keccak, Next(keccak, s, run[0]), run[1..])
  }

  /** The vouchers whose failure notice found room, in order, and those whose notice did not. */
  function Reports(keccak: Keccak, s: State, run: seq<Action>, room: bool): seq<Voucher>
    requires Feasible(keccak, s, run)
    decreases |run|
  {
    if run == [] then []
    else (if run[0].ReportFailure? && (room <==> |s.failedCh| < 128) then [s.exec.pc.v] else [])
         + Reports(keccak, Next(keccak, s, run[0]), run[1..], room)
  }

  /** What an action of the relayer means to the engine. */
  function EngineAction(s: State, a: Action): seq<Engine.Action>
    requires Allowed(s, a)
  {
    match a
    case DispatchIntent => [Engine.CallStart(s.intentCh[0])]
    case DispatchBid => [Engine.CallBid(s.bidCh[0])]
    case EngineStep(t) => [Engine.Go(t)]
    case ReceiveVoucher => [Engine.Take]
    case _ => []
  }

  function EngineRun(keccak: Keccak, s: State, run: seq<Action>): seq<Engine.Action>
    requires Feasible(keccak, s, run)
    decreases |run|
  {
    if run == [] then [] else EngineAction(s, run[0]) + EngineRun(keccak, Next(keccak, s, run[0]), run[1..])
  }

  function BidCalls(run: seq<Engine.Action>): seq<Bid> {
    if run == [] then [] else (if run[0].CallBid? then [run[0].bid] else []) + BidCalls(run[1..])
  }

  function StartCalls(run: seq<Engine.Action>): seq<Intent> {
    if run == [] then [] else (if run[0].CallStart? then [run[0].intent] else []) + StartCalls(run[1..])
  }

  function Ids(vouchers: seq<Voucher>): seq<IntentId> {
    seq(|vouchers|, i requires 0 <= i < |vouchers| => vouchers[i].intentId)
  }

  // ---- the engine inside the relayer --------------------------------------------------------------

  lemma CallsOf(a: seq<Engine.Action>, rest: seq<Engine.Action>)
    requires |a| <= 1
    ensures BidCalls(a + rest) == BidCalls(a) + BidCalls(rest)
    ensures StartCalls(a + rest) == StartCalls(a) + StartCalls(rest)
  {
    if a == [] {
      assert a + rest == rest;
    } else {
      BidCallsOf(a[0], rest);
      StartCallsOf(a[0], rest);
      assert a == [a[0]];
    }
  }

  lemma BidCallsOf(a: Engine.Action, rest: seq<Engine.Action>)
    ensures BidCalls([a] + rest) == BidCalls([a]) + BidCalls(rest)
  {
    assert ([a] + rest)[1..] == rest && [a][1..] == [];
  }

  lemma StartCallsOf(a: Engine.Action, rest: seq<Engine.Action>)
    ensures StartCalls([a] + rest) == StartCalls([a]) + StartCalls(rest)
  {
    assert ([a] + rest)[1..] == rest && [a][1..] == [];
  }

  lemma EngineActionRuns(keccak: Keccak, s: State, a: Action)
    requires Allowed(s, a)
    ensures Engine.Feasible(s.engine, EngineAction(s, a))
    ensures Engine.Exec(s.engine, EngineAction(s, a)) == Next(keccak, s, a).engine
  {
    var run := EngineAction(s, a);
    if run != [] {
      assert run[1..] == [];
    }
  }

  /**
   Refinement: whatever the relayer does, its engine makes a run of the engine machine, so all that is proved
   of the engine's runs holds inside the relayer.
   */
  lemma {:induction false} EngineRunsInside(keccak: Keccak, s: State, run: seq<Action>)
    requires Feasible(keccak, s, run)
    ensures Engine.Feasible(s.engine, EngineRun(keccak, s, run))
    ensures Exec(keccak, s, run).engine == Engine.Exec(s.engine, EngineRun(keccak, s, run))
    decreases |run|
  {
    if run != [] {
      var s' := Next(keccak, s, run[0]);
      EngineActionRuns(keccak, s, run[0]);
      EngineRunsInside(keccak, s', run[1..]);
      EngineRuns.ExecConcat(s.engine, EngineAction(s, run[0]), EngineRun(keccak, s', run[1..]));
    }
  }

  // ---- first in, first out ------------------------------------------------------------------------

  lemma Chain<T>(before: seq<T>, put: seq<T>, puts: seq<T>, out: seq<T>, between: seq<T>, outs: seq<T>, after: seq<T>)
    requires before + put == out + between && between + puts == outs + after
    ensures before + (put + puts) == (out + outs) + after
  {
    assert before + (put + puts) == (before + put) + puts == out + (between + puts);
  }

  lemma StepPassesBids(keccak: Keccak, s: State, a: Action)
    requires Allowed(s, a)
    ensures s.bidCh + (if a.SubmitBid? && |s.bidCh| < 10_000 then [a.bid] else [])
            == BidCalls(EngineAction(s, a)) + Next(keccak, s, a).bidCh
  {
    var calls := EngineAction(s, a);
    if calls != [] {
      assert calls[1..] == [];
    }
  }

  lemma {:induction false} BidsPass(keccak: Keccak, s: State, run: seq<Action>)
    requires Feasible(keccak, s, run)
    ensures s.bidCh + BidsQueued(keccak, s, run) == BidCalls(EngineRun(keccak, s, run)) + Exec(keccak, s, run).bidCh
    decreases |run|
  {
    if run != [] {
      var a, s' := run[0], Next(keccak, s, run[0]);
      StepPassesBids(keccak, s, a);
      BidsPass(keccak, s', run[1..]);
      CallsOf(EngineAction(s, a), EngineRun(keccak, s', run[1..]));
      Chain(s.bidCh, if a.SubmitBid? && |s.bidCh| < 10_000 then [a.bid] else [], BidsQueued(keccak, s', run[1..]),
            BidCalls(EngineAction(s, a)), s'.bidCh,
            BidCalls(EngineRun(keccak, s', run[1..])), Exec(keccak, s, run).bidCh);
    }
  }

  lemma StepPassesIntents(keccak: Keccak, s: State, a: Action)
    requires Allowed(s, a)
    ensures s.intentCh + (if a.SubmitIntent? && |s.intentCh| < 256 then [a.intent.(serial := |s.accepted|)] else [])
            == StartCalls(EngineAction(s, a)) + Next(keccak, s, a).intentCh
  {
    var calls := EngineAction(s, a);
    if calls != [] {
      assert calls[1..] == [];
    }
  }

  lemma {:induction false} IntentsPass(keccak: Keccak, s: State, run: seq<Action>)
    requires Feasible(keccak, s, run)
    ensures s.intentCh + IntentsQueued(keccak, s, run)
            == StartCalls(EngineRun(keccak, s, run)) + Exec(keccak, s, run).intentCh
    decreases |run|
  {
    if run != [] {
      var a, s' := run[0], Next(keccak, s, run[0]);
      StepPassesIntents(keccak, s, a);
      IntentsPass(keccak, s', run[1..]);
      CallsOf(EngineAction(s, a), EngineRun(keccak, s', run[1..]));
      Chain(s.intentCh,
            if a.SubmitIntent? && |s.intentCh| < 256 then [a.intent.(serial := |s.accepted|)] else [],
            IntentsQueued(keccak, s', run[1..]), StartCalls(EngineAction(s, a)), s'.intentCh,
            StartCalls(EngineRun(keccak, s', run[1..])), Exec(keccak, s, run).intentCh);
    }
  }

  lemma StepPassesFailures(keccak: Keccak, s: State, a: Action)
    requires Allowed(s, a)
    ensures |s.reported| <= |Next(keccak, s, a).reported|
    ensures Next(keccak, s, a).reported[..|s.reported|] == s.reported
    ensures s.failedCh + Ids(Next(keccak, s, a).reported[|s.reported|..])
            == (if a.DrainFailure? then [s.failedCh[0]] else []) + Next(keccak, s, a).failedCh
  {
    if a.ReportFailure? && |s.failedCh| < FAILURE_BUFFER {
      assert Next(keccak, s, a).reported[|s.reported|..] == [s.exec.pc.v];
      assert Ids([s.exec.pc.v]) == [s.exec.pc.v.intentId];
    }
  }

  lemma {:induction false} FailuresPass(keccak: Keccak, s: State, run: seq<Action>)
    requires Feasible(keccak, s, run)
    ensures var s' := Exec(keccak, s, run);
            && s.reported <= s'.reported
            && s.failedCh + Ids(s'.reported[|s.reported|..]) == Drained(keccak, s, run) + s'.failedCh
    decreases |run|
  {
    if run != [] {
      var a, m, s' := run[0], Next(keccak, s, run[0]), Exec(keccak, s, run);
      StepPassesFailures(keccak, s, a);
      FailuresPass(keccak, m, run[1..]);
      var first, rest := m.reported[|s.reported|..], s'.reported[|m.reported|..];
      assert s'.reported[|s.reported|..] == first + rest;
      assert Ids(first + rest) == Ids(first) + Ids(rest);
      Chain(s.failedCh, Ids(first), Ids(rest), if a.DrainFailure? then [s.failedCh[0]] else [], m.failedCh,
            Drained(keccak, m, run[1..]), s'.failedCh);
    }
  }

  lemma {:induction false} AcceptedIsQueued(keccak: Keccak, s: State, run: seq<Action>)
    requires Feasible(keccak, s, run)
    ensures Exec(keccak, s, run).accepted == s.accepted + IntentsQueued(keccak, s, run)
    decreases |run|
  {
    if run != [] {
      AcceptedIsQueued(keccak, Next(keccak, s, run[0]), run[1..]);
    }
  }

  lemma {:induction false} FailuresAreReported(keccak: Keccak, s: State, run: seq<Action>)
    requires Feasible(keccak, s, run)
    ensures Exec(keccak, s, run).reported == s.reported + Reports(keccak, s, run, true)
    ensures Exec(keccak, s, run).unreported == s.unreported + Reports(keccak, s, run, false)
    decreases |run|
  {
    if run != [] {
      FailuresAreReported(keccak, Next(keccak, s, run[0]), run[1..]);
    }
  }

  /**
   Every queue of the pipeline is first in, first out and loses nothing once it is in: the bids queued are the
   bids submitted to the engine followed by those still waiting; so are the intents, which are the accepted
   ones; and the ids drained followed by those still waiting are those of the failures reported.
   */
  lemma QueuesAreFifo(keccak: Keccak, counter: Uint64, run: seq<Action>)
    requires Feasible(keccak, Init(counter), run)
    ensures var s, calls := Exec(keccak, Init(counter), run), EngineRun(keccak, Init(counter), run);
            && BidsQueued(keccak, Init(counter), run) == BidCalls(calls) + s.bidCh
            && IntentsQueued(keccak, Init(counter), run) == StartCalls(calls) + s.intentCh
            && s.accepted == IntentsQueued(keccak, Init(counter), run)
            && Drained(keccak, Init(counter), run) + s.failedCh == Ids(Reports(keccak, Init(counter), run, true))
            && s.reported == Reports(keccak, Init(counter), run, true)
            && s.unreported == Reports(keccak, Init(counter), run, false)
  {
    var s := Init(counter);
    FailuresAreReported(keccak, s, run);
    BidsPass(keccak, s, run);
    IntentsPass(keccak, s, run);
    AcceptedIsQueued(keccak, s, run);
    FailuresPass(keccak, s, run);
    assert [] + BidsQueued(keccak, s, run) == BidsQueued(keccak, s, run);
    assert [] + IntentsQueued(keccak, s, run) == IntentsQueued(keccak, s, run);
    assert [] + Ids(Exec(keccak, s, run).reported[0..]) == Ids(Exec(keccak, s, run).reported);
  }

  // ---- answered in order --------------------------------------------------------------------------

  /** The bids the engine has decided about, in the order of its decisions: appended or rejected. */
  function Decided(log: seq<H.Event>): seq<Bid> {
    if log == [] then []
    else Decided(log[..|log| - 1])
         + (if log[|log| - 1].Append? || log[|log| - 1].Reject? then [log[|log| - 1].bid] else [])
  }

  /** The intents the engine has decided about: started or refused. */
  function Answered(log: seq<H.Event>): seq<Intent> {
    if log == [] then []
    else Answered(log[..|log| - 1])
         + (if log[|log| - 1].Start? || log[|log| - 1].Refuse? then [log[|log| - 1].intent] else [])
  }

  /** The bids with both amounts; the others are turned away before the engine looks at its auctions. */
  function PricedOf(bids: seq<Bid>): seq<Bid> {
    if bids == [] then []
    else PricedOf(bids[..|bids| - 1]) + if Priced(bids[|bids| - 1]) then [bids[|bids| - 1]] else []
  }

  /** A SubmitBid that has not been decided yet. */
  predicate Deciding(pc: Engine.Pc) {
    || pc.BidCheck? || pc.BidWait? || pc.BidHeld? || (pc.BidLooked? && pc.found.Some?)
    || pc.BidEntryWait? || pc.BidEntryHeld? || pc.BidRead?
  }

  function BidAt(pc: Engine.Pc): seq<Bid> {
    if Deciding(pc) && Priced(pc.bid) then [pc.bid] else []
  }

  function IntentAt(pc: Engine.Pc): seq<Intent> {
    if Conservation.Starting(pc) then [pc.intent] else []
  }

  /** The bid in the hands of the dispatcher, as long as it is undecided. */
  function BidInHand(s: State): seq<Bid> {
    if s.bidder.Some? && s.bidder.value < |s.engine.threads| then BidAt(s.engine.threads[s.bidder.value]) else []
  }

  function IntentInHand(s: State): seq<Intent> {
    if s.starter.Some? && s.starter.value < |s.engine.threads| then IntentAt(s.engine.threads[s.starter.value]) else []
  }

  /** Past the nil checks a bid has both amounts. */
  predicate Checked(pc: Engine.Pc) {
    Deciding(pc) && !pc.BidCheck? ==> Priced(pc.bid)
  }

  /** Only the call a dispatcher made last is undecided. */
  ghost predicate BidsOneAtATime(threads: seq<Engine.Pc>, bidder: Option<nat>) {
    && (bidder.Some? ==> bidder.value < |threads|)
    && (forall t | 0 <= t < |threads| :: Checked(threads[t]) && (bidder != Some(t) ==> !Deciding(threads[t])))
  }

  ghost predicate StartsOneAtATime(threads: seq<Engine.Pc>, starter: Option<nat>) {
    && (starter.Some? ==> starter.value < |threads|)
    && (forall t | 0 <= t < |threads| && starter != Some(t) :: !Conservation.Starting(threads[t]))
  }

  lemma LogSnoc(log: seq<H.Event>, e: Option<H.Event>)
    ensures Decided(log + CallHistories.EventList(e)) == Decided(log) + Decided(CallHistories.EventList(e))
    ensures Answered(log + CallHistories.EventList(e)) == Answered(log) + Answered(CallHistories.EventList(e))
  {
    if e.Some? {
      assert (log + [e.value])[..|log|] == log;
      assert [e.value][..0] == [];
    } else {
      assert log + [] == log;
    }
  }

  lemma SoleEvent(e: H.Event)
    ensures Decided([e]) == (if e.Append? || e.Reject? then [e.bid] else [])
    ensures Answered([e]) == (if e.Start? || e.Refuse? then [e.intent] else [])
  {
    assert [e][..0] == [];
  }

  /** A step decides about the bid its goroutine works on, or about none. */
  lemma StepDecides(d: Engine.Data, pc: Engine.Pc)
    requires Engine.Ready(d, pc) && Checked(pc)
    ensures var e, pc' := Engine.EventOf(d, pc), Engine.PcAfter(d, pc);
            && BidAt(pc) == Decided(CallHistories.EventList(e)) + BidAt(pc')
            && (Deciding(pc') ==> Deciding(pc)) && Checked(pc')
  {
    var e := Engine.EventOf(d, pc);
    if e.Some? {
      SoleEvent(e.value);
    }
  }

  lemma StepAnswers(d: Engine.Data, pc: Engine.Pc)
    requires Engine.Ready(d, pc)
    ensures var e, pc' := Engine.EventOf(d, pc), Engine.PcAfter(d, pc);
            && IntentAt(pc) == Answered(CallHistories.EventList(e)) + IntentAt(pc')
            && (Conservation.Starting(pc') ==> Conservation.Starting(pc))
  {
    var e := Engine.EventOf(d, pc);
    if e.Some? {
      SoleEvent(e.value);
    }
  }

  /** In the order of the calls: what is decided, then what is in hand. */
  ghost predicate BidsInOrder(s: State, calls: seq<Bid>) {
    && BidsOneAtATime(s.engine.threads, s.bidder)
    && PricedOf(calls) == Decided(s.engine.hist.log) + BidInHand(s)
  }

  ghost predicate StartsInOrder(s: State, calls: seq<Intent>) {
    && StartsOneAtATime(s.engine.threads, s.starter)
    && calls == Answered(s.engine.hist.log) + IntentInHand(s)
  }

  lemma EngineStepThreads(e: Engine.State, t: nat)
    requires Engine.Enabled(e, t)
    ensures var e' := Engine.Advance(e, t);
            && |e.threads| <= |e'.threads|
            && e'.threads[t] == Engine.PcAfter(e.data, e.threads[t])
            && e'.hist.log == e.hist.log + CallHistories.EventList(Engine.EventOf(e.data, e.threads[t]))
            && (forall u | 0 <= u < |e.threads| && u != t :: e'.threads[u] == e.threads[u])
            && (forall u | |e.threads| <= u < |e'.threads| :: e'.threads[u].RunTimer?)
  {
  }

  lemma StepKeepsOneBid(e: Engine.State, t: nat, bidder: Option<nat>)
    requires BidsOneAtATime(e.threads, bidder) && Engine.Enabled(e, t)
    ensures BidsOneAtATime(Engine.Advance(e, t).threads, bidder)
  {
    EngineStepThreads(e, t);
    StepDecides(e.data, e.threads[t]);
  }

  lemma EngineStepBids(s: State, t: nat, calls: seq<Bid>)
    requires BidsInOrder(s, calls) && Engine.Enabled(s.engine, t)
    ensures BidsInOrder(s.(engine := Engine.Advance(s.engine, t)), calls)
  {
    var e, pc := s.engine, s.engine.threads[t];
    StepKeepsOneBid(e, t, s.bidder);
    var s' := s.(engine := Engine.Advance(e, t));
    assert Decided(e.hist.log) + BidInHand(s) == Decided(s'.engine.hist.log) + BidInHand(s') by {
      EngineStepThreads(e, t);
      StepDecides(e.data, pc);
      LogSnoc(e.hist.log, Engine.EventOf(e.data, pc));
      if s.bidder == Some(t) {
        var event := CallHistories.EventList(Engine.EventOf(e.data, pc));
        CallHistories.Regrouped(Decided(e.hist.log), Decided(event), BidInHand(s'));
      }
    }
  }

  lemma EngineStepStarts(s: State, t: nat, calls: seq<Intent>)
    requires StartsInOrder(s, calls) && Engine.Enabled(s.engine, t)
    ensures StartsInOrder(s.(engine := Engine.Advance(s.engine, t)), calls)
  {
    var e, pc := s.engine, s.engine.threads[t];
    EngineStepThreads(e, t);
    StepAnswers(e.data, pc);
    LogSnoc(e.hist.log, Engine.EventOf(e.data, pc));
  }

  lemma PricedSnoc(bids: seq<Bid>, bid: Bid)
    ensures PricedOf(bids + [bid]) == PricedOf(bids) + if Priced(bid) then [bid] else []
  {
    assert (bids + [bid])[..|bids|] == bids;
  }

  lemma ActionBids(keccak: Keccak, s: State, a: Action, calls: seq<Bid>)
    requires BidsInOrder(s, calls) && Allowed(s, a)
    ensures BidsInOrder(Next(keccak, s, a), calls + BidCalls(EngineAction(s, a)))
  {
    if a.DispatchBid? {
      assert BidCalls(EngineAction(s, a)) == [s.bidCh[0]];
      PricedSnoc(calls, s.bidCh[0]);
    } else {
      assert calls + BidCalls(EngineAction(s, a)) == calls;
      if a.EngineStep? {
        EngineStepBids(s, a.t, calls);
      }
    }
  }

  lemma ActionStarts(keccak: Keccak, s: State, a: Action, calls: seq<Intent>)
    requires StartsInOrder(s, calls) && Allowed(s, a)
    ensures StartsInOrder(Next(keccak, s, a), calls + StartCalls(EngineAction(s, a)))
  {
    if a.DispatchIntent? {
      assert StartCalls(EngineAction(s, a)) == [s.intentCh[0]];
    } else {
      assert calls + StartCalls(EngineAction(s, a)) == calls;
      if a.EngineStep? {
        EngineStepStarts(s, a.t, calls);
      }
    }
  }

  lemma {:induction false} RunBids(keccak: Keccak, s: State, run: seq<Action>, calls: seq<Bid>)
    requires Feasible(keccak, s, run) && BidsInOrder(s, calls)
    ensures BidsInOrder(Exec(keccak, s, run), calls + BidCalls(EngineRun(keccak, s, run)))
    decreases |run|
  {
    if run == [] {
      assert calls + [] == calls;
    } else {
      var a, s' := run[0], Next(keccak, s, run[0]);
      var now, later := EngineAction(s, a), EngineRun(keccak, s', run[1..]);
      ActionBids(keccak, s, a, calls);
      RunBids(keccak, s', run[1..], calls + BidCalls(now));
      CallsOf(now, later);
      CallHistories.Regrouped(calls, BidCalls(now), BidCalls(later));
    }
  }

  lemma {:induction false} RunStarts(keccak: Keccak, s: State, run: seq<Action>, calls: seq<Intent>)
    requires Feasible(keccak, s, run) && StartsInOrder(s, calls)
    ensures StartsInOrder(Exec(keccak, s, run), calls + StartCalls(EngineRun(keccak, s, run)))
    decreases |run|
  {
    if run == [] {
      assert calls + [] == calls;
    } else {
      var a, s' := run[0], Next(keccak, s, run[0]);
      var now, later := EngineAction(s, a), EngineRun(keccak, s', run[1..]);
      ActionStarts(keccak, s, a, calls);
      RunStarts(keccak, s', run[1..], calls + StartCalls(now));
      CallsOf(now, later);
      CallHistories.Regrouped(calls, StartCalls(now), StartCalls(later));
    }
  }

  lemma {:induction false} PricedConcat(xs: seq<Bid>, ys: seq<Bid>)
    ensures PricedOf(xs + ys) == PricedOf(xs) + PricedOf(ys)
  {
    if ys == [] {
      assert xs + ys == xs;
    } else {
      var n := |ys| - 1;
      PricedConcat(xs, ys[..n]);
      assert xs + ys == (xs + ys[..n]) + [ys[n]];
      PricedSnoc(xs + ys[..n], ys[n]);
    }
  }

  /**
   The engine answers in the order of the queues. In every run the bids with both amounts that were ever
   queued are, in this order, those the engine has appended or rejected, the one in the dispatcher's hands
   and those still waiting; and the accepted intents are those it has started or refused, the one in hand and
   those still waiting. Nothing is lost, overtaken or answered twice.
   */
  lemma AnswersComeInOrder(keccak: Keccak, counter: Uint64, run: seq<Action>)
    requires Feasible(keccak, Init(counter), run)
    ensures var s := Exec(keccak, Init(counter), run);
            && PricedOf(BidsQueued(keccak, Init(counter), run))
               == Decided(s.engine.hist.log) + BidInHand(s) + PricedOf(s.bidCh)
            && s.accepted == Answered(s.engine.hist.log) + IntentInHand(s) + s.intentCh
  {
    var s, calls := Exec(keccak, Init(counter), run), EngineRun(keccak, Init(counter), run);
    RunBids(keccak, Init(counter), run, []);
    RunStarts(keccak, Init(counter), run, []);
    QueuesAreFifo(keccak, counter, run);
    assert [] + BidCalls(calls) == BidCalls(calls) && [] + StartCalls(calls) == StartCalls(calls);
    PricedConcat(BidCalls(calls), s.bidCh);
  }
}
