/** Whole-pipeline conservation: no accepted intent is lost or duplicated. */
module Conservation {
  import opened Core
  import opened Signer
  import opened NonceQueue
  import opened Tally
  import opened Relayer
  import H = AuctionHistory
  import Engine = EngineMachine
  import EngineInvariant
  import Executor

  // ---- who is where -------------------------------------------------------------------------------

  function IntentIs(k: nat): Intent -> bool {
    (i: Intent) => i.serial == k
  }

  function VoucherIs(k: nat): Voucher -> bool {
    (v: Voucher) => v.intent.serial == k
  }

  function RefusalIs(k: nat): H.Event -> bool {
    (e: H.Event) => e.Refuse? && e.intent.serial == k
  }

  function LiveIs(k: nat): H.Auction -> bool {
    (a: H.Auction) => a.intent.serial == k && !a.phase.Closed?
  }

  function FateIs(k: nat, fate: H.Fate): H.Auction -> bool {
    (a: H.Auction) => a.intent.serial == k && a.phase == H.Closed(fate)
  }

  function UnemittedIs(k: nat): H.Auction -> bool {
    (a: H.Auction) => a.intent.serial == k && a.phase != H.Closed(H.Emitted)
  }

  function SubmittedIs(k: nat): Executor.Attempt -> bool {
    (a: Executor.Attempt) => a.voucher.intent.serial == k && a.reply.Submitted?
  }

  function AttemptIs(k: nat): Executor.Attempt -> bool {
    (a: Executor.Attempt) => a.voucher.intent.serial == k
  }

  /** A StartAuction call that has not yet found out whether it may start. */
  predicate Starting(pc: Engine.Pc) {
    pc.StartWait? || pc.StartHeld? || pc.StartAbsent?
  }

  function StartingFor(pc: Engine.Pc, k: nat): nat {
    One(Starting(pc) && pc.intent.serial == k)
  }

  /** Intent k has been taken off the queue and its StartAuction call is under way. */
  function Dispatching(s: State, k: nat): nat {
    if s.starter.Some? && s.starter.value < |s.engine.threads|
    then StartingFor(s.engine.threads[s.starter.value], k) else 0
  }

  function InProgress(s: State, k: nat): nat {
    One(!s.exec.pc.Idle? && s.exec.pc.v.intent.serial == k)
  }

  /** What the engine has done with the starts of intent k: refused, or started and not emitted, or emitted. */
  ghost function Settled(h: Engine.History, k: nat): nat {
    Count(h.log, RefusalIs(k)) + Count(h.model.auctions, UnemittedIs(k)) + Count(h.model.emitted, VoucherIs(k))
  }

  // ---- one engine step ----------------------------------------------------------------------------

  /** An event adds to the settled count exactly if it answers a start. */
  lemma EventSettles(m: H.Model, e: H.Event, k: nat)
    requires H.Legal(m, e)
    ensures Count(H.Apply(m, e).auctions, UnemittedIs(k)) + Count(H.Apply(m, e).emitted, VoucherIs(k))
            == Count(m.auctions, UnemittedIs(k)) + Count(m.emitted, VoucherIs(k))
               + One(e.Start? && e.intent.serial == k)
  {
    var m' := H.Apply(m, e);
    match e
    case Start(intent) => CountSnoc(m.auctions, H.Auction(intent, [], H.Open), UnemittedIs(k));
    case Append(r, _) => CountUpdate(m.auctions, r, m'.auctions[r], UnemittedIs(k));
    case Select(r, _) => CountUpdate(m.auctions, r, m'.auctions[r], UnemittedIs(k));
    case Close(r, fate) =>
      CountUpdate(m.auctions, r, m'.auctions[r], UnemittedIs(k));
      if fate == H.Emitted {
        CountSnoc(m.emitted, H.VoucherFor(m.auctions[r].intent, m.auctions[r].phase.winner.value), VoucherIs(k));
      }
    case Refuse(_) =>
    case Reject(_) =>
    case Remove(_) =>
  }

  /** A goroutine leaves the starting states exactly with the event that answers its start. */
  lemma StartIsAnswered(d: Engine.Data, pc: Engine.Pc, k: nat)
    requires Engine.Ready(d, pc)
    ensures var e := Engine.EventOf(d, pc);
            StartingFor(pc, k) == StartingFor(Engine.PcAfter(d, pc), k)
              + One(e.Some? && (e.value.Start? || e.value.Refuse?) && e.value.intent.serial == k)
    ensures Starting(Engine.PcAfter(d, pc)) ==> Starting(pc)
  {
  }

  lemma EngineStepSettles(s: Engine.State, t: nat, k: nat)
    requires EngineInvariant.Inv(s) && Engine.Enabled(s, t)
    ensures Settled(Engine.Advance(s, t).hist, k) + StartingFor(Engine.Advance(s, t).threads[t], k)
            == Settled(s.hist, k) + StartingFor(s.threads[t], k)
  {
    var d, h, pc := s.data, s.hist, s.threads[t];
    assert EngineInvariant.PcOk(d, h.model, h.owners, t, pc);
    EngineInvariant.StepIsLegal(d, h.model, h.owners, t, pc);
    StartIsAnswered(d, pc, k);
    var e := Engine.EventOf(d, pc);
    if e.Some? {
      EventSettles(h.model, e.value, k);
      CountSnoc(h.log, e.value, RefusalIs(k));
    }
  }

  // ---- the invariant ------------------------------------------------------------------------------

  /** The queues respect their capacities. */
  ghost predicate QueuesOk(s: State) {
    && |s.intentCh| <= INTENT_BUFFER
    && |s.bidCh| <= BID_BUFFER
    && |s.failedCh| <= FAILURE_BUFFER
    && s.engine.data.capacity == VOUCHER_BUFFER
  }

  /** Only the dispatcher's latest call can still be starting. */
  ghost predicate SoleStarter(s: State) {
    && (s.starter.Some? ==> s.starter.value < |s.engine.threads|)
    && (forall t | 0 <= t < |s.engine.threads| && Starting(s.engine.threads[t]) :: s.starter == Some(t))
  }

  /** Up to the emission of its voucher: each accepted intent is counted once. */
  ghost predicate FrontHalf(s: State, k: nat) {
    Count(s.intentCh, IntentIs(k)) + Dispatching(s, k) + Settled(s.engine.hist, k) == One(k < |s.accepted|)
  }

  /** The vouchers the executor has received so far. */
  ghost function Received(s: State): seq<Voucher>
    requires s.engine.hist.taken <= |s.engine.hist.model.emitted|
  {
    s.engine.hist.model.emitted[..s.engine.hist.taken]
  }

  /** From there on: each voucher received is in progress, submitted, or its failure is settled. */
  ghost predicate BackHalf(s: State, k: nat) {
    && s.engine.hist.taken <= |s.engine.hist.model.emitted|
    && Count(Received(s), VoucherIs(k)) == InProgress(s, k) + Count(s.exec.attempts, SubmittedIs(k))
                                           + Count(s.reported, VoucherIs(k)) + Count(s.unreported, VoucherIs(k))
    && Count(s.exec.attempts, AttemptIs(k)) + AboutToClaim(s, k) <= Count(Received(s), VoucherIs(k))
  }

  /** Intent k is in the executor's hands and no claim has been made for it. */
  function AboutToClaim(s: State, k: nat): nat {
    if s.exec.pc.Signing? || s.exec.pc.Tipping? || s.exec.pc.Reserving? || s.exec.pc.Claiming?
    then One(s.exec.pc.v.intent.serial == k) else 0
  }

  /** Everything but the engine's own invariant. */
  ghost predicate Flow(s: State) {
    && QueuesOk(s)
    && SoleStarter(s)
    && (forall k: nat :: FrontHalf(s, k))
    && (forall k: nat :: BackHalf(s, k))
  }

  ghost predicate Inv(s: State) {
    EngineInvariant.Inv(s.engine) && Flow(s)
  }

  lemma EngineKeepsRest(s: Engine.State, t: nat)
    requires EngineInvariant.Inv(s) && Engine.Enabled(s, t)
    ensures var s' := Engine.Advance(s, t);
            && s'.data.capacity == s.data.capacity
            && s'.hist.taken == s.hist.taken
            && s.hist.model.emitted <= s'.hist.model.emitted
            && |s.threads| <= |s'.threads|
            && (forall u | 0 <= u < |s.threads| && u != t :: s'.threads[u] == s.threads[u])
            && (forall u | |s.threads| <= u < |s'.threads| :: !Starting(s'.threads[u]))
  {
    var d, h, pc := s.data, s.hist, s.threads[t];
    assert EngineInvariant.PcOk(d, h.model, h.owners, t, pc);
    EngineInvariant.StepIsLegal(d, h.model, h.owners, t, pc);
  }

  lemma EngineStepFlow(keccak: Keccak, s: State, t: nat)
    requires EngineInvariant.Inv(s.engine) && Flow(s) && Allowed(s, EngineStep(t))
    ensures Flow(Next(keccak, s, EngineStep(t)))
  {
    var e, e' := s.engine, Engine.Advance(s.engine, t);
    EngineKeepsRest(e, t);
    StartIsAnswered(e.data, e.threads[t], 0);
    forall k: nat
      ensures Settled(e'.hist, k) + StartingFor(e'.threads[t], k) == Settled(e.hist, k) + StartingFor(e.threads[t], k)
    {
      EngineStepSettles(e, t, k);
    }
    EngineMovesFlow(s, e', t);
  }

  lemma EngineMovesFlow(s: State, e': Engine.State, t: nat)
    requires Flow(s) && t < |s.engine.threads| <= |e'.threads|
    requires e'.data.capacity == s.engine.data.capacity
    requires e'.hist.taken == s.engine.hist.taken && s.engine.hist.model.emitted <= e'.hist.model.emitted
    requires forall u | 0 <= u < |s.engine.threads| && u != t :: e'.threads[u] == s.engine.threads[u]
    requires forall u | |s.engine.threads| <= u < |e'.threads| :: !Starting(e'.threads[u])
    requires Starting(e'.threads[t]) ==> Starting(s.engine.threads[t])
    requires forall k: nat :: Settled(e'.hist, k) + StartingFor(e'.threads[t], k)
                              == Settled(s.engine.hist, k) + StartingFor(s.engine.threads[t], k)
    ensures Flow(s.(engine := e'))
  {
    var s' := s.(engine := e');
    forall k: nat
      ensures FrontHalf(s', k)
    {
      assert FrontHalf(s, k);
    }
    forall k: nat
      ensures BackHalf(s', k)
    {
      assert BackHalf(s, k);
      assert Received(s') == Received(s);
    }
  }

  lemma SubmitIntentFlow(s: State, intent: Intent)
    requires Flow(s) && |s.intentCh| < INTENT_BUFFER && intent.serial == |s.accepted|
    ensures Flow(s.(intentCh := s.intentCh + [intent], accepted := s.accepted + [intent]))
  {
    var s' := s.(intentCh := s.intentCh + [intent], accepted := s.accepted + [intent]);
    forall k: nat
      ensures FrontHalf(s', k)
    {
      assert FrontHalf(s, k);
      CountSnoc(s.intentCh, intent, IntentIs(k));
    }
    SameBack(s, s');
  }

  /** The back half looks only at the executor, at what was emitted and received, and at the failures. */
  lemma SameBack(s: State, s': State)
    requires forall k: nat :: BackHalf(s, k)
    requires s'.exec == s.exec && s'.reported == s.reported && s'.unreported == s.unreported
    requires s'.engine.hist == s.engine.hist
    ensures forall k: nat :: BackHalf(s', k)
  {
    forall k: nat
      ensures BackHalf(s', k)
    {
      assert BackHalf(s, k);
    }
  }

  /** The front half does not look at the executor. */
  lemma SameFront(s: State, s': State)
    requires forall k: nat :: FrontHalf(s, k)
    requires s'.intentCh == s.intentCh && s'.starter == s.starter && s'.accepted == s.accepted
    requires s'.engine.threads == s.engine.threads
    requires s'.engine.hist.log == s.engine.hist.log && s'.engine.hist.model == s.engine.hist.model
    ensures forall k: nat :: FrontHalf(s', k)
  {
    forall k: nat
      ensures FrontHalf(s', k)
    {
      assert FrontHalf(s, k);
    }
  }

  lemma DispatchIntentFlow(s: State)
    requires Flow(s) && Allowed(s, DispatchIntent)
    ensures var e' := s.engine.(threads := s.engine.threads + [Engine.StartWait(s.intentCh[0])]);
            Flow(s.(intentCh := s.intentCh[1..], starter := Some(|s.engine.threads|), engine := e'))
  {
    var e' := s.engine.(threads := s.engine.threads + [Engine.StartWait(s.intentCh[0])]);
    var s' := s.(intentCh := s.intentCh[1..], starter := Some(|s.engine.threads|), engine := e');
    forall k: nat
      ensures FrontHalf(s', k)
    {
      assert FrontHalf(s, k);
      CountHead(s.intentCh, IntentIs(k));
    }
    SameBack(s, s');
  }

  lemma DispatchBidFlow(s: State, bid: Bid, rest: seq<Bid>)
    requires Flow(s) && |rest| <= BID_BUFFER
    ensures Flow(s.(bidCh := rest, bidder := Some(|s.engine.threads|),
                    engine := s.engine.(threads := s.engine.threads + [Engine.BidCheck(bid)])))
  {
    var s' := s.(bidCh := rest, bidder := Some(|s.engine.threads|),
                 engine := s.engine.(threads := s.engine.threads + [Engine.BidCheck(bid)]));
    forall k: nat
      ensures FrontHalf(s', k)
    {
      assert FrontHalf(s, k);
    }
    SameBack(s, s');
  }

  lemma ReceiveFlow(keccak: Keccak, s: State)
    requires Flow(s) && Allowed(s, ReceiveVoucher) && EngineInvariant.VouchersAgree(s.engine.data, s.engine.hist)
    ensures Flow(Next(keccak, s, ReceiveVoucher))
  {
    var s', h, v := Next(keccak, s, ReceiveVoucher), s.engine.hist, s.engine.data.vouchers[0];
    SameFront(s, s');
    assert h.model.emitted[h.taken] == v;
    forall k: nat
      ensures BackHalf(s', k)
    {
      assert BackHalf(s, k);
      assert Received(s') == Received(s) + [v];
      CountSnoc(Received(s), v, VoucherIs(k));
    }
  }

  lemma ExecutorStepFlow(keccak: Keccak, s: State, a: Executor.Action)
    requires Flow(s) && Allowed(s, ExecutorStep(a))
    ensures Flow(s.(exec := Executor.Next(keccak, s.exec, a)))
  {
    var s' := s.(exec := Executor.Next(keccak, s.exec, a));
    SameFront(s, s');
    forall k: nat
      ensures BackHalf(s', k)
    {
      assert BackHalf(s, k);
      if a.Claim? {
        ClaimBack(keccak, s, a.reply, k);
      } else {
        QuietBack(keccak, s, a, k);
      }
    }
  }

  lemma ClaimBack(keccak: Keccak, s: State, reply: Executor.TxReply, k: nat)
    requires BackHalf(s, k) && s.exec.pc.Claiming?
    ensures BackHalf(s.(exec := Executor.Next(keccak, s.exec, Executor.Claim(reply))), k)
  {
    var v := s.exec.pc.v;
    var attempt := Executor.ClaimFor(keccak, v, s.exec.pc.nonce, reply);
    var s' := s.(exec := Executor.Next(keccak, s.exec, Executor.Claim(reply)));
    CountSnoc(s.exec.attempts, attempt, SubmittedIs(k));
    CountSnoc(s.exec.attempts, attempt, AttemptIs(k));
    assert AboutToClaim(s, k) == One(v.intent.serial == k) && AboutToClaim(s', k) == 0;
    assert InProgress(s, k) == InProgress(s', k) + One(reply.Submitted? && v.intent.serial == k);
    assert Received(s') == Received(s);
  }

  lemma QuietBack(keccak: Keccak, s: State, a: Executor.Action, k: nat)
    requires BackHalf(s, k) && Executor.Allowed(s.exec, a) && (a.Sign? || a.Tip? || a.Reserve? || a.Resync?)
    ensures BackHalf(s.(exec := Executor.Next(keccak, s.exec, a)), k)
  {
  }

  lemma ReportedFlow(s: State, v: Voucher)
    requires Flow(s) && s.exec.pc == Executor.Failing(v) && |s.failedCh| < FAILURE_BUFFER
    ensures Flow(s.(exec := s.exec.(pc := Executor.Idle),
                    failedCh := s.failedCh + [v.intentId],
                    reported := s.reported + [v]))
  {
    var s' := s.(exec := s.exec.(pc := Executor.Idle),
                 failedCh := s.failedCh + [v.intentId],
                 reported := s.reported + [v]);
    SameFront(s, s');
    forall k: nat
      ensures BackHalf(s', k)
    {
      assert BackHalf(s, k);
      CountSnoc(s.reported, v, VoucherIs(k));
    }
  }

  lemma UnreportedFlow(s: State, v: Voucher)
    requires Flow(s) && s.exec.pc == Executor.Failing(v)
    ensures Flow(s.(exec := s.exec.(pc := Executor.Idle), unreported := s.unreported + [v]))
  {
    var s' := s.(exec := s.exec.(pc := Executor.Idle), unreported := s.unreported + [v]);
    SameFront(s, s');
    forall k: nat
      ensures BackHalf(s', k)
    {
      assert BackHalf(s, k);
      CountSnoc(s.unreported, v, VoucherIs(k));
    }
  }

  lemma SmallFlow(s: State, bids: seq<Bid>, failed: seq<IntentId>)
    requires Flow(s) && |bids| <= BID_BUFFER && |failed| <= FAILURE_BUFFER
    ensures Flow(s.(bidCh := bids)) && Flow(s.(failedCh := failed))
  {
    SameFront(s, s.(bidCh := bids));
    SameBack(s, s.(bidCh := bids));
    SameFront(s, s.(failedCh := failed));
    SameBack(s, s.(failedCh := failed));
  }

  lemma FrontFlowKept(keccak: Keccak, s: State, a: Action)
    requires Inv(s) && Allowed(s, a)
    requires a.SubmitIntent? || a.DispatchIntent? || a.SubmitBid? || a.DispatchBid? || a.EngineStep?
    ensures Flow(Next(keccak, s, a))
  {
    match a
    case SubmitIntent(intent) =>
      if |s.intentCh| < INTENT_BUFFER { SubmitIntentFlow(s, intent.(serial := |s.accepted|)); }
    case DispatchIntent => DispatchIntentFlow(s);
    case SubmitBid(bid) => SmallFlow(s, Push(s.bidCh, bid, BID_BUFFER), s.failedCh);
    case DispatchBid => DispatchBidFlow(s, s.bidCh[0], s.bidCh[1..]);
    case EngineStep(t) => EngineStepFlow(keccak, s, t);
  }

  lemma BackFlowKept(keccak: Keccak, s: State, a: Action)
    requires Flow(s) && EngineInvariant.VouchersAgree(s.engine.data, s.engine.hist)
    requires Allowed(s, a) && (a.ReceiveVoucher? || a.ExecutorStep? || a.ReportFailure? || a.DrainFailure?)
    ensures Flow(Next(keccak, s, a))
  {
    if a.ReceiveVoucher? {
      ReceiveFlow(keccak, s);
    } else if a.ExecutorStep? {
      ExecutorStepFlow(keccak, s, a.a);
    } else if a.DrainFailure? {
      SmallFlow(s, s.bidCh, s.failedCh[1..]);
    } else if |s.failedCh| < FAILURE_BUFFER {
      ReportedFlow(s, s.exec.pc.v);
    } else {
      UnreportedFlow(s, s.exec.pc.v);
    }
  }

  lemma EngineInvKept(keccak: Keccak, s: State, a: Action)
    requires EngineInvariant.Inv(s.engine) && Allowed(s, a)
    ensures EngineInvariant.Inv(Next(keccak, s, a).engine)
  {
    match a
    case DispatchIntent => EngineInvariant.ActionKeepsInv(s.engine, Engine.CallStart(s.intentCh[0]));
    case DispatchBid => EngineInvariant.ActionKeepsInv(s.engine, Engine.CallBid(s.bidCh[0]));
    case EngineStep(t) => EngineInvariant.ActionKeepsInv(s.engine, Engine.Go(t));
    case ReceiveVoucher => EngineInvariant.ActionKeepsInv(s.engine, Engine.Take);
    case _ =>
  }

  lemma {:induction false} RunKeepsInv(keccak: Keccak, s: State, run: seq<Action>)
    requires Inv(s) && Feasible(keccak, s, run)
    ensures Inv(Exec(keccak, s, run))
    decreases |run|
  {
    if run != [] {
      if run[0].ReceiveVoucher? || run[0].ExecutorStep? || run[0].ReportFailure? || run[0].DrainFailure? {
        BackFlowKept(keccak, s, run[0]);
      } else {
        FrontFlowKept(keccak, s, run[0]);
      }
      EngineInvKept(keccak, s, run[0]);
      RunKeepsInv(keccak, Next(keccak, s, run[0]), run[1..]);
    }
  }

  // ---- theorems -----------------------------------------------------------------------------------

  datatype Place =
    | Queued | BeingDispatched | RefusedAsDuplicate | LiveAuction | ClosedWithoutBids | VoucherDropped
    | VoucherQueued | ClaimInProgress | ClaimSubmitted | FailureReported | FailureNoticeDropped

  /** How often intent k is found in a place. */
  ghost function At(s: State, k: nat, p: Place): nat {
    match p
    case Queued => Count(s.intentCh, IntentIs(k))
    case BeingDispatched => Dispatching(s, k)
    case RefusedAsDuplicate => Count(s.engine.hist.log, RefusalIs(k))
    case LiveAuction => Count(s.engine.hist.model.auctions, LiveIs(k))
    case ClosedWithoutBids => Count(s.engine.hist.model.auctions, FateIs(k, H.Unbid))
    case VoucherDropped => Count(s.engine.hist.model.auctions, FateIs(k, H.Dropped))
    case VoucherQueued => Count(s.engine.data.vouchers, VoucherIs(k))
    case ClaimInProgress => InProgress(s, k)
    case ClaimSubmitted => Count(s.exec.attempts, SubmittedIs(k))
    case FailureReported => Count(s.reported, VoucherIs(k))
    case FailureNoticeDropped => Count(s.unreported, VoucherIs(k))
  }

  function DecidedUnemittedIs(k: nat): H.Auction -> bool {
    (a: H.Auction) => a.intent.serial == k && a.phase.Closed? && a.phase.fate != H.Emitted
  }

  lemma UnemittedSplits(auctions: seq<H.Auction>, k: nat)
    ensures Count(auctions, UnemittedIs(k))
            == Count(auctions, LiveIs(k)) + Count(auctions, FateIs(k, H.Unbid)) + Count(auctions, FateIs(k, H.Dropped))
  {
    CountSplit(auctions, UnemittedIs(k), LiveIs(k), DecidedUnemittedIs(k));
    CountSplit(auctions, DecidedUnemittedIs(k), FateIs(k, H.Unbid), FateIs(k, H.Dropped));
  }

  lemma EmittedSplits(s: State, k: nat)
    requires EngineInvariant.VouchersAgree(s.engine.data, s.engine.hist)
    ensures Count(s.engine.hist.model.emitted, VoucherIs(k))
            == Count(Received(s), VoucherIs(k)) + Count(s.engine.data.vouchers, VoucherIs(k))
  {
    assert s.engine.hist.model.emitted == Received(s) + s.engine.data.vouchers;
    CountConcat(Received(s), s.engine.data.vouchers, VoucherIs(k));
  }

  ghost function InFront(s: State, k: nat): nat {
    At(s, k, Queued) + At(s, k, BeingDispatched) + At(s, k, RefusedAsDuplicate) + At(s, k, LiveAuction)
    + At(s, k, ClosedWithoutBids) + At(s, k, VoucherDropped)
  }

  ghost function InBack(s: State, k: nat): nat {
    At(s, k, VoucherQueued) + At(s, k, ClaimInProgress) + At(s, k, ClaimSubmitted) + At(s, k, FailureReported)
    + At(s, k, FailureNoticeDropped)
  }

  lemma FrontAddsUp(s: State, k: nat)
    requires FrontHalf(s, k)
    ensures InFront(s, k) + Count(s.engine.hist.model.emitted, VoucherIs(k)) == One(k < |s.accepted|)
  {
    UnemittedSplits(s.engine.hist.model.auctions, k);
  }

  lemma BackAddsUp(s: State, k: nat)
    requires EngineInvariant.VouchersAgree(s.engine.data, s.engine.hist) && BackHalf(s, k)
    ensures InBack(s, k) == Count(s.engine.hist.model.emitted, VoucherIs(k))
  {
    EmittedSplits(s, k);
  }

  lemma StartsEmpty(counter: Uint64)
    ensures Inv(Init(counter))
  {
  }

  lemma ReachableInv(keccak: Keccak, counter: Uint64, run: seq<Action>)
    requires Feasible(keccak, Init(counter), run)
    ensures Inv(Exec(keccak, Init(counter), run))
  {
    StartsEmpty(counter);
    RunKeepsInv(keccak, Init(counter), run);
  }

  /** Numbers that add up to one are all zero but one. */
  lemma ExactlyOne(s: State, k: nat)
    requires InFront(s, k) + InBack(s, k) == 1
    ensures exists p :: At(s, k, p) == 1 && forall q | q != p :: At(s, k, q) == 0
  {
    var p := if InFront(s, k) == 1 then FrontPlace(s, k) else BackPlace(s, k);
    assert At(s, k, p) == 1;
    forall q: Place | q != p
      ensures At(s, k, q) == 0
    {
      match q
      case Queued =>
      case BeingDispatched =>
      case RefusedAsDuplicate =>
      case LiveAuction =>
      case ClosedWithoutBids =>
      case VoucherDropped =>
      case VoucherQueued =>
      case ClaimInProgress =>
      case ClaimSubmitted =>
      case FailureReported =>
      case FailureNoticeDropped =>
    }
  }

  ghost function FrontPlace(s: State, k: nat): (p: Place)
    ensures InFront(s, k) == 1 ==> At(s, k, p) == 1
  {
    if At(s, k, Queued) == 1 then Queued
    else if At(s, k, BeingDispatched) == 1 then BeingDispatched
    else if At(s, k, RefusedAsDuplicate) == 1 then RefusedAsDuplicate
    else if At(s, k, LiveAuction) == 1 then LiveAuction
    else if At(s, k, ClosedWithoutBids) == 1 then ClosedWithoutBids
    else VoucherDropped
  }

  ghost function BackPlace(s: State, k: nat): (p: Place)
    ensures InBack(s, k) == 1 ==> At(s, k, p) == 1
  {
    if At(s, k, VoucherQueued) == 1 then VoucherQueued
    else if At(s, k, ClaimInProgress) == 1 then ClaimInProgress
    else if At(s, k, ClaimSubmitted) == 1 then ClaimSubmitted
    else if At(s, k, FailureReported) == 1 then FailureReported
    else FailureNoticeDropped
  }

  lemma Nowhere(s: State, k: nat)
    requires InFront(s, k) + InBack(s, k) == 0
    ensures forall p :: At(s, k, p) == 0
  {
  }

  /**
   Conservation: in every reachable state of the whole relayer, each accepted intent is in exactly one
   place, exactly once, and nothing else is anywhere.
   */
  lemma EveryIntentIsInExactlyOnePlace(keccak: Keccak, counter: Uint64, run: seq<Action>, k: nat)
    requires Feasible(keccak, Init(counter), run)
    ensures var s := Exec(keccak, Init(counter), run);
            if k < |s.accepted|
            then exists p :: At(s, k, p) == 1 && forall q | q != p :: At(s, k, q) == 0
            else forall p :: At(s, k, p) == 0
  {
    var s := Exec(keccak, Init(counter), run);
    assert EngineInvariant.VouchersAgree(s.engine.data, s.engine.hist) && FrontHalf(s, k) && BackHalf(s, k) by {
      ReachableInv(keccak, counter, run);
    }
    FrontAddsUp(s, k);
    BackAddsUp(s, k);
    if k < |s.accepted| {
      ExactlyOne(s, k);
    } else {
      Nowhere(s, k);
    }
  }

  /** Every queue stays within its capacity. */
  lemma QueuesStayBounded(keccak: Keccak, counter: Uint64, run: seq<Action>)
    requires Feasible(keccak, Init(counter), run)
    ensures var s := Exec(keccak, Init(counter), run);
            && |s.intentCh| <= 256 && |s.bidCh| <= 10_000 && |s.failedCh| <= 128
            && |s.engine.data.vouchers| <= s.engine.data.capacity == 256
  {
    ReachableInv(keccak, counter, run);
  }

  /** No accepted intent is ever claimed twice. */
  lemma AtMostOneClaimPerIntent(keccak: Keccak, counter: Uint64, run: seq<Action>, k: nat)
    requires Feasible(keccak, Init(counter), run)
    ensures Count(Exec(keccak, Init(counter), run).exec.attempts, AttemptIs(k)) <= 1
  {
    var s := Exec(keccak, Init(counter), run);
    assert EngineInvariant.VouchersAgree(s.engine.data, s.engine.hist) && FrontHalf(s, k) && BackHalf(s, k) by {
      ReachableInv(keccak, counter, run);
    }
    EmittedSplits(s, k);
  }
}
