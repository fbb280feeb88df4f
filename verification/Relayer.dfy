/**
 The whole pipeline (cmd/relayer/main.go): the HTTP handler fills the intent queue, the dispatchers feed the
 auction engine, the executor consumes vouchers and reports failures, the drainer empties the failure queue.
 All queues are bounded; every push that would block is abandoned.
 */
module Relayer {
  import opened Core
  import opened Signer
  import opened NonceQueue
  import Engine = EngineMachine
  import Executor

  const INTENT_BUFFER: nat := 256
  const BID_BUFFER: nat := 10_000
  const VOUCHER_BUFFER: nat := 256
  const FAILURE_BUFFER: nat := 128

  /**
   `starter` and `bidder` are the calls the two dispatchers made last; `accepted` lists the intents that were
   queued, each under its serial number; `reported` and `unreported` the vouchers whose failure notice was
   queued or dropped.
   */
  datatype State = State(
    intentCh: seq<Intent>,
    bidCh: seq<Bid>,
    failedCh: seq<IntentId>,
    starter: Option<nat>,
    bidder: Option<nat>,
    engine: Engine.State,
    exec: Executor.State,
    accepted: seq<Intent>,
    reported: seq<Voucher>,
    unreported: seq<Voucher>)

  function Init(counter: Uint64): State {
    State([], [], [], None, None, Engine.Init(VOUCHER_BUFFER), Executor.State(counter, Executor.Idle, []), [], [], [])
  }

  datatype Action =
    | SubmitIntent(intent: Intent)
    | DispatchIntent
    | SubmitBid(bid: Bid)
    | DispatchBid
    | EngineStep(t: nat)
    | ReceiveVoucher
    | ExecutorStep(a: Executor.Action)
    | ReportFailure
    | DrainFailure

  /** A dispatcher handles one item at a time: its last call has returned. */
  predicate Returned(e: Engine.State, call: Option<nat>) {
    call.Some? ==> call.value < |e.threads| && e.threads[call.value].Done?
  }

  predicate Allowed(s: State, a: Action) {
    match a
    case SubmitIntent(_) => true
    case DispatchIntent => s.intentCh != [] && Returned(s.engine, s.starter)
    case SubmitBid(_) => true
    case DispatchBid => s.bidCh != [] && Returned(s.engine, s.bidder)
    case EngineStep(t) => Engine.Allowed(s.engine, Engine.Go(t))
    case ReceiveVoucher => s.engine.data.vouchers != [] && s.exec.pc.Idle?
    case ExecutorStep(e) => Executor.Allowed(s.exec, e) && !e.Receive? && !e.Report?
    case ReportFailure => s.exec.pc.Failing?
    case DrainFailure => s.failedCh != []
  }

  /** The item joins the queue, or is dropped when the queue is full. */
  function Push<T>(queue: seq<T>, item: T, capacity: nat): seq<T> {
    if |queue| < capacity then queue + [item] else queue
  }

  function Next(keccak: Keccak, s: State, a: Action): State
    requires Allowed(s, a)
  {
    match a
    case SubmitIntent(intent) =>
      // a full queue answers 503 and the intent is not accepted
      if |s.intentCh| < INTENT_BUFFER then
        var numbered := intent.(serial := |s.accepted|);
        s.(intentCh := s.intentCh + [numbered], accepted := s.accepted + [numbered])
      else s
    case DispatchIntent =>
      s.(intentCh := s.intentCh[1..],
         starter := Some(|s.engine.threads|),
         engine := Engine.Next(s.engine, Engine.CallStart(s.intentCh[0])))
    case SubmitBid(bid) => s.(bidCh := Push(s.bidCh, bid, BID_BUFFER))
    case DispatchBid =>
      s.(bidCh := s.bidCh[1..],
         bidder := Some(|s.engine.threads|),
         engine := Engine.Next(s.engine, Engine.CallBid(s.bidCh[0])))
    case EngineStep(t) => s.(engine := Engine.Next(s.engine, Engine.Go(t)))
    case ReceiveVoucher =>
      s.(engine := Engine.Next(s.engine, Engine.Take),
         exec := Executor.Next(keccak, s.exec, Executor.Receive(s.engine.data.vouchers[0])))
    case ExecutorStep(e) => s.(exec := Executor.Next(keccak, s.exec, e))
    case ReportFailure =>
      var v := s.exec.pc.v;
      var s' := s.(exec := Executor.Next(keccak, s.exec, Executor.Report));
      if |s.failedCh| < FAILURE_BUFFER
      then s'.(failedCh := s.failedCh + [v.intentId], reported := s.reported + [v])
      else s'.(unreported := s.unreported + [v])
    case DrainFailure => s.(failedCh := s.failedCh[1..])
  }

  predicate Feasible(keccak: Keccak, s: State, run: seq<Action>)
    decreases |run|
  {
    run != [] ==> Allowed(s, run[0]) && Feasible(keccak, Next(keccak, s, run[0]), run[1..])
  }

  function Exec(keccak: Keccak, s: State, run: seq<Action>): State
    requires Feasible(keccak, s, run)
    decreases |run|
  {
    if run == [] then s else Exec(keccak, Next(keccak, s, run[0]), run[1..])
  }
}
