/** End-to-end provenance: where every claim comes from. */
module Provenance {
  import opened Core
  import opened Signer
  import opened NonceQueue
  import opened WinnerSelection
  import opened ClaimEncoding
  import opened Relayer
  import H = AuctionHistory
  import Engine = EngineMachine
  import EngineInvariant
  import Executor
  import Conservation

  /** The intent is the one accepted under its serial number. */
  ghost predicate WasAccepted(accepted: seq<Intent>, i: Intent) {
    i.serial < |accepted| && accepted[i.serial] == i
  }

  /** Intents under way, and intents auctioned, are accepted intents. */
  ghost predicate IntentsOk(s: State) {
    && (forall i | i in s.intentCh :: WasAccepted(s.accepted, i))
    && (forall t | 0 <= t < |s.engine.threads| && Conservation.Starting(s.engine.threads[t]) ::
          WasAccepted(s.accepted, s.engine.threads[t].intent))
    && (forall r | 0 <= r < |s.engine.hist.model.auctions| ::
          WasAccepted(s.accepted, s.engine.hist.model.auctions[r].intent))
  }

  /** The executor works only on vouchers the engine emitted, and claims what they say. */
  ghost predicate ClaimsOk(keccak: Keccak, s: State) {
    && (!s.exec.pc.Idle? ==> s.exec.pc.v in s.engine.hist.model.emitted)
    && (forall j | 0 <= j < |s.exec.attempts| ::
          var a := s.exec.attempts[j];
          a.voucher in s.engine.hist.model.emitted && a == Executor.ClaimFor(keccak, a.voucher, a.nonce, a.reply))
  }

  ghost predicate Inv(keccak: Keccak, s: State) {
    EngineInvariant.Inv(s.engine) && IntentsOk(s) && ClaimsOk(keccak, s)
  }

  /** Intents stay accepted if a step changes only goroutine t and starts nothing but accepted intents. */
  lemma IntentsSurvive(s: State, e': Engine.State, t: nat)
    requires IntentsOk(s) && t < |s.engine.threads| <= |e'.threads|
    requires forall u | 0 <= u < |s.engine.threads| && u != t :: e'.threads[u] == s.engine.threads[u]
    requires forall u | |s.engine.threads| <= u < |e'.threads| :: !Conservation.Starting(e'.threads[u])
    requires Conservation.Starting(e'.threads[t]) ==> WasAccepted(s.accepted, e'.threads[t].intent)
    requires forall r | 0 <= r < |e'.hist.model.auctions| :: WasAccepted(s.accepted, e'.hist.model.auctions[r].intent)
    ensures IntentsOk(s.(engine := e'))
  {
  }

  /** An engine step starts auctions only for the intents of starting calls. */
  lemma EngineStepIntents(s: State, t: nat)
    requires EngineInvariant.Inv(s.engine) && IntentsOk(s) && Engine.Enabled(s.engine, t)
    ensures IntentsOk(s.(engine := Engine.Advance(s.engine, t)))
  {
    var e, e' := s.engine, Engine.Advance(s.engine, t);
    Conservation.EngineKeepsRest(e, t);
    StartingKeepsIntent(e.data, e.threads[t]);
    ModelIntents(s, t);
    IntentsSurvive(s, e', t);
  }

  lemma ModelIntents(s: State, t: nat)
    requires EngineInvariant.Inv(s.engine) && IntentsOk(s) && Engine.Enabled(s.engine, t)
    ensures var m' := Engine.Advance(s.engine, t).hist.model;
            forall r | 0 <= r < |m'.auctions| :: WasAccepted(s.accepted, m'.auctions[r].intent)
  {
    var e := s.engine;
    assert EngineInvariant.PcOk(e.data, e.hist.model, e.hist.owners, t, e.threads[t]);
    EngineInvariant.StepIsLegal(e.data, e.hist.model, e.hist.owners, t, e.threads[t]);
    StartingKeepsIntent(e.data, e.threads[t]);
    var event := Engine.EventOf(e.data, e.threads[t]);
    if event.Some? {
      ApplyKeepsIntents(e.hist.model, event.value);
    }
  }

  lemma StartingKeepsIntent(d: Engine.Data, pc: Engine.Pc)
    requires Engine.Ready(d, pc)
    ensures Conservation.Starting(Engine.PcAfter(d, pc)) ==>
              Conservation.Starting(pc) && Engine.PcAfter(d, pc).intent == pc.intent
    ensures Engine.EventOf(d, pc).Some? && Engine.EventOf(d, pc).value.Start? ==>
              Conservation.Starting(pc) && Engine.EventOf(d, pc).value.intent == pc.intent
  {
  }

  lemma ApplyKeepsIntents(m: H.Model, e: H.Event)
    requires H.Legal(m, e)
    ensures var m' := H.Apply(m, e);
            && |m.auctions| <= |m'.auctions|
            && (forall r | 0 <= r < |m.auctions| :: m'.auctions[r].intent == m.auctions[r].intent)
            && (forall r | |m.auctions| <= r < |m'.auctions| :: e.Start? && m'.auctions[r].intent == e.intent)
  {
  }

  lemma QueueStepIntents(keccak: Keccak, s: State, a: Action)
    requires IntentsOk(s) && Allowed(s, a) && !a.EngineStep?
    ensures IntentsOk(Next(keccak, s, a))
  {
  }

  /** What has been emitted stays emitted. */
  lemma ClaimsSurviveGrowth(keccak: Keccak, s: State, e': Engine.State)
    requires ClaimsOk(keccak, s) && s.engine.hist.model.emitted <= e'.hist.model.emitted
    ensures ClaimsOk(keccak, s.(engine := e'))
  {
    assert forall v | v in s.engine.hist.model.emitted :: v in e'.hist.model.emitted;
  }

  lemma ReceiveClaims(keccak: Keccak, s: State)
    requires ClaimsOk(keccak, s) && Allowed(s, ReceiveVoucher)
    requires EngineInvariant.VouchersAgree(s.engine.data, s.engine.hist)
    ensures ClaimsOk(keccak, Next(keccak, s, ReceiveVoucher))
  {
    assert s.engine.hist.model.emitted[s.engine.hist.taken] == s.engine.data.vouchers[0];
  }

  lemma OtherClaims(keccak: Keccak, s: State, a: Action)
    requires ClaimsOk(keccak, s) && Allowed(s, a) && !a.EngineStep? && !a.ReceiveVoucher?
    ensures ClaimsOk(keccak, Next(keccak, s, a))
  {
  }

  lemma ActionKeepsInv(keccak: Keccak, s: State, a: Action)
    requires Inv(keccak, s) && Allowed(s, a)
    ensures Inv(keccak, Next(keccak, s, a))
  {
    Conservation.EngineInvKept(keccak, s, a);
    if a.EngineStep? {
      EngineStepIntents(s, a.t);
      Conservation.EngineKeepsRest(s.engine, a.t);
      ClaimsSurviveGrowth(keccak, s, Engine.Advance(s.engine, a.t));
    } else {
      QueueStepIntents(keccak, s, a);
      if a.ReceiveVoucher? {
        ReceiveClaims(keccak, s);
      } else {
        OtherClaims(keccak, s, a);
      }
    }
  }

  lemma {:induction false} RunKeepsInv(keccak: Keccak, s: State, run: seq<Action>)
    requires Inv(keccak, s) && Feasible(keccak, s, run)
    ensures Inv(keccak, Exec(keccak, s, run))
    decreases |run|
  {
    if run != [] {
      ActionKeepsInv(keccak, s, run[0]);
      RunKeepsInv(keccak, Next(keccak, s, run[0]), run[1..]);
    }
  }

  lemma ReachableInv(keccak: Keccak, counter: Uint64, run: seq<Action>)
    requires Feasible(keccak, Init(counter), run)
    ensures Inv(keccak, Exec(keccak, Init(counter), run))
  {
    RunKeepsInv(keccak, Init(counter), run);
  }

  /**
   End-to-end provenance. In every interleaved run, each ClaimFunds call is made for an intent that was
   accepted and auctioned: it carries the encoded id of that intent and the solver of a bid for it, signed
   as a pair, and that bid was appended to the auction's own entry before its one selection (event i) and is
   maximal in (AmountOut, GasPrice) among all bids appended to it by then.
   */
  lemma EveryClaimHasAWinner(keccak: Keccak, counter: Uint64, run: seq<Action>, j: nat) returns (r: nat, i: nat)
    requires Feasible(keccak, Init(counter), run)
    requires j < |Exec(keccak, Init(counter), run).exec.attempts|
    ensures var s := Exec(keccak, Init(counter), run);
            var log, a := s.engine.hist.log, s.exec.attempts[j];
            && i < |log| && log[i].Select? && log[i].auction == r && r < |H.Started(log[..i])|
            && (forall q | 0 <= q < |log| && log[q].Select? && log[q].auction == r :: q == i)
            && var intent, bids, w := H.Started(log[..i])[r], H.Appended(log[..i], r), a.voucher.winningBid;
            && intent in s.accepted
            && a.id == EncodeId(intent.id) && a.solver == w.solver
            && a.signed == ClaimDigest(keccak, a.id, a.solver)
            && w in bids && w.intentId == intent.id && Priced(w)
            && (forall b | b in bids ::
                  && Priced(b) && b.amountOut.value <= w.amountOut.value
                  && (b.amountOut.value == w.amountOut.value ==> b.gasPrice.value <= w.gasPrice.value))
  {
    var s := Exec(keccak, Init(counter), run);
    ReachableInv(keccak, counter, run);
    var h, a := s.engine.hist, s.exec.attempts[j];
    var k :| 0 <= k < |h.model.emitted| && h.model.emitted[k] == a.voucher;
    r, i := H.VoucherProvenance(h.log, k);
    H.EventIsLegal(h.log, i);
    WinnerIsMaximal(H.Appended(h.log[..i], r), a.voucher.winningBid);
    H.AppendedBidsMatch(h.log[..i], r);
    AuctionedWasAccepted(s, i, r);
  }

  lemma AuctionedWasAccepted(s: State, i: nat, r: nat)
    requires EngineInvariant.Inv(s.engine) && IntentsOk(s)
    requires i <= |s.engine.hist.log| && r < |H.Started(s.engine.hist.log[..i])|
    ensures H.Started(s.engine.hist.log[..i])[r] in s.accepted
  {
    var h := s.engine.hist;
    H.StartedGrows(h.log, i);
    H.ReplayKeepsStartsAndAppends(h.log);
    assert WasAccepted(s.accepted, h.model.auctions[r].intent);
  }
}
