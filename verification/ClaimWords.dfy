/**
 What the settlement contract sees of an intent is its 32-byte claim id. This file bounds the claims that
 carry one claim id, and shows that several can.
 */
module ClaimWords {
  import opened Core
  import opened ClaimEncoding
  import opened Signer
  import NonceQueue
  import opened Tally
  import opened Relayer
  import opened WinnerSelection
  import H = AuctionHistory
  import Engine = EngineMachine
  import EngineRuns
  import EngineInvariant
  import Executor
  import Conservation

  function IntentHas(w: Word): Intent -> bool {
    (i: Intent) => EncodeId(i.id) == w
  }

  function VoucherHas(w: Word): Voucher -> bool {
    (v: Voucher) => EncodeId(v.intent.id) == w
  }

  function AuctionHas(w: Word): H.Auction -> bool {
    (a: H.Auction) => EncodeId(a.intent.id) == w && a.phase == H.Closed(H.Emitted)
  }

  function ClaimHas(w: Word): Executor.Attempt -> bool {
    (a: Executor.Attempt) => a.id == w
  }

  // ---- vouchers per start -------------------------------------------------------------------------

  /** Every voucher has closed an auction of its own. */
  lemma EventEmits(m: H.Model, e: H.Event, w: Word)
    requires H.Legal(m, e)
    ensures Count(H.Apply(m, e).emitted, VoucherHas(w)) - Count(m.emitted, VoucherHas(w))
            == Count(H.Apply(m, e).auctions, AuctionHas(w)) - Count(m.auctions, AuctionHas(w))
  {
    var m' := H.Apply(m, e);
    match e
    case Start(intent) => CountSnoc(m.auctions, H.Auction(intent, [], H.Open), AuctionHas(w));
    case Append(r, _) => CountUpdate(m.auctions, r, m'.auctions[r], AuctionHas(w));
    case Select(r, _) => CountUpdate(m.auctions, r, m'.auctions[r], AuctionHas(w));
    case Close(r, fate) =>
      CountUpdate(m.auctions, r, m'.auctions[r], AuctionHas(w));
      if fate == H.Emitted {
        CountSnoc(m.emitted, H.VoucherFor(m.auctions[r].intent, m.auctions[r].phase.winner.value), VoucherHas(w));
      }
    case Refuse(_) =>
    case Reject(_) =>
    case Remove(_) =>
  }

  lemma {:induction false} VouchersCloseAuctions(log: seq<H.Event>, w: Word)
    requires H.LegalLog(log)
    ensures Count(H.Replay(log).emitted, VoucherHas(w)) == Count(H.Replay(log).auctions, AuctionHas(w))
  {
    if log != [] {
      VouchersCloseAuctions(log[..|log| - 1], w);
      EventEmits(H.Replay(log[..|log| - 1]), log[|log| - 1], w);
    }
  }

  lemma {:induction false} AuctionsWereStarted(auctions: seq<H.Auction>, intents: seq<Intent>, w: Word)
    requires |auctions| == |intents| && forall r | 0 <= r < |auctions| :: auctions[r].intent == intents[r]
    ensures Count(auctions, AuctionHas(w)) <= Count(intents, IntentHas(w))
  {
    if auctions != [] {
      var n := |auctions| - 1;
      AuctionsWereStarted(auctions[..n], intents[..n], w);
    }
  }

  lemma VouchersPerStart(log: seq<H.Event>, w: Word)
    requires H.LegalLog(log)
    ensures Count(H.Replay(log).emitted, VoucherHas(w)) <= Count(H.Started(log), IntentHas(w))
  {
    VouchersCloseAuctions(log, w);
    H.ReplayKeepsStartsAndAppends(log);
    AuctionsWereStarted(H.Replay(log).auctions, H.Started(log), w);
  }

  // ---- claims per voucher -------------------------------------------------------------------------

  /** The voucher being executed has not been claimed yet. */
  function Unclaimed(pc: Executor.Pc, w: Word): nat {
    One((pc.Signing? || pc.Tipping? || pc.Reserving? || pc.Claiming?) && EncodeId(pc.v.intent.id) == w)
  }

  /** Every claim, made or coming, is backed by a received voucher of its own. */
  ghost predicate Backed(s: State, w: Word) {
    && s.engine.hist.taken <= |s.engine.hist.model.emitted|
    && Count(s.exec.attempts, ClaimHas(w)) + Unclaimed(s.exec.pc, w)
       <= Count(s.engine.hist.model.emitted[..s.engine.hist.taken], VoucherHas(w))
  }

  lemma ExecutorBacked(keccak: Keccak, e: Executor.State, a: Executor.Action, w: Word)
    requires Executor.Allowed(e, a) && !a.Receive?
    ensures var e' := Executor.Next(keccak, e, a);
            Count(e'.attempts, ClaimHas(w)) + Unclaimed(e'.pc, w) <= Count(e.attempts, ClaimHas(w)) + Unclaimed(e.pc, w)
  {
    if a.Claim? {
      CountSnoc(e.attempts, Executor.ClaimFor(keccak, e.pc.v, e.pc.nonce, a.reply), ClaimHas(w));
    }
  }

  lemma EngineStepBacked(s: State, t: nat, w: Word)
    requires EngineInvariant.Inv(s.engine) && Backed(s, w) && Engine.Enabled(s.engine, t)
    ensures Backed(s.(engine := Engine.Advance(s.engine, t)), w)
  {
    var h, h' := s.engine.hist, Engine.Advance(s.engine, t).hist;
    Conservation.EngineKeepsRest(s.engine, t);
    assert h'.model.emitted[..h'.taken] == h.model.emitted[..h.taken];
  }

  lemma ReceiveBacked(keccak: Keccak, s: State, w: Word)
    requires EngineInvariant.VouchersAgree(s.engine.data, s.engine.hist) && Backed(s, w) && Allowed(s, ReceiveVoucher)
    ensures Backed(Next(keccak, s, ReceiveVoucher), w)
  {
    var h := s.engine.hist;
    assert h.model.emitted[h.taken] == s.engine.data.vouchers[0];
    assert h.model.emitted[..h.taken + 1] == h.model.emitted[..h.taken] + [s.engine.data.vouchers[0]];
    CountSnoc(h.model.emitted[..h.taken], s.engine.data.vouchers[0], VoucherHas(w));
  }

  /** Dispatching, submitting, reporting and draining leave the vouchers and the claims alone. */
  lemma OtherBacked(keccak: Keccak, s: State, a: Action, w: Word)
    requires Backed(s, w) && Allowed(s, a) && !a.EngineStep? && !a.ReceiveVoucher? && !a.ExecutorStep?
    ensures Backed(Next(keccak, s, a), w)
  {
    var s' := Next(keccak, s, a);
    assert s'.engine.hist == s.engine.hist && s'.exec.attempts == s.exec.attempts;
    assert Unclaimed(s'.exec.pc, w) <= Unclaimed(s.exec.pc, w);
  }

  lemma ExecutorStepBacked(keccak: Keccak, s: State, a: Executor.Action, w: Word)
    requires Backed(s, w) && Allowed(s, ExecutorStep(a))
    ensures Backed(Next(keccak, s, ExecutorStep(a)), w)
  {
    ExecutorBacked(keccak, s.exec, a, w);
  }

  lemma ActionBacked(keccak: Keccak, s: State, a: Action, w: Word)
    requires EngineInvariant.Inv(s.engine) && Backed(s, w) && Allowed(s, a)
    ensures Backed(Next(keccak, s, a), w)
  {
    if a.EngineStep? {
      EngineStepBacked(s, a.t, w);
    } else if a.ReceiveVoucher? {
      ReceiveBacked(keccak, s, w);
    } else if a.ExecutorStep? {
      ExecutorStepBacked(keccak, s, a.a, w);
    } else {
      OtherBacked(keccak, s, a, w);
    }
  }

  lemma {:induction false} RunBacked(keccak: Keccak, s: State, run: seq<Action>, w: Word)
    requires EngineInvariant.Inv(s.engine) && Backed(s, w) && Feasible(keccak, s, run)
    ensures EngineInvariant.Inv(Exec(keccak, s, run).engine) && Backed(Exec(keccak, s, run), w)
    decreases |run|
  {
    if run != [] {
      ActionBacked(keccak, s, run[0], w);
      Conservation.EngineInvKept(keccak, s, run[0]);
      RunBacked(keccak, Next(keccak, s, run[0]), run[1..], w);
    }
  }

  /**
   Over any run, the claims that carry one claim id are at most the successful starts of ids with that
   encoding: as many as the contract may see, and no more.
   */
  lemma ClaimsPerWord(keccak: Keccak, counter: NonceQueue.Uint64, run: seq<Action>, w: Word)
    requires Feasible(keccak, Init(counter), run)
    ensures var s := Exec(keccak, Init(counter), run);
            Count(s.exec.attempts, ClaimHas(w)) <= Count(H.Started(s.engine.hist.log), IntentHas(w))
  {
    RunBacked(keccak, Init(counter), run, w);
    var h := Exec(keccak, Init(counter), run).engine.hist;
    assert h.model.emitted == h.model.emitted[..h.taken] + h.model.emitted[h.taken..];
    CountConcat(h.model.emitted[..h.taken], h.model.emitted[h.taken..], VoucherHas(w));
    VouchersPerStart(h.log, w);
  }

  // ---- several claims with one claim id -----------------------------------------------------------

  ghost predicate Reaches(keccak: Keccak, s: State, s': State) {
    exists run :: Feasible(keccak, s, run) && Exec(keccak, s, run) == s'
  }

  lemma ReachesItself(keccak: Keccak, s: State)
    ensures Reaches(keccak, s, s)
  {
    assert Feasible(keccak, s, []) && Exec(keccak, s, []) == s;
  }

  lemma {:induction false} ExecSnoc(keccak: Keccak, s: State, run: seq<Action>, a: Action)
    requires Feasible(keccak, s, run) && Allowed(Exec(keccak, s, run), a)
    ensures Feasible(keccak, s, run + [a])
    ensures Exec(keccak, s, run + [a]) == Next(keccak, Exec(keccak, s, run), a)
    decreases |run|
  {
    if run == [] {
      assert run + [a] == [a];
      assert [a][1..] == [];
    } else {
      ExecSnoc(keccak, Next(keccak, s, run[0]), run[1..], a);
      assert (run + [a])[1..] == run[1..] + [a];
    }
  }

  lemma OneMore(keccak: Keccak, s: State, s': State, a: Action)
    requires Reaches(keccak, s, s') && Allowed(s', a)
    ensures Reaches(keccak, s, Next(keccak, s', a))
  {
    var run :| Feasible(keccak, s, run) && Exec(keccak, s, run) == s';
    ExecSnoc(keccak, s, run, a);
  }

  lemma {:induction false} StepByStep(keccak: Keccak, s: State, s': State, run: seq<Engine.Action>)
    requires Reaches(keccak, s, s') && EngineRuns.GoOnly(run) && Engine.Feasible(s'.engine, run)
    ensures Reaches(keccak, s, s'.(engine := Engine.Exec(s'.engine, run)))
    decreases |run|
  {
    if run != [] {
      assert run[0] in run;
      OneMore(keccak, s, s', EngineStep(run[0].t));
      assert EngineRuns.GoOnly(run[1..]);
      StepByStep(keccak, s, s'.(engine := Engine.Next(s'.engine, run[0])), run[1..]);
    }
  }

  /** What the engine's goroutines can do alone they can do within the relayer. */
  lemma EngineGoes(keccak: Keccak, s: State, s': State, e: Engine.State)
    requires Reaches(keccak, s, s') && EngineRuns.Goes(s'.engine, e)
    ensures Reaches(keccak, s, s'.(engine := e))
  {
    var run :| EngineRuns.GoOnly(run) && Engine.Feasible(s'.engine, run) && Engine.Exec(s'.engine, run) == e;
    StepByStep(keccak, s, s', run);
  }

  /** Nothing is under way anywhere. */
  ghost predicate Resting(s: State) {
    && s.intentCh == [] && s.bidCh == [] && s.exec.pc.Idle?
    && Returned(s.engine, s.starter) && Returned(s.engine, s.bidder)
    && s.engine.locks == EngineRuns.Unlocked
    && s.engine.data.registry == map[] && s.engine.data.vouchers == [] && s.engine.data.capacity > 0
  }

  /** Nothing is under way but one auction, of intent i, whose goroutine t waits for its timer. */
  ghost predicate Waiting(s: State, i: Intent, t: nat, r: nat) {
    && s.intentCh == [] && s.bidCh == [] && s.exec.pc.Idle?
    && Returned(s.engine, s.starter) && Returned(s.engine, s.bidder)
    && s.engine.locks == EngineRuns.Unlocked
    && s.engine.data.registry == map[i.id := r] && s.engine.data.vouchers == [] && s.engine.data.capacity > 0
    && r < |s.engine.data.entries| && s.engine.data.entries[r].bids == []
    && t < |s.engine.threads| && s.engine.threads[t] == Engine.RunTimer(i, r)
  }

  /** The intent is accepted and its auction started. */
  lemma IntentGoes(keccak: Keccak, s: State, intent: Intent) returns (s': State, i: Intent)
    requires Resting(s)
    ensures i == intent.(serial := |s.accepted|)
    ensures Reaches(keccak, s, s') && s'.exec == s.exec
    ensures Waiting(s', i, |s.engine.threads| + 1, |s.engine.data.entries|)
  {
    i := intent.(serial := |s.accepted|);
    ReachesItself(keccak, s);
    OneMore(keccak, s, s, SubmitIntent(intent));
    var s1 := Next(keccak, s, SubmitIntent(intent));
    OneMore(keccak, s, s1, DispatchIntent);
    var s2 := Next(keccak, s1, DispatchIntent);
    var e := EngineRuns.StartGoes(s2.engine, |s.engine.threads|, i);
    EngineGoes(keccak, s, s2, e);
    s' := s2.(engine := e);
  }

  lemma BidDispatched(keccak: Keccak, s: State, bid: Bid) returns (s': State)
    requires s.bidCh == [] && Returned(s.engine, s.bidder)
    ensures Reaches(keccak, s, s')
    ensures s' == s.(bidder := Some(|s.engine.threads|),
                     engine := s.engine.(threads := s.engine.threads + [Engine.BidCheck(bid)]))
  {
    ReachesItself(keccak, s);
    OneMore(keccak, s, s, SubmitBid(bid));
    var s1 := Next(keccak, s, SubmitBid(bid));
    OneMore(keccak, s, s1, DispatchBid);
    s' := Next(keccak, s1, DispatchBid);
  }

  /** A bid for the auction that is waiting is appended. */
  lemma BidGoes(keccak: Keccak, s: State, i: Intent, bid: Bid, t: nat, r: nat) returns (s': State)
    requires Waiting(s, i, t, r) && Priced(bid) && bid.intentId == i.id
    ensures Reaches(keccak, s, s') && s'.exec == s.exec && s'.intentCh == [] && s'.bidCh == []
    ensures Returned(s'.engine, s'.starter) && Returned(s'.engine, s'.bidder)
    ensures s'.engine.locks == EngineRuns.Unlocked && t < |s'.engine.threads|
    ensures s'.engine.threads[t] == Engine.RunTimer(i, r)
    ensures s'.engine.data == EngineRuns.WithBid(s.engine.data, r, bid)
  {
    var n := |s.engine.threads|;
    var s1 := BidDispatched(keccak, s, bid);
    var e := EngineRuns.BidGoes(s1.engine, n, bid, r);
    EngineGoes(keccak, s, s1, e);
    s' := s1.(engine := e);
    assert e.threads == (s.engine.threads + [Engine.BidCheck(bid)])[n := Engine.Done(true)];
    assert e.threads == s.engine.threads + [Engine.Done(true)];
  }

  lemma AuctionGoes(e: Engine.State, i: Intent, bid: Bid, t: nat, r: nat) returns (e': Engine.State)
    requires e.locks == EngineRuns.Unlocked && t < |e.threads| && e.threads[t] == Engine.RunTimer(i, r)
    requires e.data.registry == map[i.id := r] && e.data.vouchers == [] && e.data.capacity > 0
    requires r < |e.data.entries| && e.data.entries[r].bids == [bid] && Priced(bid)
    ensures EngineRuns.Goes(e, e') && e'.locks == EngineRuns.Unlocked
    ensures e'.threads == e.threads[t := Engine.Done(true)]
    ensures e'.data.vouchers == [H.VoucherFor(i, bid)] && e'.data.registry == map[]
    ensures e'.data.capacity == e.data.capacity
  {
    EngineRuns.SoleBidWins(bid);
    var m := EngineRuns.SelectGoes(e, t, i, r);
    e' := EngineRuns.CloseGoes(m, t, i, r, bid);
    EngineRuns.GoesFurther(e, m, e');
    assert m.threads[t := Engine.Done(true)] == e.threads[t := Engine.Done(true)];
    assert map[i.id := r] - {i.id} == map[];
  }

  /** The voucher is received and claimed, and the node takes the claim. */
  lemma ClaimGoes(keccak: Keccak, s: State, v: Voucher) returns (s': State)
    requires s.exec.pc.Idle? && s.engine.data.vouchers == [v]
    ensures Reaches(keccak, s, s') && s'.exec.pc.Idle?
    ensures s'.exec.attempts ==
            s.exec.attempts + [Executor.ClaimFor(keccak, v, s.exec.counter, Executor.Submitted)]
    ensures s' == s.(engine := Engine.Next(s.engine, Engine.Take), exec := s'.exec)
  {
    ReachesItself(keccak, s);
    OneMore(keccak, s, s, ReceiveVoucher);
    var s1 := Next(keccak, s, ReceiveVoucher);
    OneMore(keccak, s, s1, ExecutorStep(Executor.Sign(true)));
    var s2 := Next(keccak, s1, ExecutorStep(Executor.Sign(true)));
    OneMore(keccak, s, s2, ExecutorStep(Executor.Tip(true)));
    var s3 := Next(keccak, s2, ExecutorStep(Executor.Tip(true)));
    OneMore(keccak, s, s3, ExecutorStep(Executor.Reserve));
    var s4 := Next(keccak, s3, ExecutorStep(Executor.Reserve));
    OneMore(keccak, s, s4, ExecutorStep(Executor.Claim(Executor.Submitted)));
    s' := Next(keccak, s4, ExecutorStep(Executor.Claim(Executor.Submitted)));
  }

  lemma ReachesFurther(keccak: Keccak, s: State, s': State, s'': State)
    requires Reaches(keccak, s, s') && Reaches(keccak, s', s'')
    ensures Reaches(keccak, s, s'')
  {
    var run :| Feasible(keccak, s', run) && Exec(keccak, s', run) == s'';
    RunsOn(keccak, s, s', run);
  }

  lemma {:induction false} RunsOn(keccak: Keccak, s: State, s': State, run: seq<Action>)
    requires Reaches(keccak, s, s') && Feasible(keccak, s', run)
    ensures Reaches(keccak, s, Exec(keccak, s', run))
    decreases |run|
  {
    if run != [] {
      OneMore(keccak, s, s', run[0]);
      RunsOn(keccak, s, Next(keccak, s', run[0]), run[1..]);
    }
  }

  lemma SettledBidGoes(keccak: Keccak, s: State, i: Intent, bid: Bid, t: nat, r: nat) returns (s': State)
    requires Waiting(s, i, t, r) && Priced(bid) && bid.intentId == i.id
    ensures Reaches(keccak, s, s') && s'.exec == s.exec && s'.intentCh == [] && s'.bidCh == []
    ensures Returned(s'.engine, s'.starter) && Returned(s'.engine, s'.bidder)
    ensures s'.engine.locks == EngineRuns.Unlocked && s'.engine.data.registry == map[]
    ensures s'.engine.data.vouchers == [H.VoucherFor(i, bid)] && s'.engine.data.capacity > 0
  {
    var s1 := BidGoes(keccak, s, i, bid, t, r);
    assert s1.engine.data.entries[r].bids == [bid];
    var e := AuctionGoes(s1.engine, i, bid, t, r);
    EngineGoes(keccak, s, s1, e);
    s' := s1.(engine := e);
  }

  /** One intent, one bid, one claim: from rest to rest. */
  lemma Round(keccak: Keccak, s: State, intent: Intent, bid: Bid) returns (s': State)
    requires Resting(s) && Priced(bid) && bid.intentId == intent.id
    ensures Reaches(keccak, s, s') && Resting(s')
    ensures |s'.exec.attempts| == |s.exec.attempts| + 1 && s.exec.attempts <= s'.exec.attempts
    ensures s'.exec.attempts[|s.exec.attempts|].id == EncodeId(intent.id)
    ensures s'.exec.attempts[|s.exec.attempts|].reply.Submitted?
  {
    var t, r := |s.engine.threads| + 1, |s.engine.data.entries|;
    var s1, i := IntentGoes(keccak, s, intent);
    var s2 := SettledBidGoes(keccak, s1, i, bid, t, r);
    var s3 := ClaimGoes(keccak, s2, H.VoucherFor(i, bid));
    ReachesFurther(keccak, s, s1, s2);
    ReachesFurther(keccak, s, s2, s3);
    s' := s3;
  }

  /**
   Claims with one claim id can be several: two intents whose ids encode alike, be it one id used again after
   its auction or two ids that collide, can both be auctioned, claimed and submitted.
   */
  lemma TwoClaimsOneWord(keccak: Keccak, counter: NonceQueue.Uint64, a: Intent, b: Intent, bidA: Bid, bidB: Bid)
    returns (run: seq<Action>)
    requires EncodeId(a.id) == EncodeId(b.id)
    requires Priced(bidA) && bidA.intentId == a.id && Priced(bidB) && bidB.intentId == b.id
    ensures Feasible(keccak, Init(counter), run)
    ensures var claims := Exec(keccak, Init(counter), run).exec.attempts;
            && |claims| == 2 && Count(claims, ClaimHas(EncodeId(a.id))) == 2
            && claims[0].reply.Submitted? && claims[1].reply.Submitted?
  {
    var s := Init(counter);
    var s1 := Round(keccak, s, a, bidA);
    var s2 := Round(keccak, s1, b, bidB);
    ReachesFurther(keccak, s, s1, s2);
    run :| Feasible(keccak, s, run) && Exec(keccak, s, run) == s2;
    BothCount(s2.exec.attempts, ClaimHas(EncodeId(a.id)));
  }

  lemma BothCount<T>(xs: seq<T>, p: T -> bool)
    requires |xs| == 2 && p(xs[0]) && p(xs[1])
    ensures Count(xs, p) == 2
  {
    CountHead(xs, p);
    CountHead(xs[1..], p);
  }
}
