/** The settlement executor (internal/txmanager/executor.go): the code of one execution, and its steps. */
module Executor {
  import opened Core
  import opened NonceQueue
  import opened ClaimEncoding
  import opened Signer

  /** How the node answered a claim; `isNonceError` decides between the two kinds of error. */
  datatype TxReply = Submitted | NonceError | OtherError

  /** A ClaimFunds call as it reached the contract binding, and the answer. */
  datatype Attempt = Attempt(
    voucher: Voucher,
    id: Word,
    solver: Address,
    signed: Word,
    nonce: Uint64,
    reply: TxReply)

  /** The call made for a voucher: the encoded id, the winner, and the digest the vault signed for both. */
  function ClaimFor(keccak: Keccak, v: Voucher, nonce: Uint64, reply: TxReply): Attempt {
    var id := EncodeId(v.intent.id);
    Attempt(v, id, v.winningSolver, ClaimDigest(keccak, id, v.winningSolver), nonce, reply)
  }

  // ---- the code -----------------------------------------------------------------------------------

  /** What the vault and the node answer during one execution, as far as it gets. */
  datatype Replies = Replies(sign: bool, tip: bool, claim: TxReply, resync: Option<Uint64>)

  predicate Succeeds(r: Replies) {
    r.sign && r.tip && r.claim.Submitted?
  }

  /** The claims an execution makes: one, with the counter's value, iff signing and the tip lookup succeed. */
  function ClaimsOf(keccak: Keccak, counter: Uint64, v: Voucher, r: Replies): seq<Attempt> {
    if r.sign && r.tip then [ClaimFor(keccak, v, counter, r.claim)] else []
  }

  /** The counter moves on iff a claim is made, and is reset only by an answered resync after a nonce error. */
  function CounterAfter(counter: Uint64, r: Replies): Uint64 {
    if !(r.sign && r.tip) then counter
    else if r.claim.NonceError? && r.resync.Some? then r.resync.value
    else Inc(counter)
  }

  class ExecutorState {
    const keccak: Keccak
    const nonceQueue: NonceQueue
    var attempts: seq<Attempt>

    constructor (keccak: Keccak, nonceQueue: NonceQueue)
      ensures this.keccak == keccak && this.nonceQueue == nonceQueue && attempts == []
    {
      this.keccak := keccak;
      this.nonceQueue := nonceQueue;
      attempts := [];
    }

    /** One execution: sign, get the tip, reserve a nonce, claim, and resync after a nonce error. */
    method Execute(v: Voucher, r: Replies) returns (ok: bool)
      modifies this, nonceQueue
      ensures ok <==> Succeeds(r)
      ensures attempts == old(attempts) + ClaimsOf(keccak, old(nonceQueue.current), v, r)
      ensures nonceQueue.current == CounterAfter(old(nonceQueue.current), r)
    {
      var id := EncodeId(v.intent.id);
      var digest := ClaimDigest(keccak, id, v.winningSolver);
      if !r.sign {
        return false;
      }
      if !r.tip {
        return false;
      }
      var nonce := nonceQueue.Next();
      attempts := attempts + [Attempt(v, id, v.winningSolver, digest, nonce, r.claim)];
      if r.claim != Submitted {
        if r.claim == NonceError {
          var resynced := nonceQueue.Resync(r.resync);
        }
        return false;
      }
      return true;
    }
  }

  // ---- the steps ----------------------------------------------------------------------------------

  /** Where the executor goroutine is. */
  datatype Pc =
    | Idle
    | Signing(v: Voucher)
    | Tipping(v: Voucher)
    | Reserving(v: Voucher)
    | Claiming(v: Voucher, nonce: Uint64)
    | Resyncing(v: Voucher)
    | Failing(v: Voucher)

  datatype State = State(counter: Uint64, pc: Pc, attempts: seq<Attempt>)

  datatype Action =
    | Receive(v: Voucher)
    | Sign(ok: bool)
    | Tip(ok: bool)
    | Reserve
    | Claim(reply: TxReply)
    | Resync(answer: Option<Uint64>)
    | Report

  predicate Allowed(s: State, a: Action) {
    match a
    case Receive(_) => s.pc.Idle?
    case Sign(_) => s.pc.Signing?
    case Tip(_) => s.pc.Tipping?
    case Reserve => s.pc.Reserving?
    case Claim(_) => s.pc.Claiming?
    case Resync(_) => s.pc.Resyncing?
    case Report => s.pc.Failing?
  }

  function Next(keccak: Keccak, s: State, a: Action): State
    requires Allowed(s, a)
  {
    match a
    case Receive(v) => s.(pc := Signing(v))
    case Sign(ok) => s.(pc := if ok then Tipping(s.pc.v) else Failing(s.pc.v))
    case Tip(ok) => s.(pc := if ok then Reserving(s.pc.v) else Failing(s.pc.v))
    case Reserve => s.(counter := Inc(s.counter), pc := Claiming(s.pc.v, s.counter))
    case Claim(reply) =>
      State(s.counter,
            match reply {
              case Submitted => Idle
              case NonceError => Resyncing(s.pc.v)
              case OtherError => Failing(s.pc.v)
            },
            s.attempts + [ClaimFor(keccak, s.pc.v, s.pc.nonce, reply)])
    case Resync(answer) =>
      s.(counter := if answer.Some? then answer.value else s.counter, pc := Failing(s.pc.v))
    case Report => s.(pc := Idle)
  }

  predicate Feasible(keccak: Keccak, s: State, run: seq<Action>)
    decreases |run|
  {
    run != [] ==> Allowed(s, run[0]) && Feasible(keccak, Next(keccak, s, run[0]), run[1..])
  }

  function Exec(keccak: Keccak, s: State, run: seq<Action>): State
    requires Feasible(keccak, s, run)
    decreases |run|
  {
    if run == [] then s else Exec(keccak, Next(keccak, s, run[0]), run[1..])
  }

  /** Nonces reserved so far: one per claim made, and one more while a claim is about to be made. */
  function Reserved(s: State): nat {
    |s.attempts| + if s.pc.Claiming? then 1 else 0
  }

  /**
   Between two stores to the counter it advances, modulo 2^64, by exactly the nonces reserved for claims;
   an execution that fails to sign or to get a tip consumes none.
   */
  lemma {:induction false} CounterCountsClaims(keccak: Keccak, s: State, run: seq<Action>)
    requires Feasible(keccak, s, run)
    requires forall a | a in run :: !(a.Resync? && a.answer.Some?)
    ensures Reserved(s) <= Reserved(Exec(keccak, s, run))
    ensures Exec(keccak, s, run).counter == NonceAt(s.counter, Reserved(Exec(keccak, s, run)) - Reserved(s))
    decreases |run|
  {
    if run != [] {
      assert run[0] in run;
      var s' := Next(keccak, s, run[0]);
      CounterCountsClaims(keccak, s', run[1..]);
      if run[0].Reserve? {
        NonceAfterInc(s.counter, Reserved(Exec(keccak, s, run)) - Reserved(s'));
      }
    }
  }

  lemma {:induction false} NonceAfterInc(seed: Uint64, i: nat)
    ensures NonceAt(Inc(seed), i) == NonceAt(seed, i + 1)
  {
    if i > 0 {
      NonceAfterInc(seed, i - 1);
    }
  }

  /** The steps an execution takes, given the answers. */
  function Script(v: Voucher, r: Replies): seq<Action> {
    if !r.sign then [Receive(v), Sign(false)]
    else if !r.tip then [Receive(v), Sign(true), Tip(false)]
    else
      [Receive(v), Sign(true), Tip(true), Reserve, Claim(r.claim)]
      + (if r.claim.NonceError? then [Resync(r.resync)] else [])
  }

  lemma ExecOne(keccak: Keccak, s: State, a: Action, rest: seq<Action>)
    requires Allowed(s, a) && Feasible(keccak, Next(keccak, s, a), rest)
    ensures Feasible(keccak, s, [a] + rest)
    ensures Exec(keccak, s, [a] + rest) == Exec(keccak, Next(keccak, s, a), rest)
  {
    assert ([a] + rest)[1..] == rest;
  }

  /** The steps and the code agree: running the script has the effect Execute promises. */
  lemma ScriptIsExecute(keccak: Keccak, s: State, v: Voucher, r: Replies)
    requires s.pc.Idle?
    ensures Feasible(keccak, s, Script(v, r))
    ensures Exec(keccak, s, Script(v, r)) ==
            State(CounterAfter(s.counter, r), if Succeeds(r) then Idle else Failing(v),
                  s.attempts + ClaimsOf(keccak, s.counter, v, r))
  {
    var s1 := s.(pc := Signing(v));
    var s2 := s.(pc := Tipping(v));
    var s3 := s.(pc := Reserving(v));
    var s4 := s.(counter := Inc(s.counter), pc := Claiming(v, s.counter));
    var tail: seq<Action> := [];
    if r.sign && r.tip {
      tail := if r.claim.NonceError? then [Resync(r.resync)] else [];
      if r.claim.NonceError? {
        ExecOne(keccak, Next(keccak, s4, Claim(r.claim)), Resync(r.resync), []);
      }
      ExecOne(keccak, s4, Claim(r.claim), tail);
      tail := [Claim(r.claim)] + tail;
      ExecOne(keccak, s3, Reserve, tail);
      tail := [Reserve] + tail;
    }
    if r.sign {
      ExecOne(keccak, s2, Tip(r.tip), tail);
      tail := [Tip(r.tip)] + tail;
    }
    ExecOne(keccak, s1, Sign(r.sign), tail);
    tail := [Sign(r.sign)] + tail;
    ExecOne(keccak, s, Receive(v), tail);
    assert [Receive(v)] + tail == Script(v, r);
  }
}
