/** The atomic nonce counter (internal/txmanager/nonce_queue.go). */
module NonceQueue {
  import opened Core

  const MODULUS: int := 0x1_0000_0000_0000_0000

  type Uint64 = n: int | 0 <= n < MODULUS

  /** Addition and subtraction of one wrap at 2^64. */
  function Inc(n: Uint64): Uint64 {
    if n + 1 == MODULUS then 0 else n + 1
  }

  function Dec(n: Uint64): Uint64 {
    if n == 0 then MODULUS - 1 else n - 1
  }

  class NonceQueue {
    var current: Uint64

    /** NewNonceQueue once the node has answered; without an answer no queue exists. */
    constructor (pending: Uint64)
      ensures current == pending
    {
      current := pending;
    }

    /** Hands out the counter's value and moves it on, wrapping at 2^64. */
    method Next() returns (nonce: Uint64)
      modifies this
      ensures nonce == old(current)
      ensures current == Inc(old(current))
    {
      current := Inc(current);
      nonce := Dec(current);
    }

    /** Overwrites the counter with the node's answer; a failed call leaves it alone. */
    method Resync(reply: Option<Uint64>) returns (ok: bool)
      modifies this
      ensures ok <==> reply.Some?
      ensures current == if ok then reply.value else old(current)
    {
      match reply {
        case None => ok := false;
        case Some(n) =>
          current := n;
          ok := true;
      }
    }
  }

  /** The i-th nonce handed out after the counter was set to seed. */
  function NonceAt(seed: Uint64, i: nat): Uint64 {
    if i == 0 then seed else Inc(NonceAt(seed, i - 1))
  }

  lemma {:induction false} NonceIsModular(seed: Uint64, i: nat)
    ensures NonceAt(seed, i) == (seed + i) % MODULUS
  {
    if i > 0 {
      NonceIsModular(seed, i - 1);
      OneMoreTurns(seed + i - 1);
    }
  }

  lemma OneMoreTurns(n: nat)
    ensures Inc(n % MODULUS) == (n + 1) % MODULUS
  {
    var q := n / MODULUS;
    assert n == MODULUS * q + n % MODULUS;
    if n % MODULUS + 1 == MODULUS {
      assert n + 1 == MODULUS * (q + 1);
    }
  }

  /** The same nonce comes up twice only a full turn of the counter apart. */
  lemma SameNonceMeansFullTurn(seed: Uint64, i: nat, j: nat)
    requires i < j && NonceAt(seed, i) == NonceAt(seed, j)
    ensures j - i >= MODULUS
  {
    NonceIsModular(seed, i);
    NonceIsModular(seed, j);
    var a, b := seed + i, seed + j;
    assert a == MODULUS * (a / MODULUS) + a % MODULUS;
    assert b == MODULUS * (b / MODULUS) + b % MODULUS;
    assert b - a == MODULUS * (b / MODULUS - a / MODULUS);
  }

  // ---- concurrent callers -------------------------------------------------------------------------

  /** One call of Next: not started, past its atomic add, or returned. */
  datatype Call = Asked | Added(post: Uint64) | Returned(nonce: Uint64)

  /** The counter and all calls ever made; `order` records in which order they did their adds. */
  datatype Calls = Calls(current: Uint64, calls: seq<Call>, order: seq<nat>)

  datatype CallStep = Ask | Add(call: nat) | Return(call: nat)

  predicate CallAllowed(s: Calls, a: CallStep) {
    match a
    case Ask => true
    case Add(c) => c < |s.calls| && s.calls[c].Asked?
    case Return(c) => c < |s.calls| && s.calls[c].Added?
  }

  function CallNext(s: Calls, a: CallStep): Calls
    requires CallAllowed(s, a)
  {
    match a
    case Ask => s.(calls := s.calls + [Asked])
    case Add(c) =>
      var post := Inc(s.current);
      Calls(post, s.calls[c := Added(post)], s.order + [c])
    case Return(c) => s.(calls := s.calls[c := Returned(Dec(s.calls[c].post))])
  }

  predicate CallsFeasible(s: Calls, run: seq<CallStep>)
    decreases |run|
  {
    run != [] ==> CallAllowed(s, run[0]) && CallsFeasible(CallNext(s, run[0]), run[1..])
  }

  function CallsExec(s: Calls, run: seq<CallStep>): Calls
    requires CallsFeasible(s, run)
    decreases |run|
  {
    if run == [] then s else CallsExec(CallNext(s, run[0]), run[1..])
  }

  /** The call got, or is bound to get, this nonce. */
  ghost predicate Gets(call: Call, nonce: Uint64) {
    match call
    case Asked => false
    case Added(post) => Dec(post) == nonce
    case Returned(n) => n == nonce
  }

  ghost predicate CallsInv(seed: Uint64, s: Calls) {
    && s.current == NonceAt(seed, |s.order|)
    && (forall p | 0 <= p < |s.order| :: s.order[p] < |s.calls| && Gets(s.calls[s.order[p]], NonceAt(seed, p)))
    && (forall c | 0 <= c < |s.calls| && !s.calls[c].Asked? :: c in s.order)
    && (forall p, q | 0 <= p < q < |s.order| :: s.order[p] != s.order[q])
  }

  lemma AddKept(seed: Uint64, s: Calls, c: nat)
    requires CallsInv(seed, s) && CallAllowed(s, Add(c))
    ensures CallsInv(seed, CallNext(s, Add(c)))
  {
    assert Dec(Inc(s.current)) == s.current;
    assert c !in s.order;
  }

  lemma ReturnKept(seed: Uint64, s: Calls, c: nat)
    requires CallsInv(seed, s) && CallAllowed(s, Return(c))
    ensures CallsInv(seed, CallNext(s, Return(c)))
  {
  }

  lemma CallsInvKept(seed: Uint64, s: Calls, a: CallStep)
    requires CallsInv(seed, s) && CallAllowed(s, a)
    ensures CallsInv(seed, CallNext(s, a))
  {
    match a
    case Ask =>
    case Add(c) => AddKept(seed, s, c);
    case Return(c) => ReturnKept(seed, s, c);
  }

  lemma {:induction false} CallsRunKept(seed: Uint64, s: Calls, run: seq<CallStep>)
    requires CallsInv(seed, s) && CallsFeasible(s, run)
    ensures CallsInv(seed, CallsExec(s, run))
    decreases |run|
  {
    if run != [] {
      CallsInvKept(seed, s, run[0]);
      CallsRunKept(seed, CallNext(s, run[0]), run[1..]);
    }
  }

  lemma ReturnedNoncesDiffer(seed: Uint64, s: Calls, c: nat, d: nat)
    requires CallsInv(seed, s) && |s.order| <= MODULUS
    requires c < d < |s.calls| && s.calls[c].Returned? && s.calls[d].Returned?
    ensures s.calls[c].nonce != s.calls[d].nonce
  {
    var p :| 0 <= p < |s.order| && s.order[p] == c;
    var q :| 0 <= q < |s.order| && s.order[q] == d;
    if NonceAt(seed, p) == NonceAt(seed, q) {
      SameNonceMeansFullTurn(seed, if p < q then p else q, if p < q then q else p);
    }
  }

  /**
   Sequence shape: from a store of `seed` on, whatever the interleaving, the k calls that did their add get
   seed, seed + 1, ..., seed + k - 1 modulo 2^64 (NonceIsModular), one each, in the order of their adds; so
   up to 2^64 calls get pairwise distinct nonces.
   */
  lemma NextCallsGetConsecutiveNonces(seed: Uint64, run: seq<CallStep>)
    requires CallsFeasible(Calls(seed, [], []), run)
    ensures var s := CallsExec(Calls(seed, [], []), run);
            && s.current == NonceAt(seed, |s.order|)
            && (forall p | 0 <= p < |s.order| ::
                  s.order[p] < |s.calls| && Gets(s.calls[s.order[p]], NonceAt(seed, p)))
            && (forall c | 0 <= c < |s.calls| && !s.calls[c].Asked? :: c in s.order)
            && (forall p, q | 0 <= p < q < |s.order| :: s.order[p] != s.order[q])
    ensures var s := CallsExec(Calls(seed, [], []), run);
            |s.order| <= MODULUS ==>
              forall c, d | 0 <= c < d < |s.calls| && s.calls[c].Returned? && s.calls[d].Returned? ::
                s.calls[c].nonce != s.calls[d].nonce
  {
    CallsRunKept(seed, Calls(seed, [], []), run);
    var s := CallsExec(Calls(seed, [], []), run);
    if |s.order| <= MODULUS {
      forall c, d | 0 <= c < d < |s.calls| && s.calls[c].Returned? && s.calls[d].Returned?
        ensures s.calls[c].nonce != s.calls[d].nonce
      {
        ReturnedNoncesDiffer(seed, s, c, d);
      }
    }
  }

  /** Past 2^64 calls the counter has come round and the first nonce is handed out again. */
  lemma NoncesRepeatAfterAFullTurn(seed: Uint64, i: nat)
    ensures NonceAt(seed, i + MODULUS) == NonceAt(seed, i)
  {
    NonceIsModular(seed, i);
    NonceIsModular(seed, i + MODULUS);
  }
}
