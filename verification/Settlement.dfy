/** The executor together with an Ethereum node: what happens to the relayer's nonces. */
module Settlement {
  import opened Core
  import opened NonceQueue
  import opened Signer
  import Executor

  /**
   The account as the node sees it: nonces below `base` are mined, those in `accepted` wait in its pool.
   Accepting a nonce above a gap only queues it.
   */
  datatype Node = Node(base: nat, accepted: set<nat>)

  /** The nonce can no longer be taken: mined or waiting (section 6 of the Ethereum Yellow Paper). */
  predicate Used(node: Node, n: nat) {
    n < node.base || n in node.accepted
  }

  /** eth_getTransactionCount("pending"): the least nonce not used. */
  ghost predicate IsPending(node: Node, p: nat) {
    !Used(node, p) && forall n: nat | n < p :: Used(node, n)
  }

  lemma {:induction false} PendingExists(node: Node) returns (p: nat)
    ensures IsPending(node, p)
    decreases |node.accepted|
  {
    if node.base in node.accepted {
      p := PendingExists(Node(node.base + 1, node.accepted - {node.base}));
      forall n: nat
        ensures Used(Node(node.base + 1, node.accepted - {node.base}), n) <==> Used(node, n)
      {
        MiningUsesNothing(node, n);
      }
    } else {
      p := node.base;
    }
  }

  /** `kept` says of every claim whether the node took its nonce; `pending` what was pending when it was made. */
  datatype System = System(exec: Executor.State, node: Node, kept: seq<bool>, pending: seq<nat>)

  /**
   A step of the executor, with what the node does if it is a claim; a block that mines the next nonce; or
   a transaction sent with the relayer's key by someone else.
   */
  datatype Action =
    | Own(a: Executor.Action)
    | Claimed(reply: Executor.TxReply, taken: bool, was: nat)
    | Mine
    | Outside(n: nat)

  /**
   The node's side of the contract: it takes only unused nonces, answers with a nonce error only for used
   ones, never forgets a nonce, and reports its pending nonce truthfully. Another error leaves open whether
   it took the nonce.
   */
  ghost predicate Allowed(s: System, a: Action) {
    match a
    case Own(e) =>
      && Executor.Allowed(s.exec, e) && !e.Claim?
      && (e.Resync? && e.answer.Some? ==> IsPending(s.node, e.answer.value))
    case Claimed(reply, taken, was) =>
      && s.exec.pc.Claiming?
      && IsPending(s.node, was)
      && (taken ==> !Used(s.node, s.exec.pc.nonce))
      && (reply.Submitted? ==> taken)
      && (reply.NonceError? ==> Used(s.node, s.exec.pc.nonce))
    case Mine => s.node.base in s.node.accepted
    case Outside(n) => !Used(s.node, n)
  }

  function Take(node: Node, n: nat): Node {
    node.(accepted := node.accepted + {n})
  }

  ghost function Next(keccak: Keccak, s: System, a: Action): System
    requires Allowed(s, a)
  {
    match a
    case Own(e) => s.(exec := Executor.Next(keccak, s.exec, e))
    case Claimed(reply, taken, was) =>
      System(Executor.Next(keccak, s.exec, Executor.Claim(reply)),
             if taken then Take(s.node, s.exec.pc.nonce) else s.node,
             s.kept + [taken],
             s.pending + [was])
    case Mine => s.(node := Node(s.node.base + 1, s.node.accepted - {s.node.base}))
    case Outside(n) => s.(node := Take(s.node, n))
  }

  ghost predicate Feasible(keccak: Keccak, s: System, run: seq<Action>)
    decreases |run|
  {
    run != [] ==> Allowed(s, run[0]) && Feasible(keccak, Next(keccak, s, run[0]), run[1..])
  }

  ghost function Exec(keccak: Keccak, s: System, run: seq<Action>): System
    requires Feasible(keccak, s, run)
    decreases |run|
  {
    if run == [] then s else Exec(keccak, Next(keccak, s, run[0]), run[1..])
  }

  /** Mining changes which nonces wait, not which are used. */
  lemma MiningUsesNothing(node: Node, n: nat)
    requires node.base in node.accepted
    ensures Used(Node(node.base + 1, node.accepted - {node.base}), n) <==> Used(node, n)
  {
  }

  // ---- the closed system --------------------------------------------------------------------------

  /** Only the relayer sends. */
  predicate Closed(run: seq<Action>) {
    forall a | a in run :: !a.Outside?
  }

  function Reserves(run: seq<Action>): nat {
    if run == [] then 0 else (if run[0] == Own(Executor.Reserve) then 1 else 0) + Reserves(run[1..])
  }

  /**
   Exactly the nonces below the seed and those of the claims the node took are used; the i-th claim carried
   seed + i, none was answered with a nonce error, and the counter is past all of them.
   */
  ghost predicate ClosedInv(seed: Uint64, s: System) {
    var k := |s.exec.attempts|;
    && |s.kept| == k
    && (forall n: nat :: Used(s.node, n) <==> n < seed || (n < seed + k && s.kept[n - seed]))
    && (forall i | 0 <= i < k :: s.exec.attempts[i].nonce == seed + i && !s.exec.attempts[i].reply.NonceError?)
    && (forall i | 0 <= i < k && s.exec.attempts[i].reply.Submitted? :: s.kept[i])
    && (s.exec.pc.Claiming? ==> s.exec.pc.nonce == seed + k)
    && s.exec.counter == seed + Executor.Reserved(s.exec)
    && !s.exec.pc.Resyncing?
  }

  lemma ClosedInvKept(keccak: Keccak, seed: Uint64, s: System, a: Action)
    requires ClosedInv(seed, s) && Allowed(s, a) && !a.Outside?
    requires a == Own(Executor.Reserve) ==> s.exec.counter + 1 < MODULUS
    ensures ClosedInv(seed, Next(keccak, s, a))
  {
    var s' := Next(keccak, s, a);
    forall n: nat
      ensures Used(s'.node, n) <==> Used(s.node, n) || (a.Claimed? && a.taken && n == s.exec.pc.nonce)
    {
      if a.Mine? {
        MiningUsesNothing(s.node, n);
      }
    }
    if a.Claimed? {
      assert s'.kept == s.kept + [a.taken];
    }
  }

  lemma {:induction false} ClosedRun(keccak: Keccak, seed: Uint64, s: System, run: seq<Action>)
    requires ClosedInv(seed, s) && Feasible(keccak, s, run) && Closed(run)
    requires s.exec.counter + Reserves(run) < MODULUS
    ensures ClosedInv(seed, Exec(keccak, s, run))
    decreases |run|
  {
    if run != [] {
      assert run[0] in run;
      ClosedInvKept(keccak, seed, s, run[0]);
      ClosedRun(keccak, seed, Next(keccak, s, run[0]), run[1..]);
    }
  }

  /** The relayer as started: the counter holds the pending nonce, and nothing waits above it. */
  ghost predicate Fresh(s: System) {
    && s.exec.pc.Idle? && s.exec.attempts == [] && s.kept == []
    && IsPending(s.node, s.exec.counter)
    && (forall n | n in s.node.accepted :: n < s.exec.counter)
  }

  /**
   The closed-system theorem. As long as the relayer is the only sender, until the counter wraps: the
   counter is above every used nonce, no claim ever gets a nonce error, so Resync is never called.
   */
  lemma CounterStaysAhead(keccak: Keccak, s: System, run: seq<Action>)
    requires Fresh(s) && Feasible(keccak, s, run) && Closed(run)
    requires s.exec.counter + Reserves(run) < MODULUS
    ensures var s' := Exec(keccak, s, run);
            && (forall n: nat | Used(s'.node, n) :: n < s'.exec.counter)
            && (forall i | 0 <= i < |s'.exec.attempts| ::
                  && s'.exec.attempts[i].nonce == s.exec.counter + i
                  && !s'.exec.attempts[i].reply.NonceError?)
            && !s'.exec.pc.Resyncing?
  {
    ClosedRun(keccak, s.exec.counter, s, run);
  }

  /**
   The gap never closes. Once the node has not taken a claim's nonce, that nonce stays pending for good,
   and every later claim goes above it, where the node can only queue it: settlement has stopped.
   */
  lemma FirstLostNonceStaysPending(keccak: Keccak, s: System, run: seq<Action>, i: nat)
    requires Fresh(s) && Feasible(keccak, s, run) && Closed(run)
    requires s.exec.counter + Reserves(run) < MODULUS
    requires i < |Exec(keccak, s, run).kept| && !Exec(keccak, s, run).kept[i]
    requires forall j | 0 <= j < i :: Exec(keccak, s, run).kept[j]
    ensures var s' := Exec(keccak, s, run);
            && i < |s'.exec.attempts|
            && IsPending(s'.node, s'.exec.attempts[i].nonce)
            && (forall j | i < j < |s'.exec.attempts| :: s'.exec.attempts[j].nonce > s'.exec.attempts[i].nonce)
            && s'.exec.counter > s'.exec.attempts[i].nonce
  {
    ClosedRun(keccak, s.exec.counter, s, run);
  }

  /** The nonce of the claim being made or to be made next. */
  function NextNonce(e: Executor.State): Uint64 {
    if e.pc.Claiming? then e.pc.nonce else e.counter
  }

  /**
   The exact condition for settlement to go on: the next claim carries the node's pending nonce iff the node
   has taken every claim so far.
   */
  lemma NextClaimIsPendingIffNothingWasLost(keccak: Keccak, s: System, run: seq<Action>)
    requires Fresh(s) && Feasible(keccak, s, run) && Closed(run)
    requires s.exec.counter + Reserves(run) < MODULUS
    ensures var s' := Exec(keccak, s, run);
            && NextNonce(s'.exec) == s.exec.counter + |s'.exec.attempts|
            && (IsPending(s'.node, NextNonce(s'.exec)) <==> forall j | 0 <= j < |s'.kept| :: s'.kept[j])
  {
    var s' := Exec(keccak, s, run);
    ClosedRun(keccak, s.exec.counter, s, run);
    if j :| 0 <= j < |s'.kept| && !s'.kept[j] {
      assert !Used(s'.node, s.exec.counter + j);
    }
  }

  /** The first claim of any voucher, answered with an error by a node that does not take it. */
  function LosingRun(v: Voucher, pending: nat): seq<Action> {
    [Own(Executor.Receive(v)), Own(Executor.Sign(true)), Own(Executor.Tip(true)), Own(Executor.Reserve),
     Claimed(Executor.OtherError, false, pending)]
  }

  /** A loss can happen, whatever the voucher and the counter: one error before the pool is enough. */
  lemma LossIsPossible(keccak: Keccak, s: System, v: Voucher)
    requires Fresh(s) && s.exec.counter + 1 < MODULUS
    ensures var run := LosingRun(v, s.exec.counter);
            && Closed(run) && s.exec.counter + Reserves(run) < MODULUS
            && Feasible(keccak, s, run)
            && Exec(keccak, s, run).kept == [false]
            && IsPending(Exec(keccak, s, run).node, s.exec.counter)
            && !IsPending(Exec(keccak, s, run).node, NextNonce(Exec(keccak, s, run).exec))
  {
    var run := LosingRun(v, s.exec.counter);
    var s1 := Next(keccak, s, run[0]);
    var s2 := Next(keccak, s1, run[1]);
    var s3 := Next(keccak, s2, run[2]);
    var s4 := Next(keccak, s3, run[3]);
    var s5 := Next(keccak, s4, run[4]);
    ExecStep(keccak, s4, run[4..]);
    ExecStep(keccak, s3, run[3..]);
    ExecStep(keccak, s2, run[2..]);
    ExecStep(keccak, s1, run[1..]);
    ExecStep(keccak, s, run);
    OneReserve(v, s.exec.counter);
    NextClaimIsPendingIffNothingWasLost(keccak, s, run);
    assert !s5.kept[0];
  }

  lemma OneReserve(v: Voucher, pending: nat)
    ensures Reserves(LosingRun(v, pending)) == 1
  {
    var run := LosingRun(v, pending);
    assert Reserves(run[4..]) == 0;
    assert Reserves(run[3..]) == 1;
    assert Reserves(run[2..]) == 1;
    assert Reserves(run[1..]) == 1;
  }

  lemma ExecStep(keccak: Keccak, s: System, run: seq<Action>)
    requires run != [] && Allowed(s, run[0]) && Feasible(keccak, Next(keccak, s, run[0]), run[1..])
    ensures Feasible(keccak, s, run) && Exec(keccak, s, run) == Exec(keccak, Next(keccak, s, run[0]), run[1..])
  {
  }

  // ---- recovery -----------------------------------------------------------------------------------

  /** Nobody else sends, and the resync call succeeds whenever it is made. */
  predicate Quiet(run: seq<Action>) {
    forall a | a in run :: !a.Outside? && !(a.Own? && a.a.Resync? && a.a.answer.None?)
  }

  /** Since claim number `from`: right after a nonce error the executor holds the pending nonce and claims with it. */
  ghost predicate RecoveryInv(from: nat, s: System) {
    var xs := s.exec.attempts;
    && from <= |xs| == |s.pending|
    && (forall i | from < i < |xs| && xs[i - 1].reply.NonceError? ::
          xs[i].nonce == s.pending[i] && !xs[i].reply.NonceError?)
    && (from < |xs| && xs[|xs| - 1].reply.NonceError? ==>
          match s.exec.pc
          case Resyncing(_) => true
          case Claiming(_, n) => IsPending(s.node, n)
          case _ => IsPending(s.node, s.exec.counter))
    && (s.exec.pc.Resyncing? && from < |xs| ==> xs[|xs| - 1].reply.NonceError?)
  }

  lemma RecoveryInvKept(keccak: Keccak, from: nat, s: System, a: Action)
    requires RecoveryInv(from, s) && Allowed(s, a) && Quiet([a])
    ensures RecoveryInv(from, Next(keccak, s, a))
  {
    assert a in [a];
    if a.Mine? {
      forall n: nat
        ensures Used(Next(keccak, s, a).node, n) <==> Used(s.node, n)
      {
        MiningUsesNothing(s.node, n);
      }
    }
  }

  lemma {:induction false} QuietRun(keccak: Keccak, from: nat, s: System, run: seq<Action>)
    requires RecoveryInv(from, s) && Feasible(keccak, s, run) && Quiet(run)
    ensures RecoveryInv(from, Exec(keccak, s, run))
    decreases |run|
  {
    if run != [] {
      assert run[0] in run;
      RecoveryInvKept(keccak, from, s, run[0]);
      QuietRun(keccak, from, Next(keccak, s, run[0]), run[1..]);
    }
  }

  /** The first claim of a quiet period; a nonce error that is just being answered by a resync belongs to it. */
  function QuietFrom(e: Executor.State): nat {
    if e.pc.Resyncing? && e.attempts != [] && e.attempts[|e.attempts| - 1].reply.NonceError?
    then |e.attempts| - 1 else |e.attempts|
  }

  /**
   Recovery, from any counter and any pool: once nobody else sends and resync calls succeed, the claim
   after a nonce error carries exactly the node's pending nonce, so no two claims in a row get a nonce error.
   */
  lemma RecoversAfterOneNonceError(keccak: Keccak, s: System, run: seq<Action>)
    requires |s.pending| == |s.exec.attempts| && Feasible(keccak, s, run) && Quiet(run)
    ensures var s' := Exec(keccak, s, run);
            && |s'.pending| == |s'.exec.attempts|
            && forall i | QuietFrom(s.exec) < i < |s'.exec.attempts| && s'.exec.attempts[i - 1].reply.NonceError? ::
                 s'.exec.attempts[i].nonce == s'.pending[i] && !s'.exec.attempts[i].reply.NonceError?
  {
    QuietRun(keccak, QuietFrom(s.exec), s, run);
  }
}
