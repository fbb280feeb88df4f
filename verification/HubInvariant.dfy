/** What every reachable state of the hub satisfies. */
module HubInvariant {
  import opened Core
  import opened RwMutex
  import opened HubMachine

  predicate Writes(pc: Pc) {
    || pc.JoinHeld? || pc.JoinDone? || pc.DropHeld? || pc.DropDeleted? || pc.DropLeft?
    || pc.StopHeld? || pc.StopClosed? || pc.StopEmpty?
  }

  predicate Reads(pc: Pc) {
    pc.CastPass?
  }

  /** The lock is held by exactly the goroutines inside the sections it guards. */
  ghost predicate LockAgrees(l: RwMutex, threads: seq<Pc>) {
    && (forall t | 0 <= t < |threads| :: Writes(threads[t]) <==> l.writer == Some(t))
    && (forall t | 0 <= t < |threads| :: Reads(threads[t]) <==> t in l.readers)
    && (l.writer.Some? ==> l.writer.value < |threads| && l.readers == {})
    && (forall t | t in l.readers :: t < |threads|)
  }

  /** How often a broadcast put its message into a channel. */
  function Copies(sent: seq<Parcel>, cast: nat): nat {
    if sent == [] then 0
    else Copies(sent[..|sent| - 1], cast) + if sent[|sent| - 1].cast == cast then 1 else 0
  }

  /** The message of a broadcast that has begun. */
  function MessageOf(pc: Pc): Option<Message> {
    match pc
    case CastPass(msg, _, _, _) => Some(msg)
    case CastEvict(msg, _, _) => Some(msg)
    case CastDone(msg, _) => Some(msg)
    case DropWait(Cast(msg, _, _), _) => Some(msg)
    case DropHeld(Cast(msg, _, _), _) => Some(msg)
    case DropDeleted(Cast(msg, _, _), _) => Some(msg)
    case DropLeft(Cast(msg, _, _), _) => Some(msg)
    case _ => None
  }

  /** The client was registered, is no longer, and its channel is closed. */
  ghost predicate Gone(d: Data, c: nat) {
    c < |d.channels| && d.channels[c].joined && c !in d.clients && d.channels[c].closed
  }

  /** Within capacity, first in first out, and holding only messages of broadcasts that have begun. */
  ghost predicate QueueOk(ch: Channel, threads: seq<Pc>) {
    && |ch.queue| <= SEND_BUFFER
    && ch.received <= |ch.sent|
    && ch.queue == ch.sent[ch.received..]
    && (forall i | 0 <= i < |ch.sent| ::
          ch.sent[i].cast < |threads| && MessageOf(threads[ch.sent[i].cast]) == Some(ch.sent[i].msg))
  }

  /** The goroutine inside the write lock is the one that closes or deletes c. */
  ghost predicate Between(l: RwMutex, threads: seq<Pc>, c: nat, stopping: bool) {
    && l.writer.Some? && l.writer.value < |threads|
    && var pc := threads[l.writer.value];
       if stopping then pc == StopClosed(c) else pc.DropDeleted? && pc.c == c
  }

  /**
   The life of a channel: open until its client is registered and as long as it is, closed afterwards. Only
   the holder of the write lock sees the moment in between.
   */
  ghost predicate LifeOk(d: Data, l: RwMutex, threads: seq<Pc>, c: nat)
    requires c < |d.channels|
  {
    var ch := d.channels[c];
    && (!ch.joined ==> !ch.closed && c !in d.clients && ch.sent == [])
    && (ch.joined && c in d.clients && ch.closed ==> Between(l, threads, c, true))
    && (ch.joined && c !in d.clients && !ch.closed ==> Between(l, threads, c, false))
  }

  /** Where the goroutine is fits the client it works on. */
  ghost predicate ClientFits(d: Data, t: nat, pc: Pc) {
    match pc
    case JoinWait(c) => c < |d.channels| && !d.channels[c].joined && d.channels[c].joiner == t
    case JoinHeld(c) => c < |d.channels| && !d.channels[c].joined && d.channels[c].joiner == t
    case DropWait(_, c) => c < |d.channels| && d.channels[c].joined
    case DropHeld(_, c) => c < |d.channels| && d.channels[c].joined
    case DropDeleted(_, c) => c < |d.channels| && d.channels[c].joined && c !in d.clients && !d.channels[c].closed
    case DropLeft(_, c) => Gone(d, c)
    case StopClosed(c) => c in d.clients && c < |d.channels| && d.channels[c].closed
    case StopEmpty => d.clients == {}
    case _ => true
  }

  /** Where broadcast t stands with client c: not served yet, or served once, or not served and gone. */
  ghost predicate Account(d: Data, t: nat, c: nat, waiting: bool) {
    && c < |d.channels| && d.channels[c].joined
    && var n := Copies(d.channels[c].sent, t);
       if waiting then n == 0 else n == 1 || (n == 0 && Gone(d, c))
  }

  ghost predicate Accounts(d: Data, t: nat, audience: set<nat>, todo: set<nat>, slow: seq<nat>) {
    && (forall c | c in audience :: Account(d, t, c, c in todo || c in slow))
    && (forall c | c in slow :: c in audience && c !in todo)
    && todo <= audience
  }

  ghost predicate CastFits(d: Data, t: nat, pc: Pc) {
    match pc
    case CastPass(_, audience, todo, slow) => audience == d.clients && Accounts(d, t, audience, todo, slow)
    case CastEvict(_, audience, slow) => Accounts(d, t, audience, {}, slow)
    case CastDone(_, audience) => Accounts(d, t, audience, {}, [])
    case DropWait(Cast(_, audience, rest), c) => Accounts(d, t, audience, {}, [c] + rest)
    case DropHeld(Cast(_, audience, rest), c) => Accounts(d, t, audience, {}, [c] + rest)
    case DropDeleted(Cast(_, audience, rest), c) => Accounts(d, t, audience, {}, [c] + rest)
    case DropLeft(Cast(_, audience, rest), c) => Accounts(d, t, audience, {}, [c] + rest)
    case _ => true
  }

  ghost predicate ChannelsOk(s: State) {
    && (forall c | c in s.data.clients :: c < |s.data.channels|)
    && (forall c | 0 <= c < |s.data.channels| ::
          QueueOk(s.data.channels[c], s.threads) && LifeOk(s.data, s.mutex, s.threads, c))
  }

  ghost predicate PcsOk(s: State) {
    forall t | 0 <= t < |s.threads| :: ClientFits(s.data, t, s.threads[t]) && CastFits(s.data, t, s.threads[t])
  }

  ghost predicate Inv(s: State) {
    && !s.data.panicked
    && LockAgrees(s.mutex, s.threads)
    && ChannelsOk(s)
    && PcsOk(s)
  }

  // ---- locks --------------------------------------------------------------------------------------

  lemma MovesFit(d: Data, pc: Pc, pick: nat)
    requires Ready(d, pc, pick)
    ensures var m, pc' := MoveOf(d, pc), PcAfter(d, pc, pick);
            && Writes(pc') == (m.TakeWrite? || (Writes(pc) && !m.DropWrite?))
            && Reads(pc') == (m.TakeRead? || (Reads(pc) && !m.DropRead?))
            && (m.DropWrite? ==> Writes(pc)) && (m.DropRead? ==> Reads(pc))
            && (MessageOf(pc).Some? ==> MessageOf(pc') == MessageOf(pc))
  {
  }

  lemma LockKept(s: State, t: nat, pick: nat)
    requires LockAgrees(s.mutex, s.threads) && Allowed(s, Go(t, pick))
    ensures LockAgrees(Next(s, Go(t, pick)).mutex, Next(s, Go(t, pick)).threads)
  {
    MovesFit(s.data, s.threads[t], pick);
  }

  // ---- what a step does to the channels -----------------------------------------------------------

  lemma CopiesOfSend(sent: seq<Parcel>, p: Parcel, cast: nat)
    ensures Copies(sent + [p], cast) == Copies(sent, cast) + if p.cast == cast then 1 else 0
  {
    assert (sent + [p])[..|sent|] == sent;
  }

  lemma {:induction false} NoCopiesOfNewcomer(sent: seq<Parcel>, cast: nat)
    requires forall i | 0 <= i < |sent| :: sent[i].cast != cast
    ensures Copies(sent, cast) == 0
  {
    if sent != [] {
      NoCopiesOfNewcomer(sent[..|sent| - 1], cast);
    }
  }

  /** A reader sees every registered client open. */
  lemma ReaderSeesOpenChannels(s: State, t: nat, c: nat)
    requires Inv(s) && t < |s.threads| && Reads(s.threads[t]) && c in s.data.clients
    ensures c < |s.data.channels| && s.data.channels[c].joined && !s.data.channels[c].closed
  {
    assert t in s.mutex.readers;
    assert LifeOk(s.data, s.mutex, s.threads, c);
  }

  /** No step sends on a closed channel or closes one twice. */
  lemma NoPanic(s: State, t: nat, pick: nat)
    requires Inv(s) && Allowed(s, Go(t, pick))
    ensures !DataAfter(s.data, t, s.threads[t], pick).panicked
  {
    var pc := s.threads[t];
    assert ClientFits(s.data, t, pc) && CastFits(s.data, t, pc);
    if pc.CastPass? && pc.todo != {} {
      ReaderSeesOpenChannels(s, t, pick);
    } else if pc.StopHeld? && s.data.clients != {} {
      assert LifeOk(s.data, s.mutex, s.threads, pick);
    }
  }

  /** What any step of goroutine t may do to a channel, as the others see it. */
  ghost predicate ChannelEvolves(ch: Channel, ch': Channel, t: nat) {
    && (ch.joined ==> ch'.joined)
    && (ch.closed ==> ch'.closed)
    && (forall u: nat | u != t :: Copies(ch'.sent, u) == Copies(ch.sent, u))
  }

  ghost predicate Evolves(d: Data, d': Data, t: nat) {
    && |d'.channels| == |d.channels|
    && (forall c | 0 <= c < |d.channels| :: ChannelEvolves(d.channels[c], d'.channels[c], t))
    && (forall c: nat | Gone(d, c) :: c !in d'.clients)
  }

  lemma SendEvolves(ch: Channel, p: Parcel)
    ensures ChannelEvolves(ch, ch.(queue := ch.queue + [p], sent := ch.sent + [p]), p.cast)
  {
    forall u: nat | u != p.cast
      ensures Copies(ch.sent + [p], u) == Copies(ch.sent, u)
    {
      CopiesOfSend(ch.sent, p, u);
    }
  }

  lemma StepEvolves(s: State, t: nat, pick: nat)
    requires Inv(s) && Allowed(s, Go(t, pick))
    ensures Evolves(s.data, Next(s, Go(t, pick)).data, t)
  {
    var pc := s.threads[t];
    assert ClientFits(s.data, t, pc);
    if pc.CastPass? && pc.todo != {} {
      SendEvolves(s.data.channels[pick], Parcel(pc.msg, t));
    }
  }

  lemma OthersAccountsKept(d: Data, d': Data, t: nat, u: nat, audience: set<nat>, todo: set<nat>, slow: seq<nat>)
    requires Evolves(d, d', t) && u != t && Accounts(d, u, audience, todo, slow)
    ensures Accounts(d', u, audience, todo, slow)
  {
    forall c | c in audience
      ensures Account(d', u, c, c in todo || c in slow)
    {
      assert Account(d, u, c, c in todo || c in slow);
    }
  }

  lemma OthersCastKept(s: State, t: nat, pick: nat, u: nat)
    requires Inv(s) && Allowed(s, Go(t, pick)) && u < |s.threads| && u != t
    ensures CastFits(Next(s, Go(t, pick)).data, u, s.threads[u])
  {
    var d, d', pc := s.data, Next(s, Go(t, pick)).data, s.threads[u];
    assert CastFits(d, u, pc);
    StepEvolves(s, t, pick);
    match pc
    case CastPass(_, audience, todo, slow) =>
      assert u in s.mutex.readers;
      assert !Writes(s.threads[t]);
      OthersAccountsKept(d, d', t, u, audience, todo, slow);
    case CastEvict(_, audience, slow) => OthersAccountsKept(d, d', t, u, audience, {}, slow);
    case CastDone(_, audience) => OthersAccountsKept(d, d', t, u, audience, {}, []);
    case DropWait(Cast(_, audience, rest), c) => OthersAccountsKept(d, d', t, u, audience, {}, [c] + rest);
    case DropHeld(Cast(_, audience, rest), c) => OthersAccountsKept(d, d', t, u, audience, {}, [c] + rest);
    case DropDeleted(Cast(_, audience, rest), c) => OthersAccountsKept(d, d', t, u, audience, {}, [c] + rest);
    case DropLeft(Cast(_, audience, rest), c) => OthersAccountsKept(d, d', t, u, audience, {}, [c] + rest);
    case _ =>
  }

  lemma OthersClientKept(s: State, t: nat, pick: nat, u: nat)
    requires Inv(s) && Allowed(s, Go(t, pick)) && u < |s.threads| && u != t
    ensures ClientFits(Next(s, Go(t, pick)).data, u, s.threads[u])
  {
    assert ClientFits(s.data, t, s.threads[t]) && ClientFits(s.data, u, s.threads[u]);
    assert !(Writes(s.threads[t]) && Writes(s.threads[u]));
    StepEvolves(s, t, pick);
  }

  lemma OwnClientKept(s: State, t: nat, pick: nat)
    requires Inv(s) && Allowed(s, Go(t, pick))
    ensures ClientFits(Next(s, Go(t, pick)).data, t, Next(s, Go(t, pick)).threads[t])
  {
    var d, pc := s.data, s.threads[t];
    assert ClientFits(d, t, pc) && CastFits(d, t, pc);
    match pc
    case DropHeld(_, c) => assert LifeOk(d, s.mutex, s.threads, c);
    case StopHeld => if d.clients != {} { assert LifeOk(d, s.mutex, s.threads, pick); }
    case CastEvict(_, audience, slow) => if slow != [] { assert slow[0] in slow; }
    case _ =>
  }

  /** A step that is not a send leaves the accounts of its own broadcast alone too. */
  lemma QuietStepEvolves(s: State, t: nat, pick: nat, other: nat)
    requires Inv(s) && Allowed(s, Go(t, pick))
    requires s.threads[t].CastPass? ==> s.threads[t].todo == {}
    ensures Evolves(s.data, Next(s, Go(t, pick)).data, other)
  {
    assert ClientFits(s.data, t, s.threads[t]);
  }

  lemma CastBegins(s: State, t: nat)
    requires Inv(s) && t < |s.threads| && s.threads[t].CastWait?
    ensures Accounts(s.data, t, s.data.clients, s.data.clients, [])
  {
    forall c | c in s.data.clients
      ensures Account(s.data, t, c, true)
    {
      assert QueueOk(s.data.channels[c], s.threads) && LifeOk(s.data, s.mutex, s.threads, c);
      NoCopiesOfNewcomer(s.data.channels[c].sent, t);
    }
  }

  lemma CastServes(s: State, t: nat, pick: nat)
    requires Inv(s) && Allowed(s, Go(t, pick)) && s.threads[t].CastPass? && s.threads[t].todo != {}
    ensures CastFits(Next(s, Go(t, pick)).data, t, Next(s, Go(t, pick)).threads[t])
  {
    var d, pc, s' := s.data, s.threads[t], Next(s, Go(t, pick));
    assert CastFits(d, t, pc);
    ReaderSeesOpenChannels(s, t, pick);
    CopiesOfSend(d.channels[pick].sent, Parcel(pc.msg, t), t);
    var pc' := s'.threads[t];
    forall c | c in pc.audience
      ensures Account(s'.data, t, c, c in pc'.todo || c in pc'.slow)
    {
      assert Account(d, t, c, c in pc.todo || c in pc.slow);
    }
  }

  lemma OwnCastKept(s: State, t: nat, pick: nat)
    requires Inv(s) && Allowed(s, Go(t, pick))
    ensures CastFits(Next(s, Go(t, pick)).data, t, Next(s, Go(t, pick)).threads[t])
  {
    var d, pc, d' := s.data, s.threads[t], Next(s, Go(t, pick)).data;
    assert ClientFits(d, t, pc) && CastFits(d, t, pc);
    if pc.CastWait? {
      CastBegins(s, t);
    } else if pc.CastPass? && pc.todo != {} {
      CastServes(s, t, pick);
    } else if pc.CastEvict? && pc.slow != [] {
      assert [pc.slow[0]] + pc.slow[1..] == pc.slow;
    } else if (pc.DropWait? || pc.DropHeld? || pc.DropDeleted? || pc.DropLeft?) && pc.job.Cast? {
      QuietStepEvolves(s, t, pick, t + 1);
      OthersAccountsKept(d, d', t + 1, t, pc.job.audience, {}, [pc.c] + pc.job.rest);
      if pc.DropLeft? {
        EvictedIsAccountedFor(d', t, pc.job.audience, pc.c, pc.job.rest);
      }
    }
  }

  lemma EvictedIsAccountedFor(d: Data, t: nat, audience: set<nat>, c: nat, rest: seq<nat>)
    requires Accounts(d, t, audience, {}, [c] + rest) && Gone(d, c)
    ensures Accounts(d, t, audience, {}, rest)
  {
    forall b | b in audience
      ensures Account(d, t, b, b in rest)
    {
      assert Account(d, t, b, b in [c] + rest);
    }
    forall b | b in rest
      ensures b in audience
    {
      assert b in [c] + rest;
    }
  }

  /** Broadcasts that have begun stay begun, with the same message. */
  lemma QueueSurvives(ch: Channel, threads: seq<Pc>, t: nat, pc': Pc)
    requires QueueOk(ch, threads) && t < |threads|
    requires MessageOf(threads[t]).Some? ==> MessageOf(pc') == MessageOf(threads[t])
    ensures QueueOk(ch, threads[t := pc'])
  {
  }

  lemma QueueGrows(ch: Channel, threads: seq<Pc>, p: Parcel)
    requires QueueOk(ch, threads) && |ch.queue| < SEND_BUFFER
    requires p.cast < |threads| && MessageOf(threads[p.cast]) == Some(p.msg)
    ensures QueueOk(ch.(queue := ch.queue + [p], sent := ch.sent + [p]), threads)
  {
    assert (ch.sent + [p])[ch.received..] == ch.sent[ch.received..] + [p];
  }

  lemma QueueKept(s: State, t: nat, pick: nat, c: nat)
    requires Inv(s) && Allowed(s, Go(t, pick)) && c < |s.data.channels|
    ensures c < |Next(s, Go(t, pick)).data.channels|
    ensures QueueOk(Next(s, Go(t, pick)).data.channels[c], Next(s, Go(t, pick)).threads)
  {
    var ch, pc := s.data.channels[c], s.threads[t];
    var threads' := s.threads[t := PcAfter(s.data, pc, pick)];
    MovesFit(s.data, pc, pick);
    QueueSurvives(ch, s.threads, t, PcAfter(s.data, pc, pick));
    if pc.CastPass? && pc.todo != {} && pick == c && |ch.queue| < SEND_BUFFER {
      QueueGrows(ch, threads', Parcel(pc.msg, t));
    }
  }

  lemma LifeKept(s: State, t: nat, pick: nat, c: nat)
    requires Inv(s) && Allowed(s, Go(t, pick)) && c < |s.data.channels|
    ensures c < |Next(s, Go(t, pick)).data.channels|
    ensures LifeOk(Next(s, Go(t, pick)).data, Next(s, Go(t, pick)).mutex, Next(s, Go(t, pick)).threads, c)
  {
    var pc := s.threads[t];
    assert LifeOk(s.data, s.mutex, s.threads, c) && ClientFits(s.data, t, pc) && CastFits(s.data, t, pc);
    assert Writes(pc) <==> s.mutex.writer == Some(t);
  }

  lemma StepKeepsInv(s: State, t: nat, pick: nat)
    requires Inv(s) && Allowed(s, Go(t, pick))
    ensures Inv(Next(s, Go(t, pick)))
  {
    var s' := Next(s, Go(t, pick));
    NoPanic(s, t, pick);
    LockKept(s, t, pick);
    forall c | 0 <= c < |s'.data.channels|
      ensures QueueOk(s'.data.channels[c], s'.threads) && LifeOk(s'.data, s'.mutex, s'.threads, c)
    {
      StepEvolves(s, t, pick);
      QueueKept(s, t, pick, c);
      LifeKept(s, t, pick, c);
    }
    ClientsStayKnown(s, t, pick);
    assert PcsOk(s') by {
      AllPcsKept(s, t, pick);
    }
  }

  lemma ClientsStayKnown(s: State, t: nat, pick: nat)
    requires Inv(s) && Allowed(s, Go(t, pick))
    ensures forall c | c in Next(s, Go(t, pick)).data.clients :: c < |Next(s, Go(t, pick)).data.channels|
  {
  }

  lemma AllPcsKept(s: State, t: nat, pick: nat)
    requires Inv(s) && Allowed(s, Go(t, pick))
    ensures PcsOk(Next(s, Go(t, pick)))
  {
    var s' := Next(s, Go(t, pick));
    forall u | 0 <= u < |s'.threads|
      ensures ClientFits(s'.data, u, s'.threads[u]) && CastFits(s'.data, u, s'.threads[u])
    {
      if u == t {
        OwnClientKept(s, t, pick);
        OwnCastKept(s, t, pick);
      } else {
        OthersClientKept(s, t, pick, u);
        OthersCastKept(s, t, pick, u);
      }
    }
  }

  // ---- calls and the write pumps ------------------------------------------------------------------

  lemma NewcomerKeepsLock(l: RwMutex, threads: seq<Pc>, pc: Pc)
    requires LockAgrees(l, threads) && !Writes(pc) && !Reads(pc)
    ensures LockAgrees(l, threads + [pc])
  {
  }

  lemma SpawnKeepsInv(s: State, pc: Pc)
    requires Inv(s) && !Writes(pc) && !Reads(pc)
    requires ClientFits(s.data, |s.threads|, pc) && CastFits(s.data, |s.threads|, pc)
    ensures Inv(Spawn(s, pc))
  {
    var s' := Spawn(s, pc);
    NewcomerKeepsLock(s.mutex, s.threads, pc);
    forall c | 0 <= c < |s'.data.channels|
      ensures QueueOk(s'.data.channels[c], s'.threads) && LifeOk(s'.data, s'.mutex, s'.threads, c)
    {
      assert QueueOk(s.data.channels[c], s.threads) && LifeOk(s.data, s.mutex, s.threads, c);
    }
  }

  lemma NewChannelKeepsInv(s: State)
    requires Inv(s)
    ensures Inv(s.(data := s.data.(channels := s.data.channels + [NewChannel(|s.threads|)])))
  {
    var s' := s.(data := s.data.(channels := s.data.channels + [NewChannel(|s.threads|)]));
    forall c | 0 <= c < |s'.data.channels|
      ensures QueueOk(s'.data.channels[c], s'.threads) && LifeOk(s'.data, s'.mutex, s'.threads, c)
    {
      if c < |s.data.channels| {
        assert QueueOk(s.data.channels[c], s.threads) && LifeOk(s.data, s.mutex, s.threads, c);
      }
    }
    DataGrowthKeepsPcs(s, s'.data);
  }

  lemma WriteOutKeepsInv(s: State, c: nat)
    requires Inv(s) && Allowed(s, WriteOut(c))
    ensures Inv(Next(s, WriteOut(c)))
  {
    var s' := Next(s, WriteOut(c));
    forall b | 0 <= b < |s'.data.channels|
      ensures QueueOk(s'.data.channels[b], s'.threads) && LifeOk(s'.data, s'.mutex, s'.threads, b)
    {
      assert QueueOk(s.data.channels[b], s.threads) && LifeOk(s.data, s.mutex, s.threads, b);
    }
    DataGrowthKeepsPcs(s, s'.data);
  }

  /** Goroutines do not notice new channels, nor messages being written out. */
  lemma DataGrowthKeepsPcs(s: State, d': Data)
    requires PcsOk(s) && d'.clients == s.data.clients && |s.data.channels| <= |d'.channels|
    requires forall c | 0 <= c < |s.data.channels| ::
               && d'.channels[c].joined == s.data.channels[c].joined
               && d'.channels[c].closed == s.data.channels[c].closed
               && d'.channels[c].joiner == s.data.channels[c].joiner && d'.channels[c].sent == s.data.channels[c].sent
    ensures PcsOk(s.(data := d'))
  {
    forall t | 0 <= t < |s.threads|
      ensures ClientFits(d', t, s.threads[t]) && CastFits(d', t, s.threads[t])
    {
      assert ClientFits(s.data, t, s.threads[t]) && CastFits(s.data, t, s.threads[t]);
      assert forall c | 0 <= c < |s.data.channels| :: Gone(s.data, c) <==> Gone(d', c);
      assert forall c: nat, waiting | Account(s.data, t, c, waiting) :: Account(d', t, c, waiting);
      assert forall a, todo, slow | Accounts(s.data, t, a, todo, slow) :: Accounts(d', t, a, todo, slow);
    }
  }

  lemma ActionKeepsInv(s: State, a: Action)
    requires Inv(s) && Allowed(s, a)
    ensures Inv(Next(s, a))
  {
    match a
    case Connect =>
      NewChannelKeepsInv(s);
      var channels := s.data.channels + [NewChannel(|s.threads|)];
      SpawnKeepsInv(s.(data := s.data.(channels := channels)), JoinWait(|s.data.channels|));
    case Broadcast(msg) => SpawnKeepsInv(s, CastWait(msg));
    case PumpExit(c) => SpawnKeepsInv(s, DropWait(Pump, c));
    case Shutdown => SpawnKeepsInv(s, StopWait);
    case WriteOut(c) => WriteOutKeepsInv(s, c);
    case Go(t, pick) => StepKeepsInv(s, t, pick);
  }

  lemma {:induction false} RunKeepsInv(s: State, run: seq<Action>)
    requires Inv(s) && Feasible(s, run)
    ensures Inv(Exec(s, run))
    decreases |run|
  {
    if run != [] {
      ActionKeepsInv(s, run[0]);
      RunKeepsInv(Next(s, run[0]), run[1..]);
    }
  }

  // ---- theorems -----------------------------------------------------------------------------------

  /**
   Channel lifecycle: in every interleaving no send hits a closed channel and no channel is closed twice.
   Whenever nobody is inside the write lock, a registered client's channel is open and a removed one's closed.
   */
  lemma ChannelLifecycle(run: seq<Action>)
    requires Feasible(Init, run)
    ensures var s := Exec(Init, run);
            && !s.data.panicked
            && (s.mutex.writer.None? ==>
                  forall c | 0 <= c < |s.data.channels| && s.data.channels[c].joined ::
                    c in s.data.clients <==> !s.data.channels[c].closed)
            && (forall c | c in s.data.clients :: c < |s.data.channels| && s.data.channels[c].joined)
            && (forall c | 0 <= c < |s.data.channels| && s.data.channels[c].closed :: s.data.channels[c].joined)
  {
    RunKeepsInv(Init, run);
    var s := Exec(Init, run);
    forall c | 0 <= c < |s.data.channels|
      ensures LifeOk(s.data, s.mutex, s.threads, c)
    {
    }
  }

  /** When the shutdown leaves the lock, every client registered so far is unregistered and its channel closed. */
  lemma ShutdownClosesEveryChannel(run: seq<Action>, t: nat, c: nat)
    requires Feasible(Init, run) && t < |Exec(Init, run).threads| && Exec(Init, run).threads[t].StopEmpty?
    requires c < |Exec(Init, run).data.channels| && Exec(Init, run).data.channels[c].joined
    ensures Gone(Exec(Init, run).data, c)
  {
    RunKeepsInv(Init, run);
    var s := Exec(Init, run);
    assert ClientFits(s.data, t, s.threads[t]);
    assert LifeOk(s.data, s.mutex, s.threads, c);
  }

  /** No queue exceeds its capacity, and what was sent is what was received followed by what is queued. */
  lemma QueuesAreBoundedAndFifo(run: seq<Action>, c: nat)
    requires Feasible(Init, run) && c < |Exec(Init, run).data.channels|
    ensures var ch := Exec(Init, run).data.channels[c];
            && |ch.queue| <= 256
            && ch.received <= |ch.sent|
            && ch.sent[..ch.received] + ch.queue == ch.sent
  {
    RunKeepsInv(Init, run);
    var s := Exec(Init, run);
    assert QueueOk(s.data.channels[c], s.threads);
  }

  /** While a broadcast passes over the map, its audience is the whole map: nobody comes or goes. */
  lemma AudienceIsTheMap(run: seq<Action>, t: nat)
    requires Feasible(Init, run) && t < |Exec(Init, run).threads| && Exec(Init, run).threads[t].CastPass?
    ensures Exec(Init, run).threads[t].audience == Exec(Init, run).data.clients
  {
    RunKeepsInv(Init, run);
    var s := Exec(Init, run);
    assert CastFits(s.data, t, s.threads[t]);
  }

  /**
   Broadcast completeness: when a broadcast is over, every client of its audience was sent this message
   exactly once, or was sent nothing and is unregistered with its channel closed.
   */
  lemma BroadcastIsComplete(run: seq<Action>, t: nat, c: nat)
    requires Feasible(Init, run) && t < |Exec(Init, run).threads|
    requires Exec(Init, run).threads[t].CastDone? && c in Exec(Init, run).threads[t].audience
    ensures var s := Exec(Init, run);
            && c < |s.data.channels|
            && (forall i | 0 <= i < |s.data.channels[c].sent| && s.data.channels[c].sent[i].cast == t ::
                  s.data.channels[c].sent[i].msg == s.threads[t].msg)
            && (Copies(s.data.channels[c].sent, t) == 1 || (Copies(s.data.channels[c].sent, t) == 0 && Gone(s.data, c)))
  {
    RunKeepsInv(Init, run);
    var s := Exec(Init, run);
    assert CastFits(s.data, t, s.threads[t]);
    assert Account(s.data, t, c, false);
    assert QueueOk(s.data.channels[c], s.threads);
  }
}
