/** What each call to the hub achieves: from the action that made it to the state its goroutine ends in. */
module HubCalls {
  import opened RwMutex
  import opened HubMachine
  import opened HubInvariant

  /** Which actions start a goroutine. */
  predicate Spawns(a: Action) {
    a.Connect? || a.Broadcast? || a.PumpExit? || a.Shutdown?
  }

  /** How many goroutines, and how many channels, the actions of a run create. */
  function Goroutines(run: seq<Action>): nat {
    if run == [] then 0 else Goroutines(run[..|run| - 1]) + if Spawns(run[|run| - 1]) then 1 else 0
  }

  function Connections(run: seq<Action>): nat {
    if run == [] then 0 else Connections(run[..|run| - 1]) + if run[|run| - 1].Connect? then 1 else 0
  }

  // ---- splitting a run ----------------------------------------------------------------------------

  lemma {:induction false} ExecSplit(s: State, run: seq<Action>, k: nat)
    requires Feasible(s, run) && k <= |run|
    ensures Feasible(s, run[..k]) && Feasible(Exec(s, run[..k]), run[k..])
    ensures Exec(s, run) == Exec(Exec(s, run[..k]), run[k..])
    decreases k
  {
    if k == 0 {
      assert run[..0] == [] && run[0..] == run;
    } else {
      ExecSplit(Next(s, run[0]), run[1..], k - 1);
      assert run[..k][0] == run[0] && run[..k][1..] == run[1..][..k - 1];
      assert run[k..] == run[1..][k - 1..];
    }
  }

  lemma {:induction false} Numbers(run: seq<Action>)
    requires Feasible(Init, run)
    ensures |Exec(Init, run).threads| == Goroutines(run) && |Exec(Init, run).data.channels| == Connections(run)
    decreases |run|
  {
    if run != [] {
      var n := |run| - 1;
      ExecSplit(Init, run, n);
      Numbers(run[..n]);
      assert run[n..] == [run[n]];
      assert [run[n]][1..] == [];
      StepNumbers(Exec(Init, run[..n]), run[n]);
    }
  }

  lemma StepNumbers(s: State, a: Action)
    requires Allowed(s, a)
    ensures |Next(s, a).threads| == |s.threads| + if Spawns(a) then 1 else 0
    ensures |Next(s, a).data.channels| == |s.data.channels| + if a.Connect? then 1 else 0
  {
  }

  // ---- what a goroutine is doing ------------------------------------------------------------------

  /** At pc, a broadcast of this message is under way or over. */
  predicate Casting(msg: Message, pc: Pc) {
    match pc
    case CastWait(m) => m == msg
    case CastPass(m, _, _, _) => m == msg
    case CastEvict(m, _, _) => m == msg
    case CastDone(m, _) => m == msg
    case DropWait(job, _) => job.Cast? && job.msg == msg
    case DropHeld(job, _) => job.Cast? && job.msg == msg
    case DropDeleted(job, _) => job.Cast? && job.msg == msg
    case DropLeft(job, _) => job.Cast? && job.msg == msg
    case _ => false
  }

  /** At pc, client c is being registered, or has been. */
  ghost predicate Joining(d: Data, c: nat, pc: Pc) {
    && c < |d.channels|
    && match pc
       case JoinWait(b) => b == c
       case JoinHeld(b) => b == c
       case JoinDone(b) => b == c && d.channels[c].joined
       case Finished => d.channels[c].joined
       case _ => false
  }

  /** At pc, client c is being removed for its read pump, or has been. */
  ghost predicate Leaving(d: Data, c: nat, pc: Pc) {
    match pc
    case DropWait(job, b) => b == c && job.Pump?
    case DropHeld(job, b) => b == c && job.Pump?
    case DropDeleted(job, b) => b == c && job.Pump?
    case DropLeft(job, b) => b == c && job.Pump?
    case Finished => Gone(d, c)
    case _ => false
  }

  /** At pc, the hub is being shut down, or has been. */
  predicate Stopping(pc: Pc) {
    pc.StopWait? || pc.StopHeld? || pc.StopClosed? || pc.StopEmpty? || pc.Finished?
  }

  /** The goroutine at pc does what the action that created it asks for; c is the client of a connection. */
  ghost predicate Serves(d: Data, a: Action, c: nat, pc: Pc) {
    match a
    case Connect => Joining(d, c, pc)
    case Broadcast(msg) => Casting(msg, pc)
    case PumpExit(b) => Leaving(d, b, pc)
    case Shutdown => Stopping(pc)
    case _ => false
  }

  /** What has been joined stays joined, and what is gone stays gone. */
  ghost predicate Lasts(d: Data, d': Data) {
    && |d.channels| <= |d'.channels|
    && (forall c | 0 <= c < |d.channels| && d.channels[c].joined :: d'.channels[c].joined)
    && (forall c: nat | Gone(d, c) :: Gone(d', c))
  }

  lemma ActionLasts(s: State, a: Action)
    requires Inv(s) && Allowed(s, a)
    ensures Lasts(s.data, Next(s, a).data)
  {
    if a.Go? {
      StepEvolves(s, a.t, a.pick);
    }
  }

  lemma OwnStepServes(s: State, t: nat, pick: nat, a: Action, c: nat)
    requires Inv(s) && Allowed(s, Go(t, pick)) && Serves(s.data, a, c, s.threads[t])
    ensures Serves(Next(s, Go(t, pick)).data, a, c, Next(s, Go(t, pick)).threads[t])
  {
    assert ClientFits(s.data, t, s.threads[t]);
    ActionLasts(s, Go(t, pick));
  }

  lemma OthersServe(d: Data, d': Data, a: Action, c: nat, pc: Pc)
    requires Lasts(d, d') && Serves(d, a, c, pc)
    ensures Serves(d', a, c, pc)
  {
  }

  lemma ActionServes(s: State, next: Action, t: nat, a: Action, c: nat)
    requires Inv(s) && Allowed(s, next) && t < |s.threads| && Serves(s.data, a, c, s.threads[t])
    ensures t < |Next(s, next).threads| && Serves(Next(s, next).data, a, c, Next(s, next).threads[t])
  {
    if next.Go? && next.t == t {
      OwnStepServes(s, t, next.pick, a, c);
    } else {
      ActionLasts(s, next);
      OthersServe(s.data, Next(s, next).data, a, c, s.threads[t]);
    }
  }

  lemma {:induction false} RunServes(s: State, run: seq<Action>, t: nat, a: Action, c: nat)
    requires Inv(s) && Feasible(s, run) && t < |s.threads| && Serves(s.data, a, c, s.threads[t])
    ensures t < |Exec(s, run).threads| && Serves(Exec(s, run).data, a, c, Exec(s, run).threads[t])
    decreases |run|
  {
    if run != [] {
      ActionServes(s, run[0], t, a, c);
      ActionKeepsInv(s, run[0]);
      RunServes(Next(s, run[0]), run[1..], t, a, c);
    }
  }

  /** The goroutine of action k, and for a connection its channel, are numbered by the actions before it. */
  lemma CallServes(run: seq<Action>, k: nat)
    requires Feasible(Init, run) && k < |run| && Spawns(run[k])
    ensures var s, t, c := Exec(Init, run), Goroutines(run[..k]), Connections(run[..k]);
            t < |s.threads| && Serves(s.data, run[k], c, s.threads[t])
  {
    ExecSplit(Init, run, k);
    Numbers(run[..k]);
    RunKeepsInv(Init, run[..k]);
    var m := Exec(Init, run[..k]);
    assert run[k..][0] == run[k] && run[k..][1..] == run[k + 1..];
    ActionKeepsInv(m, run[k]);
    RunServes(Next(m, run[k]), run[k + 1..], Goroutines(run[..k]), run[k], Connections(run[..k]));
  }

  // ---- theorems -----------------------------------------------------------------------------------

  /**
   A broadcast sends the message it was called with: in every run, whatever the goroutine of the k-th action
   Broadcast(m) has put into a channel is m; and when it is over, every client of its audience was sent m
   exactly once, or was sent nothing and is unregistered with its channel closed.
   */
  lemma BroadcastSendsItsMessage(run: seq<Action>, k: nat, c: nat)
    requires Feasible(Init, run) && k < |run| && run[k].Broadcast?
    ensures var s, t := Exec(Init, run), Goroutines(run[..k]);
            && t < |s.threads|
            && (c < |s.data.channels| ==>
                  forall i | 0 <= i < |s.data.channels[c].sent| && s.data.channels[c].sent[i].cast == t ::
                    s.data.channels[c].sent[i].msg == run[k].msg)
            && (s.threads[t].CastDone? && c in s.threads[t].audience ==>
                  && c < |s.data.channels|
                  && (|| Copies(s.data.channels[c].sent, t) == 1
                      || (Copies(s.data.channels[c].sent, t) == 0 && Gone(s.data, c))))
  {
    var s, t := Exec(Init, run), Goroutines(run[..k]);
    CallServes(run, k);
    RunKeepsInv(Init, run);
    if c < |s.data.channels| {
      assert QueueOk(s.data.channels[c], s.threads);
    }
    if s.threads[t].CastDone? && c in s.threads[t].audience {
      BroadcastIsComplete(run, t, c);
    }
  }

  /**
   During its pass a broadcast serves whoever has room and sets aside whoever has 256 messages waiting; it
   touches no other channel.
   */
  lemma BroadcastServesWhoeverHasRoom(run: seq<Action>, k: nat, pick: nat)
    requires Feasible(Init, run) && k < |run| && run[k].Broadcast?
    requires Goroutines(run[..k]) < |Exec(Init, run).threads| && Exec(Init, run).threads[Goroutines(run[..k])].CastPass?
    requires Exec(Init, run).threads[Goroutines(run[..k])].todo != {}
    requires Allowed(Exec(Init, run), Go(Goroutines(run[..k]), pick))
    ensures var s, t := Exec(Init, run), Goroutines(run[..k]);
            var s' := Next(s, Go(t, pick));
            && pick < |s.data.channels| == |s'.data.channels| && s'.threads[t].CastPass?
            && s'.threads[t].todo == s.threads[t].todo - {pick}
            && (if |s.data.channels[pick].queue| < 256 then
                  && s'.data.channels[pick].queue == s.data.channels[pick].queue + [Parcel(run[k].msg, t)]
                  && s'.threads[t].slow == s.threads[t].slow
                else
                  && s'.data.channels[pick].queue == s.data.channels[pick].queue
                  && s'.threads[t].slow == s.threads[t].slow + [pick])
            && (forall c | 0 <= c < |s.data.channels| && c != pick :: s'.data.channels[c] == s.data.channels[c])
  {
    var s, t := Exec(Init, run), Goroutines(run[..k]);
    CallServes(run, k);
    RunKeepsInv(Init, run);
    assert CastFits(s.data, t, s.threads[t]);
    ReaderSeesOpenChannels(s, t, pick);
  }

  /** When the registration of the k-th action returns, its own client has joined: registered, or already gone. */
  lemma ConnectRegisters(run: seq<Action>, k: nat)
    requires Feasible(Init, run) && k < |run| && run[k].Connect?
    ensures var s, t, c := Exec(Init, run), Goroutines(run[..k]), Connections(run[..k]);
            && t < |s.threads| && c < |s.data.channels|
            && (s.threads[t].Finished? ==>
                  && s.data.channels[c].joined
                  && (s.mutex.writer.None? ==> c in s.data.clients || Gone(s.data, c)))
  {
    CallServes(run, k);
    ChannelLifecycle(run);
  }

  /** When the read pump's exit of the k-th action has returned, its client is unregistered and its channel closed. */
  lemma PumpExitRemoves(run: seq<Action>, k: nat)
    requires Feasible(Init, run) && k < |run| && run[k].PumpExit?
    ensures var s, t := Exec(Init, run), Goroutines(run[..k]);
            t < |s.threads| && (s.threads[t].Finished? ==> Gone(s.data, run[k].c))
  {
    CallServes(run, k);
  }

  // ---- progress -----------------------------------------------------------------------------------

  /** Goroutine t can step now, even if a waiting writer keeps new readers out, as Go's RWMutex does. */
  ghost predicate StrictlyAllowed(s: State, t: nat, pick: nat) {
    && Allowed(s, Go(t, pick))
    && (MoveOf(s.data, s.threads[t]) == TakeRead ==>
          forall u | 0 <= u < |s.threads| :: MoveOf(s.data, s.threads[u]) != TakeWrite)
  }

  predicate Ended(pc: Pc) {
    pc.Finished? || pc.CastDone?
  }

  /** Whoever is inside the lock can go on, with a suitable choice among the clients still to visit. */
  lemma HolderCanMove(s: State, t: nat) returns (pick: nat)
    requires Inv(s) && t < |s.threads| && (Writes(s.threads[t]) || Reads(s.threads[t]))
    ensures StrictlyAllowed(s, t, pick)
  {
    var pc := s.threads[t];
    pick := 0;
    assert ClientFits(s.data, t, pc) && CastFits(s.data, t, pc);
    if pc.CastPass? && pc.todo != {} {
      pick :| pick in pc.todo;
      assert pick in s.data.clients;
    } else if pc.StopHeld? && s.data.clients != {} {
      pick :| pick in s.data.clients;
    }
  }

  lemma FreeCanMove(s: State, t: nat)
    requires Inv(s) && t < |s.threads| && !Ended(s.threads[t])
    requires forall u | 0 <= u < |s.threads| :: !Writes(s.threads[u]) && !Reads(s.threads[u])
    ensures Allowed(s, Go(t, 0))
  {
    assert forall u | u in s.mutex.readers :: u < |s.threads| && Reads(s.threads[u]);
    assert s.mutex.readers == {};
  }

  /** No deadlock: while some goroutine has not ended, some goroutine can move. */
  lemma HubIsNeverStuck(run: seq<Action>, t: nat) returns (u: nat, pick: nat)
    requires Feasible(Init, run) && t < |Exec(Init, run).threads| && !Ended(Exec(Init, run).threads[t])
    ensures StrictlyAllowed(Exec(Init, run), u, pick)
  {
    var s := Exec(Init, run);
    RunKeepsInv(Init, run);
    if v: nat :| v < |s.threads| && (Writes(s.threads[v]) || Reads(s.threads[v])) {
      u := v;
      pick := HolderCanMove(s, v);
    } else {
      u, pick := t, 0;
      if v: nat :| v < |s.threads| && MoveOf(s.data, s.threads[v]) == TakeWrite {
        u := v;
      }
      FreeCanMove(s, u);
    }
  }
}
