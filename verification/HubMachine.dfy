/**
 The solver hub (internal/ingress/mempool_ws.go) as a step machine: connections that register, broadcasts,
 evictions, read pumps that exit and the shutdown, interleaved at every lock operation, map update, send and
 close. Clients are numbered in order of connection.
 */
module HubMachine {
  import opened Core
  import opened RwMutex

  const SEND_BUFFER: nat := 256

  type Message = Bytes

  /** A message in a queue; `cast` records which broadcast put it there. */
  datatype Parcel = Parcel(msg: Message, cast: nat)

  /** A client's send channel. The last four fields only record what happened to it. */
  datatype Channel = Channel(
    queue: seq<Parcel>,
    closed: bool,
    joined: bool,
    joiner: nat,
    sent: seq<Parcel>,
    received: nat)

  /** `panicked` is raised by a send on a closed channel and by a second close. */
  datatype Data = Data(clients: set<nat>, channels: seq<Channel>, panicked: bool)

  /** On whose behalf a client is unregistered: its read pump, or a broadcast that found it slow. */
  datatype Job = Pump | Cast(msg: Message, audience: set<nat>, rest: seq<nat>)

  datatype Pc =
    // ServeWS
    | JoinWait(c: nat)                     // take the write lock
    | JoinHeld(c: nat)                     // insert the client
    | JoinDone(c: nat)                     // release the lock
    // BroadcastIntent; the audience is the map's content during the pass
    | CastWait(msg: Message)               // take the read lock
    | CastPass(msg: Message, audience: set<nat>, todo: set<nat>, slow: seq<nat>)
    | CastEvict(msg: Message, audience: set<nat>, slow: seq<nat>)
    | CastDone(msg: Message, audience: set<nat>)
    // unregisterClient
    | DropWait(job: Job, c: nat)           // take the write lock
    | DropHeld(job: Job, c: nat)           // still registered?
    | DropDeleted(job: Job, c: nat)        // close the channel
    | DropLeft(job: Job, c: nat)           // release the lock
    // Run, once its context is cancelled
    | StopWait
    | StopHeld                             // close the next client's channel
    | StopClosed(c: nat)                   // delete that client
    | StopEmpty                            // release the lock
    | Finished

  datatype State = State(data: Data, mutex: RwMutex, threads: seq<Pc>)

  const Init: State := State(Data({}, [], false), Free, [])

  function NewChannel(joiner: nat): Channel {
    Channel([], false, false, joiner, [], 0)
  }

  function SendTo(d: Data, c: nat, p: Parcel): Data
    requires c < |d.channels|
  {
    var ch := d.channels[c];
    if ch.closed then d.(panicked := true)
    else if |ch.queue| < SEND_BUFFER
    then d.(channels := d.channels[c := ch.(queue := ch.queue + [p], sent := ch.sent + [p])])
    else d
  }

  function Close(d: Data, c: nat): Data
    requires c < |d.channels|
  {
    if d.channels[c].closed then d.(panicked := true)
    else d.(channels := d.channels[c := d.channels[c].(closed := true)])
  }

  function MoveOf(d: Data, pc: Pc): Move {
    match pc
    case JoinWait(_) => TakeWrite
    case JoinDone(_) => DropWrite
    case CastWait(_) => TakeRead
    case CastPass(_, _, todo, _) => if todo == {} then DropRead else Stay
    case DropWait(_, _) => TakeWrite
    case DropLeft(_, _) => DropWrite
    case StopWait => TakeWrite
    case StopEmpty => DropWrite
    case _ => Stay
  }

  /** The client the step works on exists; where the code ranges over a map, it is one still to visit. */
  predicate Ready(d: Data, pc: Pc, pick: nat) {
    match pc
    case JoinHeld(c) => c < |d.channels|
    case CastPass(_, _, todo, _) => todo != {} ==> pick in todo && pick < |d.channels|
    case DropDeleted(_, c) => c < |d.channels|
    case StopHeld => d.clients != {} ==> pick in d.clients && pick < |d.channels|
    case CastDone(_, _) => false
    case Finished => false
    case _ => true
  }

  function PcAfter(d: Data, pc: Pc, pick: nat): Pc
    requires Ready(d, pc, pick)
  {
    match pc
    case JoinWait(c) => JoinHeld(c)
    case JoinHeld(c) => JoinDone(c)
    case JoinDone(_) => Finished
    case CastWait(msg) => CastPass(msg, d.clients, d.clients, [])
    case CastPass(msg, audience, todo, slow) =>
      if todo == {} then CastEvict(msg, audience, slow)
      else
        var full := !d.channels[pick].closed && |d.channels[pick].queue| >= SEND_BUFFER;
        CastPass(msg, audience, todo - {pick}, if full then slow + [pick] else slow)
    case CastEvict(msg, audience, slow) =>
      if slow == [] then CastDone(msg, audience) else DropWait(Cast(msg, audience, slow[1..]), slow[0])
    case DropWait(job, c) => DropHeld(job, c)
    case DropHeld(job, c) => if c in d.clients then DropDeleted(job, c) else DropLeft(job, c)
    case DropDeleted(job, c) => DropLeft(job, c)
    case DropLeft(job, c) => if job.Pump? then Finished else CastEvict(job.msg, job.audience, job.rest)
    case StopWait => StopHeld
    case StopHeld => if d.clients == {} then StopEmpty else StopClosed(pick)
    case StopClosed(_) => StopHeld
    case StopEmpty => Finished
  }

  function DataAfter(d: Data, t: nat, pc: Pc, pick: nat): Data
    requires Ready(d, pc, pick)
  {
    match pc
    case JoinHeld(c) =>
      d.(clients := d.clients + {c}, channels := d.channels[c := d.channels[c].(joined := true)])
    case CastPass(msg, _, todo, _) => if todo == {} then d else SendTo(d, pick, Parcel(msg, t))
    case DropHeld(_, c) => d.(clients := d.clients - {c})
    case DropDeleted(_, c) => Close(d, c)
    case StopHeld => if d.clients == {} then d else Close(d, pick)
    case StopClosed(c) => d.(clients := d.clients - {c})
    case _ => d
  }

  datatype Action =
    | Connect                    // a new connection: allocates its channel and calls ServeWS
    | Broadcast(msg: Message)
    | PumpExit(c: nat)           // the read pump of a registered client ends
    | Shutdown
    | WriteOut(c: nat)           // the write pump receives the next message
    | Go(t: nat, pick: nat)

  predicate Allowed(s: State, a: Action) {
    match a
    case Connect => true
    case Broadcast(_) => true
    case PumpExit(c) => c < |s.data.channels| && s.data.channels[c].joined
    case Shutdown => true
    case WriteOut(c) => c < |s.data.channels| && s.data.channels[c].queue != []
    case Go(t, pick) =>
      && t < |s.threads|
      && CanMove(s.mutex, MoveOf(s.data, s.threads[t]))
      && Ready(s.data, s.threads[t], pick)
  }

  function Spawn(s: State, pc: Pc): State {
    s.(threads := s.threads + [pc])
  }

  function Next(s: State, a: Action): State
    requires Allowed(s, a)
  {
    match a
    case Connect =>
      var c := |s.data.channels|;
      Spawn(s.(data := s.data.(channels := s.data.channels + [NewChannel(|s.threads|)])), JoinWait(c))
    case Broadcast(msg) => Spawn(s, CastWait(msg))
    case PumpExit(c) => Spawn(s, DropWait(Pump, c))
    case Shutdown => Spawn(s, StopWait)
    case WriteOut(c) =>
      var ch := s.data.channels[c];
      s.(data := s.data.(channels := s.data.channels[c := ch.(queue := ch.queue[1..], received := ch.received + 1)]))
    case Go(t, pick) =>
      var pc := s.threads[t];
      State(DataAfter(s.data, t, pc, pick),
            After(s.mutex, MoveOf(s.data, pc), t),
            s.threads[t := PcAfter(s.data, pc, pick)])
  }

  predicate Feasible(s: State, run: seq<Action>)
    decreases |run|
  {
    run != [] ==> Allowed(s, run[0]) && Feasible(Next(s, run[0]), run[1..])
  }

  function Exec(s: State, run: seq<Action>): State
    requires Feasible(s, run)
    decreases |run|
  {
    if run == [] then s else Exec(Next(s, run[0]), run[1..])
  }
}
