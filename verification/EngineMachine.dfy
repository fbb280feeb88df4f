/**
 The auction engine as a step machine: any number of goroutines run StartAuction, SubmitBid and
 runAuction, interleaved at every lock operation, map access, slice read and write, and channel send.

 Entries have identity (their position in `entries`), so a pointer obtained by a lookup stays usable
 after the id has been cleaned up and started again. `History` and the `own` of a program counter only
 record what happened: no step lets them influence anything else.
 */
module EngineMachine {
  import opened Core
  import opened WinnerSelection
  import opened AuctionHistory
  import RwMutex

  datatype Entry = Entry(intent: Intent, bids: seq<Bid>)

  /** Where a goroutine is; each value names the next thing it will do. */
  datatype Pc =
    // StartAuction
    | StartWait(intent: Intent)                       // take the write lock
    | StartHeld(intent: Intent)                       // look for a running auction
    | StartPresent(intent: Intent)                    // found one: release and fail
    | StartAbsent(intent: Intent)                     // found none: insert the new entry
    | StartInserted(intent: Intent, own: nat)         // release the write lock
    | StartSpawn(intent: Intent, own: nat)            // spawn the auction goroutine
    // SubmitBid
    | BidCheck(bid: Bid)                              // nil checks
    | BidWait(bid: Bid)                               // take the read lock
    | BidHeld(bid: Bid)                               // look the entry up
    | BidLooked(bid: Bid, found: Option<nat>)         // release the read lock
    | BidEntryWait(bid: Bid, entry: nat)              // take the entry lock
    | BidEntryHeld(bid: Bid, entry: nat)              // read the slice
    | BidRead(bid: Bid, entry: nat, seen: seq<Bid>)    // write the longer slice
    | BidWritten(bid: Bid, entry: nat)                // release the entry lock
    // runAuction
    | RunTimer(intent: Intent, own: nat)              // wait for the timer
    | RunWait(intent: Intent, own: nat)               // take the read lock
    | RunHeld(intent: Intent, own: nat)               // look the entry up
    | RunLooked(intent: Intent, own: nat, found: Option<nat>)
    | RunEntryWait(intent: Intent, own: nat, entry: nat)
    | RunEntryHeld(intent: Intent, own: nat, entry: nat)
    | RunScan(intent: Intent, own: nat, entry: nat, bids: seq<Bid>, next: nat, winner: Option<Bid>)
    | RunScanned(intent: Intent, own: nat, entry: nat, winner: Option<Bid>)
    | RunEmit(intent: Intent, own: nat, winner: Option<Bid>)
    | CleanWait(intent: Intent, own: nat)             // take the write lock
    | CleanHeld(intent: Intent, own: nat)             // delete by id
    | CleanDeleted(intent: Intent, own: nat)          // release the write lock
    | Done(ok: bool)

  /** What the locks protect, and the bounded voucher channel. */
  datatype Data = Data(
    registry: map<IntentId, nat>,
    entries: seq<Entry>,
    vouchers: seq<Voucher>,
    capacity: nat)

  /** The engine's RWMutex and, for each entry whose mutex is held, its holder. */
  datatype Locks = Locks(mutex: RwMutex.RwMutex, entries: map<nat, nat>)

  /** The events so far and the model they replay to, who tends each entry, and how many vouchers were received. */
  datatype History = History(log: seq<Event>, model: Model, owners: seq<nat>, taken: nat)

  datatype State = State(data: Data, locks: Locks, threads: seq<Pc>, hist: History)

  function Init(capacity: nat): State {
    State(Data(map[], [], [], capacity), Locks(RwMutex.Free, map[]), [], History([], Empty, [], 0))
  }

  // ---- locks --------------------------------------------------------------------------------------

  datatype LockMove = OnEngine(m: RwMutex.Move) | TakeEntry(r: nat) | DropEntry(r: nat)

  /** What the next step of a goroutine at pc does to the locks. */
  function MoveOf(pc: Pc): LockMove {
    match pc
    case StartWait(_) => OnEngine(RwMutex.TakeWrite)
    case StartPresent(_) => OnEngine(RwMutex.DropWrite)
    case StartInserted(_, _) => OnEngine(RwMutex.DropWrite)
    case BidWait(_) => OnEngine(RwMutex.TakeRead)
    case BidLooked(_, _) => OnEngine(RwMutex.DropRead)
    case BidEntryWait(_, r) => TakeEntry(r)
    case BidWritten(_, r) => DropEntry(r)
    case RunWait(_, _) => OnEngine(RwMutex.TakeRead)
    case RunLooked(_, _, _) => OnEngine(RwMutex.DropRead)
    case RunEntryWait(_, _, r) => TakeEntry(r)
    case RunScanned(_, _, r, _) => DropEntry(r)
    case CleanWait(_, _) => OnEngine(RwMutex.TakeWrite)
    case CleanDeleted(_, _) => OnEngine(RwMutex.DropWrite)
    case _ => OnEngine(RwMutex.Stay)
  }

  predicate CanMove(l: Locks, m: LockMove) {
    match m
    case OnEngine(e) => RwMutex.CanMove(l.mutex, e)
    case TakeEntry(r) => r !in l.entries
    case DropEntry(_) => true
  }

  function MoveLocks(l: Locks, m: LockMove, t: nat): Locks {
    match m
    case OnEngine(e) => l.(mutex := RwMutex.After(l.mutex, e, t))
    case TakeEntry(r) => l.(entries := l.entries[r := t])
    case DropEntry(r) => l.(entries := l.entries - {r})
  }

  // ---- steps --------------------------------------------------------------------------------------

  function Lookup(d: Data, id: IntentId): Option<nat> {
    if id in d.registry then Some(d.registry[id]) else None
  }

  /** The next step dereferences no dangling pointer and no nil amount. */
  predicate Ready(d: Data, pc: Pc) {
    match pc
    case BidEntryHeld(_, r) => r < |d.entries|
    case BidRead(_, r, _) => r < |d.entries|
    case RunEntryHeld(_, _, r) => r < |d.entries|
    case RunScan(_, _, _, bids, k, w) => k < |bids| ==> Comparable(w, bids[k])
    case _ => true
  }

  /** Where the goroutine is after the step. */
  function PcAfter(d: Data, pc: Pc): Pc
    requires Ready(d, pc)
  {
    match pc
    case StartWait(intent) => StartHeld(intent)
    case StartHeld(intent) => if intent.id in d.registry then StartPresent(intent) else StartAbsent(intent)
    case StartPresent(_) => Done(false)
    case StartAbsent(intent) => StartInserted(intent, |d.entries|)
    case StartInserted(intent, own) => StartSpawn(intent, own)
    case StartSpawn(_, _) => Done(true)
    case BidCheck(bid) => if Priced(bid) then BidWait(bid) else Done(false)
    case BidWait(bid) => BidHeld(bid)
    case BidHeld(bid) => BidLooked(bid, Lookup(d, bid.intentId))
    case BidLooked(bid, found) => if found.None? then Done(false) else BidEntryWait(bid, found.value)
    case BidEntryWait(bid, r) => BidEntryHeld(bid, r)
    case BidEntryHeld(bid, r) => BidRead(bid, r, d.entries[r].bids)
    case BidRead(bid, r, _) => BidWritten(bid, r)
    case BidWritten(_, _) => Done(true)
    case RunTimer(intent, own) => RunWait(intent, own)
    case RunWait(intent, own) => RunHeld(intent, own)
    case RunHeld(intent, own) => RunLooked(intent, own, Lookup(d, intent.id))
    case RunLooked(intent, own, found) =>
      if found.None? then RunEmit(intent, own, None) else RunEntryWait(intent, own, found.value)
    case RunEntryWait(intent, own, r) => RunEntryHeld(intent, own, r)
    case RunEntryHeld(intent, own, r) => RunScan(intent, own, r, d.entries[r].bids, 0, None)
    case RunScan(intent, own, r, bids, k, w) =>
      if k < |bids| then RunScan(intent, own, r, bids, k + 1, Keep(w, bids[k])) else RunScanned(intent, own, r, w)
    case RunScanned(intent, own, _, w) => RunEmit(intent, own, w)
    case RunEmit(intent, own, _) => CleanWait(intent, own)
    case CleanWait(intent, own) => CleanHeld(intent, own)
    case CleanHeld(intent, own) => CleanDeleted(intent, own)
    case CleanDeleted(_, _) => Done(true)
    case Done(_) => pc
  }

  /** What the step writes. */
  function DataAfter(d: Data, pc: Pc): Data
    requires Ready(d, pc)
  {
    match pc
    case StartAbsent(intent) =>
      d.(registry := d.registry[intent.id := |d.entries|], entries := d.entries + [Entry(intent, [])])
    case BidRead(bid, r, seen) =>
      d.(entries := d.entries[r := d.entries[r].(bids := seen + [bid])])
    case RunEmit(intent, _, w) =>
      // a send that would block is abandoned
      if w.Some? && |d.vouchers| < d.capacity then d.(vouchers := d.vouchers + [VoucherFor(intent, w.value)]) else d
    case CleanHeld(intent, _) =>
      d.(registry := d.registry - {intent.id})
    case _ => d
  }

  /** The event, if any, that the step completes. */
  function EventOf(d: Data, pc: Pc): Option<Event> {
    match pc
    case StartHeld(intent) => if intent.id in d.registry then Some(Refuse(intent)) else None
    case StartAbsent(intent) => Some(Start(intent))
    case BidHeld(bid) => if bid.intentId in d.registry then None else Some(Reject(bid))
    case BidRead(bid, r, _) => Some(Append(r, bid))
    case RunScan(_, _, r, bids, k, w) => if k < |bids| then None else Some(Select(r, w))
    case RunEmit(_, own, w) =>
      Some(Close(own, if w.None? then Unbid else if |d.vouchers| < d.capacity then Emitted else Dropped))
    case CleanHeld(intent, _) => if intent.id in d.registry then Some(Remove(d.registry[intent.id])) else None
    case _ => None
  }

  function HistoryAfter(h: History, e: Option<Event>): History {
    if e.None? then h
    else h.(log := h.log + [e.value], model := if Legal(h.model, e.value) then Apply(h.model, e.value) else h.model)
  }

  /** The starting goroutine tends the entry until it has spawned the auction goroutine. */
  function OwnersAfter(owners: seq<nat>, pc: Pc, t: nat, spawned: nat): seq<nat> {
    match pc
    case StartAbsent(_) => owners + [t]
    case StartSpawn(_, own) => if own < |owners| then owners[own := spawned] else owners
    case _ => owners
  }

  function Spawned(pc: Pc): seq<Pc> {
    if pc.StartSpawn? then [RunTimer(pc.intent, pc.own)] else []
  }

  /** Goroutine t can take its next step now. */
  predicate Enabled(s: State, t: nat) {
    && t < |s.threads|
    && !s.threads[t].Done?
    && CanMove(s.locks, MoveOf(s.threads[t]))
    && Ready(s.data, s.threads[t])
  }

  /** The step goroutine t takes. */
  function Advance(s: State, t: nat): State
    requires Enabled(s, t)
  {
    var pc := s.threads[t];
    State(
      DataAfter(s.data, pc),
      MoveLocks(s.locks, MoveOf(pc), t),
      s.threads[t := PcAfter(s.data, pc)] + Spawned(pc),
      HistoryAfter(s.hist, EventOf(s.data, pc)).(owners := OwnersAfter(s.hist.owners, pc, t, |s.threads|)))
  }

  /** A call from outside, a voucher received by the consumer, or a step of goroutine t. */
  datatype Action = CallStart(intent: Intent) | CallBid(bid: Bid) | Take | Go(t: nat)

  predicate Allowed(s: State, a: Action) {
    match a
    case CallStart(_) => true
    case CallBid(_) => true
    case Take => s.data.vouchers != []
    case Go(t) => Enabled(s, t)
  }

  function Next(s: State, a: Action): State
    requires Allowed(s, a)
  {
    match a
    case CallStart(intent) => s.(threads := s.threads + [StartWait(intent)])
    case CallBid(bid) => s.(threads := s.threads + [BidCheck(bid)])
    case Take =>
      s.(data := s.data.(vouchers := s.data.vouchers[1..]), hist := s.hist.(taken := s.hist.taken + 1))
    case Go(t) => Advance(s, t)
  }

  /** A run is a list of actions, each allowed where it happens. */
  predicate Feasible(s: State, run: seq<Action>)
    decreases |run|
  {
    run != [] ==> Allowed(s, run[0]) && Feasible(Next(s, run[0]), run[1..])
  }

  function Exec(s: State, run: seq<Action>): State
    requires Feasible(s, run)
    decreases |run|
  {
    if run == [] then s else Exec(Next(s, run[0]), run[1..])
  }
}
