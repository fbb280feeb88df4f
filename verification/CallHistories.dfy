/** Which call did which event: the log of every run, attributed to the goroutines that wrote it. */
module CallHistories {
  import opened Core
  import opened WinnerSelection
  import opened AuctionHistory
  import opened EngineMachine
  import opened EngineInvariant

  /** An event and the goroutine whose step completed it. */
  datatype Deed = Deed(actor: nat, event: Event)

  function DeedList(t: nat, e: Option<Event>): seq<Deed> {
    if e.Some? then [Deed(t, e.value)] else []
  }

  function DeedOf(s: State, a: Action): seq<Deed>
    requires Allowed(s, a)
  {
    if a.Go? then DeedList(a.t, EventOf(s.data, s.threads[a.t])) else []
  }

  /** The events of a run, in order, each with its actor. */
  function Deeds(s: State, run: seq<Action>): seq<Deed>
    requires Feasible(s, run)
    decreases |run|
  {
    if run == [] then [] else DeedOf(s, run[0]) + Deeds(Next(s, run[0]), run[1..])
  }

  /** How the goroutines that an action creates begin. */
  function CallOf(s: State, a: Action): seq<Pc>
    requires Allowed(s, a)
  {
    match a
    case CallStart(intent) => [StartWait(intent)]
    case CallBid(bid) => [BidCheck(bid)]
    case Take => []
    case Go(t) => Spawned(s.threads[t])
  }

  /** How each goroutine created during a run began, in order of creation. */
  function Calls(s: State, run: seq<Action>): seq<Pc>
    requires Feasible(s, run)
    decreases |run|
  {
    if run == [] then [] else CallOf(s, run[0]) + Calls(Next(s, run[0]), run[1..])
  }

  function Events(deeds: seq<Deed>): seq<Event> {
    if deeds == [] then [] else Events(deeds[..|deeds| - 1]) + [deeds[|deeds| - 1].event]
  }

  /** What goroutine t did. */
  function By(deeds: seq<Deed>, t: nat): seq<Event> {
    if deeds == [] then []
    else By(deeds[..|deeds| - 1], t) + (if deeds[|deeds| - 1].actor == t then [deeds[|deeds| - 1].event] else [])
  }

  // ---- what a call has done -----------------------------------------------------------------------

  /** A SubmitBid of `bid` that is at pc has done exactly these events. */
  ghost predicate BidDid(bid: Bid, pc: Pc, did: seq<Event>) {
    match pc
    case BidCheck(b) => b == bid && did == []
    case BidWait(b) => b == bid && Priced(bid) && did == []
    case BidHeld(b) => b == bid && Priced(bid) && did == []
    case BidLooked(b, found) => b == bid && Priced(bid) && did == (if found.None? then [Reject(bid)] else [])
    case BidEntryWait(b, _) => b == bid && Priced(bid) && did == []
    case BidEntryHeld(b, _) => b == bid && Priced(bid) && did == []
    case BidRead(b, _, _) => b == bid && Priced(bid) && did == []
    case BidWritten(b, r) => b == bid && Priced(bid) && did == [Append(r, bid)]
    case Done(ok) =>
      if ok then Priced(bid) && |did| == 1 && did[0].Append? && did[0].bid == bid
      else did == (if Priced(bid) then [Reject(bid)] else [])
    case _ => false
  }

  /** A StartAuction of `intent` that is at pc has done exactly these events. */
  ghost predicate StartDid(intent: Intent, pc: Pc, did: seq<Event>) {
    match pc
    case StartWait(i) => i == intent && did == []
    case StartHeld(i) => i == intent && did == []
    case StartPresent(i) => i == intent && did == [Refuse(intent)]
    case StartAbsent(i) => i == intent && did == []
    case StartInserted(i, _) => i == intent && did == [Start(intent)]
    case StartSpawn(i, _) => i == intent && did == [Start(intent)]
    case Done(ok) => did == [if ok then Start(intent) else Refuse(intent)]
    case _ => false
  }

  /** One selection of auction r and its close, which is without a bid iff the selection found none. */
  ghost predicate SelectedAndClosed(r: nat, did: seq<Event>) {
    && |did| >= 2 && did[0].Select? && did[0].auction == r && did[1].Close? && did[1].auction == r
    && (did[1].fate == Unbid <==> did[0].winner == None)
  }

  /** The auction goroutine of entry r that is at pc has done exactly these events. */
  ghost predicate RunDid(r: nat, pc: Pc, did: seq<Event>) {
    match pc
    case RunTimer(_, own) => own == r && did == []
    case RunWait(_, own) => own == r && did == []
    case RunHeld(_, own) => own == r && did == []
    case RunLooked(_, own, _) => own == r && did == []
    case RunEntryWait(_, own, _) => own == r && did == []
    case RunEntryHeld(_, own, _) => own == r && did == []
    case RunScan(_, own, _, _, _, _) => own == r && did == []
    case RunScanned(_, own, _, w) => own == r && did == [Select(r, w)]
    case RunEmit(_, own, w) => own == r && did == [Select(r, w)]
    case CleanWait(_, own) => own == r && |did| == 2 && SelectedAndClosed(r, did)
    case CleanHeld(_, own) => own == r && |did| == 2 && SelectedAndClosed(r, did)
    case CleanDeleted(_, own) => own == r && |did| == 3 && SelectedAndClosed(r, did) && did[2] == Remove(r)
    case Done(ok) => ok && |did| == 3 && SelectedAndClosed(r, did) && did[2] == Remove(r)
    case _ => false
  }

  /** A goroutine that began at `call` and is at pc has done exactly these events. */
  ghost predicate Did(call: Pc, pc: Pc, did: seq<Event>) {
    match call
    case BidCheck(bid) => BidDid(bid, pc, did)
    case StartWait(intent) => StartDid(intent, pc, did)
    case RunTimer(_, own) => RunDid(own, pc, did)
    case _ => false
  }

  // ---- one step -----------------------------------------------------------------------------------

  function EventList(e: Option<Event>): seq<Event> {
    if e.Some? then [e.value] else []
  }

  lemma BidStep(bid: Bid, d: Data, pc: Pc, did: seq<Event>)
    requires BidDid(bid, pc, did) && Ready(d, pc) && !pc.Done?
    ensures BidDid(bid, PcAfter(d, pc), did + EventList(EventOf(d, pc)))
  {
  }

  lemma StartStep(intent: Intent, d: Data, pc: Pc, did: seq<Event>)
    requires StartDid(intent, pc, did) && Ready(d, pc) && !pc.Done?
    ensures StartDid(intent, PcAfter(d, pc), did + EventList(EventOf(d, pc)))
  {
  }

  lemma RunStep(r: nat, d: Data, pc: Pc, did: seq<Event>)
    requires RunDid(r, pc, did) && Ready(d, pc) && !pc.Done?
    requires RunFits(d, pc)
    requires pc.CleanHeld? ==> pc.intent.id in d.registry && d.registry[pc.intent.id] == pc.own
    ensures RunDid(r, PcAfter(d, pc), did + EventList(EventOf(d, pc)))
  {
  }

  lemma StepDoes(s: State, t: nat, call: Pc, did: seq<Event>)
    requires Inv(s) && Enabled(s, t) && Did(call, s.threads[t], did)
    ensures Did(call, PcAfter(s.data, s.threads[t]), did + EventList(EventOf(s.data, s.threads[t])))
  {
    var pc := s.threads[t];
    assert PcOk(s.data, s.hist.model, s.hist.owners, t, pc);
    match call
    case BidCheck(bid) => BidStep(bid, s.data, pc, did);
    case StartWait(intent) => StartStep(intent, s.data, pc, did);
    case RunTimer(_, own) => RunStep(own, s.data, pc, did);
  }

  // ---- whole runs ---------------------------------------------------------------------------------

  /** Every goroutine has done what its call and its place in it say, and nobody else did anything. */
  ghost predicate Attributed(threads: seq<Pc>, calls: seq<Pc>, deeds: seq<Deed>) {
    && |calls| == |threads|
    && (forall i | 0 <= i < |deeds| :: deeds[i].actor < |calls|)
    && (forall t | 0 <= t < |calls| :: Did(calls[t], threads[t], By(deeds, t)))
  }

  lemma ByMore(deeds: seq<Deed>, t: nat, e: Option<Event>, u: nat)
    ensures By(deeds + DeedList(t, e), u) == By(deeds, u) + (if u == t then EventList(e) else [])
  {
    if e.Some? {
      assert (deeds + DeedList(t, e))[..|deeds|] == deeds;
    } else {
      assert deeds + DeedList(t, e) == deeds;
    }
  }

  lemma ByStranger(deeds: seq<Deed>, t: nat)
    requires forall i | 0 <= i < |deeds| :: deeds[i].actor != t
    ensures By(deeds, t) == []
  {
  }

  lemma StepAttributed(threads: seq<Pc>, calls: seq<Pc>, deeds: seq<Deed>, t: nat, pc': Pc, e: Option<Event>)
    requires Attributed(threads, calls, deeds) && t < |threads|
    requires Did(calls[t], pc', By(deeds, t) + EventList(e))
    ensures Attributed(threads[t := pc'], calls, deeds + DeedList(t, e))
  {
    forall u | 0 <= u < |calls|
      ensures Did(calls[u], threads[t := pc'][u], By(deeds + DeedList(t, e), u))
    {
      ByMore(deeds, t, e, u);
    }
  }

  lemma NewcomerAttributed(threads: seq<Pc>, calls: seq<Pc>, deeds: seq<Deed>, call: Pc)
    requires Attributed(threads, calls, deeds) && Did(call, call, [])
    ensures Attributed(threads + [call], calls + [call], deeds)
  {
    ByStranger(deeds, |calls|);
    forall u | 0 <= u < |calls + [call]|
      ensures Did((calls + [call])[u], (threads + [call])[u], By(deeds, u))
    {
    }
  }

  lemma GoAttributed(s: State, t: nat, calls: seq<Pc>, deeds: seq<Deed>)
    requires Inv(s) && Enabled(s, t) && Attributed(s.threads, calls, deeds)
    ensures Attributed(Advance(s, t).threads, calls + Spawned(s.threads[t]), deeds + DeedOf(s, Go(t)))
  {
    var pc, e := s.threads[t], EventOf(s.data, s.threads[t]);
    var threads' := s.threads[t := PcAfter(s.data, pc)];
    StepDoes(s, t, calls[t], By(deeds, t));
    StepAttributed(s.threads, calls, deeds, t, PcAfter(s.data, pc), e);
    if pc.StartSpawn? {
      NewcomerAttributed(threads', calls, deeds + DeedList(t, e), RunTimer(pc.intent, pc.own));
    } else {
      assert threads' + Spawned(pc) == threads' && calls + Spawned(pc) == calls;
    }
  }

  lemma ActionAttributed(s: State, a: Action, calls: seq<Pc>, deeds: seq<Deed>)
    requires Inv(s) && Allowed(s, a) && Attributed(s.threads, calls, deeds)
    ensures Attributed(Next(s, a).threads, calls + CallOf(s, a), deeds + DeedOf(s, a))
  {
    assert !a.Go? ==> deeds + DeedOf(s, a) == deeds;
    match a
    case CallStart(intent) => NewcomerAttributed(s.threads, calls, deeds, StartWait(intent));
    case CallBid(bid) => NewcomerAttributed(s.threads, calls, deeds, BidCheck(bid));
    case Take => assert calls + CallOf(s, a) == calls;
    case Go(t) => GoAttributed(s, t, calls, deeds);
  }

  lemma {:induction false} RunAttributed(s: State, run: seq<Action>, calls: seq<Pc>, deeds: seq<Deed>)
    requires Inv(s) && Feasible(s, run) && Attributed(s.threads, calls, deeds)
    ensures Attributed(Exec(s, run).threads, calls + Calls(s, run), deeds + Deeds(s, run))
    decreases |run|
  {
    if run == [] {
      assert calls + [] == calls && deeds + [] == deeds;
    } else {
      var a, s' := run[0], Next(s, run[0]);
      ActionAttributed(s, a, calls, deeds);
      ActionKeepsInv(s, a);
      RunAttributed(s', run[1..], calls + CallOf(s, a), deeds + DeedOf(s, a));
      Regrouped(calls, CallOf(s, a), Calls(s', run[1..]));
      Regrouped(deeds, DeedOf(s, a), Deeds(s', run[1..]));
    }
  }

  lemma Regrouped<T>(xs: seq<T>, ys: seq<T>, zs: seq<T>)
    ensures xs + ys + zs == xs + (ys + zs)
  {
  }

  lemma EventsMore(deeds: seq<Deed>, t: nat, e: Option<Event>)
    ensures Events(deeds + DeedList(t, e)) == Events(deeds) + EventList(e)
  {
    if e.Some? {
      assert (deeds + DeedList(t, e))[..|deeds|] == deeds;
    } else {
      assert deeds + DeedList(t, e) == deeds;
    }
  }

  lemma LogGrows(s: State, a: Action, deeds: seq<Deed>)
    requires Allowed(s, a) && s.hist.log == Events(deeds)
    ensures Next(s, a).hist.log == Events(deeds + DeedOf(s, a))
  {
    if a.Go? {
      EventsMore(deeds, a.t, EventOf(s.data, s.threads[a.t]));
    } else {
      assert deeds + DeedOf(s, a) == deeds;
    }
  }

  lemma {:induction false} LogIsDone(s: State, run: seq<Action>, deeds: seq<Deed>)
    requires Feasible(s, run) && s.hist.log == Events(deeds)
    ensures Exec(s, run).hist.log == Events(deeds + Deeds(s, run))
    decreases |run|
  {
    if run == [] {
      assert deeds + [] == deeds;
    } else {
      var a, s' := run[0], Next(s, run[0]);
      LogGrows(s, a, deeds);
      LogIsDone(s', run[1..], deeds + DeedOf(s, a));
      Regrouped(deeds, DeedOf(s, a), Deeds(s', run[1..]));
    }
  }

  /**
   Every call does its own events, once, and returns what they say. In every interleaved run the log consists
   of the goroutines' own events: a SubmitBid that returned success did exactly one append of its bid, one that
   returned failure did none; a StartAuction that returned success did exactly one start, one that failed one
   refusal; a finished auction did one selection, one close and one removal of its own entry.
   */
  lemma EveryCallDoesItsEvents(capacity: nat, run: seq<Action>)
    requires Feasible(Init(capacity), run)
    ensures var s, calls, deeds := Exec(Init(capacity), run), Calls(Init(capacity), run), Deeds(Init(capacity), run);
            && |calls| == |s.threads|
            && s.hist.log == Events(deeds)
            && (forall t | 0 <= t < |calls| :: Did(calls[t], s.threads[t], By(deeds, t)))
  {
    RunAttributed(Init(capacity), run, [], []);
    LogIsDone(Init(capacity), run, []);
    assert [] + Calls(Init(capacity), run) == Calls(Init(capacity), run);
    assert [] + Deeds(Init(capacity), run) == Deeds(Init(capacity), run);
  }
}
