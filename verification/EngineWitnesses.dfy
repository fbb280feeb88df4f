/**
 Two runs that show what the engine does not promise. The API description says that bids after the auction
 timer are rejected, but the code rejects a bid only when its lookup finds no entry; and nothing compares
 the winner with the minimum the user asked for.
 */
module EngineWitnesses {
  import opened Core
  import opened WinnerSelection
  import opened AuctionHistory
  import opened EngineMachine
  import opened EngineRuns

  /** A start that has gone through on a new engine, and its auction goroutine waiting for the timer. */
  lemma AuctionWaits(capacity: nat, intent: Intent) returns (e: State)
    ensures Reaches(Init(capacity), e) && e.locks == Unlocked
    ensures e.data == Data(map[intent.id := 0], [Entry(intent, [])], [], capacity)
    ensures e.threads == [Done(true), RunTimer(intent, 0)] && e.hist.log == [Start(intent)] && e.hist.taken == 0
  {
    var s := Init(capacity);
    var m := Next(s, CallStart(intent));
    assert m.threads == [StartWait(intent)];
    e := StartGoes(m, 0, intent);
    ReachesItself(s);
    CallAndGo(s, s, CallStart(intent), e);
  }

  lemma NothingIsSelected(capacity: nat, intent: Intent) returns (e: State)
    ensures Reaches(Init(capacity), e) && e.locks == Unlocked
    ensures e.data == Data(map[intent.id := 0], [Entry(intent, [])], [], capacity)
    ensures |e.threads| == 2 && e.hist.log == [Start(intent), Select(0, None)]
  {
    var m := AuctionWaits(capacity, intent);
    e := SelectGoes(m, 1, intent, 0);
    GoOn(Init(capacity), m, e);
  }

  lemma LateBidGoes(capacity: nat, intent: Intent, bid: Bid) returns (e: State)
    requires Priced(bid) && bid.intentId == intent.id
    ensures Reaches(Init(capacity), e) && |e.threads| == 3 && e.threads[2] == Done(true)
    ensures e.hist.log == [Start(intent), Select(0, None), Append(0, bid)]
  {
    var m := NothingIsSelected(capacity, intent);
    e := BidGoes(Next(m, CallBid(bid)), 2, bid, 0);
    CallAndGo(Init(capacity), m, CallBid(bid), e);
  }

  /**
   The documented rule fails, for any intent and any bid for it: the bid is appended after the selection,
   so it can never win, and SubmitBid returns success.
   */
  lemma LateBidIsAccepted(capacity: nat, intent: Intent, bid: Bid) returns (run: seq<Action>)
    requires Priced(bid) && bid.intentId == intent.id
    ensures Feasible(Init(capacity), run)
    ensures var s := Exec(Init(capacity), run);
            && |s.threads| == 3 && s.threads[2] == Done(true)
            && s.hist.log == [Start(intent), Select(0, None), Append(0, bid)]
  {
    var e := LateBidGoes(capacity, intent, bid);
    run :| Feasible(Init(capacity), run) && Exec(Init(capacity), run) == e;
  }

  lemma SoleBidIsSelected(capacity: nat, intent: Intent, bid: Bid) returns (e: State)
    requires Priced(bid) && bid.intentId == intent.id
    ensures Reaches(Init(capacity), e) && e.locks == Unlocked
    ensures |e.threads| == 3 && e.threads[1] == RunEmit(intent, 0, Some(bid))
    ensures e.data.vouchers == [] && e.data.capacity == capacity
  {
    var s := Init(capacity);
    var m := AuctionWaits(capacity, intent);
    var m' := BidGoes(Next(m, CallBid(bid)), 2, bid, 0);
    CallAndGo(s, m, CallBid(bid), m');
    assert m'.data.entries[0].bids == [bid];
    SoleBidWins(bid);
    e := SelectGoes(m', 1, intent, 0);
    GoOn(s, m', e);
  }

  /** A voucher below the user's minimum, for any intent and any bid for it that offers less. */
  lemma VoucherBelowMinimum(capacity: nat, intent: Intent, bid: Bid) returns (run: seq<Action>)
    requires capacity > 0 && Priced(bid) && bid.intentId == intent.id && bid.amountOut.value < intent.minAmountOut
    ensures Feasible(Init(capacity), run)
    ensures var s := Exec(Init(capacity), run);
            && s.data.vouchers == [VoucherFor(intent, bid)]
            && s.data.vouchers[0].amountOut.value < s.data.vouchers[0].intent.minAmountOut
  {
    var s := Init(capacity);
    var e := SoleBidIsSelected(capacity, intent, bid);
    var e' := CloseGoes(e, 1, intent, 0, bid);
    GoOn(s, e, e');
    run :| Feasible(s, run) && Exec(s, run) == e';
  }
}
