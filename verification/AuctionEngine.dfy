/**
 The engine's code (internal/auction), operation by operation, without interference. Each operation is
 proved to perform exactly the events of the auction history that the interleaved machine performs too.
 */
module AuctionEngine {
  import opened Core
  import opened WinnerSelection
  import opened AuctionHistory

  datatype BidResult = Accepted | NilAmountOut | NilGasPrice | NotFound

  lemma ThreeEvents(log: seq<Event>, a: Event, b: Event, c: Event)
    ensures log + [a] + [b] + [c] == log + [a, b, c]
  {
  }

  class AuctionEntry {
    const intent: Intent
    var bids: seq<Bid>

    /** How many entries were created before this one. */
    ghost const number: nat

    constructor (intent: Intent, ghost number: nat)
      ensures this.intent == intent && bids == [] && this.number == number
    {
      this.intent := intent;
      bids := [];
      this.number := number;
    }
  }

  class Engine {
    var auctions: map<IntentId, AuctionEntry>
    var voucherCh: seq<Voucher>
    const capacity: nat

    ghost var created: seq<AuctionEntry>
    ghost var log: seq<Event>
    ghost var model: Model
    ghost var taken: nat

    /** The events so far are a legal history, and `model` is what they lead to. */
    ghost predicate Recorded()
      reads this`log, this`model
    {
      LegalLog(log) && model == Replay(log)
    }

    /** The entries created so far are the auctions of the model, each with its intent and bids. */
    ghost predicate EntriesAgree()
      reads this`created, this`model, created
    {
      && |created| == |model.auctions|
      && (forall r | 0 <= r < |created| ::
            && created[r].number == r
            && created[r].intent == model.auctions[r].intent
            && created[r].bids == model.auctions[r].bids)
    }

    /** The map holds the entries the model has registered. */
    ghost predicate MapAgrees()
      reads this`auctions, this`created, this`model
    {
      && auctions.Keys == model.registry.Keys
      && (forall id | id in auctions :: model.registry[id] < |created| && auctions[id] == created[model.registry[id]])
    }

    ghost predicate ChannelAgrees()
      reads this`voucherCh, this`taken, this`model
    {
      && |voucherCh| <= capacity
      && taken <= |model.emitted|
      && model.emitted[taken..] == voucherCh
    }

    ghost predicate Agrees()
      reads this`auctions, this`voucherCh, this`created, this`model, this`taken, created
    {
      EntriesAgree() && MapAgrees() && ChannelAgrees()
    }

    ghost predicate Valid()
      reads this, created
    {
      Recorded() && Agrees()
    }

    constructor (capacity: nat)
      ensures Valid() && log == [] && auctions == map[] && voucherCh == [] && this.capacity == capacity
      ensures created == []
    {
      auctions := map[];
      voucherCh := [];
      this.capacity := capacity;
      created := [];
      log := [];
      model := Empty;
      taken := 0;
    }

    ghost method Record(e: Event)
      requires Recorded() && Legal(model, e)
      modifies this`log, this`model
      ensures Recorded() && log == old(log) + [e] && model == Apply(old(model), e)
    {
      ExtendLog(log, e);
      log := log + [e];
      model := Apply(model, e);
    }

    /** Registers a fresh, empty entry under an id that is free. */
    method Insert(intent: Intent) returns (entry: AuctionEntry)
      requires Agrees() && Legal(model, Start(intent))
      modifies this`auctions, this`created, this`model
      ensures Agrees() && fresh(entry) && entry.intent == intent && entry.bids == []
      ensures auctions == old(auctions)[intent.id := entry] && created == old(created) + [entry]
      ensures model == Apply(old(model), Start(intent))
    {
      entry := new AuctionEntry(intent, |created|);
      auctions := auctions[intent.id := entry];
      created := created + [entry];
      model := Apply(model, Start(intent));
    }

    /** Succeeds iff no auction of this id is registered, and then registers a fresh, empty one. */
    method StartAuction(intent: Intent) returns (ok: bool)
      requires Valid()
      modifies this`auctions, this`created, this`log, this`model
      ensures Valid()
      ensures ok <==> intent.id !in old(auctions)
      ensures log == old(log) + [if ok then Start(intent) else Refuse(intent)]
      ensures ok ==>
                && intent.id in auctions && fresh(auctions[intent.id])
                && auctions[intent.id].intent == intent && auctions[intent.id].bids == []
                && auctions == old(auctions)[intent.id := auctions[intent.id]]
                && created == old(created) + [auctions[intent.id]]
      ensures !ok ==> auctions == old(auctions) && created == old(created)
    {
      if intent.id in auctions {
        Record(Refuse(intent));
        return false;
      }
      ExtendLog(log, Start(intent));
      log := log + [Start(intent)];
      var entry := Insert(intent);
      return true;
    }

    /**
     Appends to the registered entry of the bid's intent, if there is one, and to no other. It does not look
     at the amounts; that the history goes on is promised for bids that have both.
     */
    method SubmitBidLocked(bid: Bid) returns (ok: bool)
      requires Valid()
      modifies this`log, this`model, created
      ensures ok <==> bid.intentId in auctions
      ensures !ok || Priced(bid) ==>
                && Valid()
                && log == old(log) + [if ok then Append(NumberOf(old(model), bid.intentId), bid) else Reject(bid)]
      ensures ok ==> auctions[bid.intentId].bids == old(auctions[bid.intentId].bids) + [bid]
      ensures forall e | e in created && (!ok || e != auctions[bid.intentId]) :: e.bids == old(e.bids)
    {
      if bid.intentId !in auctions {
        Record(Reject(bid));
        return false;
      }
      var entry := auctions[bid.intentId];
      ghost var r := model.registry[bid.intentId];
      ReplayIsConsistent(log);
      assert entry == created[r] && entry.number == r;
      if Priced(bid) {
        Record(Append(r, bid));
      }
      entry.bids := entry.bids + [bid];
      return true;
    }

    /** Refuses a bid with a nil amount before it can reach an entry. */
    method SubmitBid(bid: Bid) returns (result: BidResult)
      requires Valid()
      modifies this`log, this`model, created
      ensures Valid()
      ensures result == Accepted <==> Priced(bid) && bid.intentId in auctions
      ensures result == NilAmountOut <==> bid.amountOut.None?
      ensures result == NilGasPrice <==> bid.amountOut.Some? && bid.gasPrice.None?
      ensures result == NotFound <==> Priced(bid) && bid.intentId !in auctions
      ensures result == Accepted ==>
                && log == old(log) + [Append(NumberOf(old(model), bid.intentId), bid)]
                && auctions[bid.intentId].bids == old(auctions[bid.intentId].bids) + [bid]
      ensures forall e | e in created && (result != Accepted || e != auctions[bid.intentId]) :: e.bids == old(e.bids)
    {
      if bid.amountOut.None? {
        return NilAmountOut;
      }
      if bid.gasPrice.None? {
        return NilGasPrice;
      }
      var ok := SubmitBidLocked(bid);
      result := if ok then Accepted else NotFound;
    }

    /** SubmitBid lets only bids with both amounts through, so the loop below never compares a nil amount. */
    lemma BidsArePriced(id: IntentId)
      requires Valid() && id in auctions
      ensures AllPriced(auctions[id].bids)
    {
      ReplayKeepsStartsAndAppends(log);
      assert auctions[id].bids == Appended(log, model.registry[id]);
    }

    /** The selection loop: the earliest lexicographic maximum of the entry's bids, or nil. */
    method SelectWinner(id: IntentId) returns (winner: Option<Bid>)
      requires Valid()
      ensures id !in auctions ==> winner == None
      ensures id in auctions ==> AllPriced(auctions[id].bids) && IsWinner(auctions[id].bids, winner)
    {
      if id !in auctions {
        return None;
      }
      var bids := auctions[id].bids;
      BidsArePriced(id);
      winner := None;
      ghost var at: nat := 0;
      for k := 0 to |bids|
        invariant winner.None? <==> k == 0
        invariant k > 0 ==> at < k && winner == Some(bids[at])
        invariant k > 0 ==> forall j | 0 <= j < at :: Outbids(bids[at], bids[j])
        invariant k > 0 ==> forall j | at <= j < k :: !Outbids(bids[j], bids[at])
      {
        if winner == None {
          winner, at := Some(bids[k]), k;
        } else if Outbids(bids[k], winner.value) {
          winner, at := Some(bids[k]), k;
        }
      }
      assert bids != [] ==> WinsAt(bids, at);
    }

    /** The auction registered under the id, if any, has closed. */
    ghost predicate Finished(id: IntentId)
      reads this`auctions, this`model
    {
      id in auctions ==>
        NumberOf(model, id) < |model.auctions| && model.auctions[NumberOf(model, id)].phase.Closed?
    }

    /**
     Deletes the entry by id, whatever its auction is doing; a missing id is left alone. The history goes on
     if the auction has closed, as the engine's own calls make sure.
     */
    method Cleanup(id: IntentId)
      requires Valid()
      modifies this`auctions, this`log, this`model
      ensures auctions == old(auctions) - {id}
      ensures old(Finished(id)) ==>
                && Valid()
                && log == old(log) + (if id in old(auctions) then [Remove(NumberOf(old(model), id))] else [])
    {
      if id in auctions && Finished(id) {
        ReplayIsConsistent(log);
        Record(Remove(model.registry[id]));
      }
      auctions := auctions - {id};
    }

    /** The consumer's end of the voucher channel. */
    method Receive() returns (v: Voucher)
      requires Valid() && voucherCh != []
      modifies this`voucherCh, this`taken
      ensures Valid()
      ensures [v] + voucherCh == old(voucherCh)
    {
      v := voucherCh[0];
      voucherCh := voucherCh[1..];
      taken := taken + 1;
    }

    /** Selects the winner and records the selection. */
    method Choose(intent: Intent) returns (winner: Option<Bid>)
      requires Valid()
      requires intent.id in auctions && auctions[intent.id].intent == intent
      requires NumberOf(model, intent.id) < |model.auctions| && model.auctions[NumberOf(model, intent.id)].phase == Open
      modifies this`log, this`model
      ensures AllPriced(auctions[intent.id].bids) && winner == Winner(auctions[intent.id].bids)
      ensures Valid()
      ensures log == old(log) + [Select(NumberOf(old(model), intent.id), winner)]
      ensures model.registry == old(model).registry && |model.auctions| == |old(model).auctions|
      ensures NumberOf(model, intent.id) < |model.auctions|
      ensures model.auctions[NumberOf(model, intent.id)].phase == Chosen(winner)
      ensures model.auctions[NumberOf(model, intent.id)].intent == intent
    {
      winner := SelectWinner(intent.id);
      WinnerMeetsTheRule(auctions[intent.id].bids);
      WinnerIsUnique(auctions[intent.id].bids, winner, Winner(auctions[intent.id].bids));
      Record(Select(model.registry[intent.id], winner));
    }

    /**
     The non-blocking send: a winner's voucher is queued if there is room and dropped otherwise. The three
     ways to close are told apart by the winner and the room alone.
     */
    method Publish(intent: Intent, winner: Option<Bid>, ghost r: nat) returns (fate: Fate)
      requires Valid() && r < |model.auctions|
      requires model.auctions[r].phase == Chosen(winner) && model.auctions[r].intent == intent
      modifies this`log, this`model, this`voucherCh
      ensures fate == Unbid <==> winner.None?
      ensures fate == Emitted <==> winner.Some? && |old(voucherCh)| < capacity
      ensures fate == Dropped <==> winner.Some? && |old(voucherCh)| == capacity
      ensures Valid() && model.registry == old(model).registry && |model.auctions| == |old(model).auctions|
      ensures model.auctions[r].phase == Closed(fate)
      ensures log == old(log) + [Close(r, fate)]
      ensures winner.Some? && |old(voucherCh)| < capacity ==>
                voucherCh == old(voucherCh)
                             + [Voucher(intent.id, winner.value.solver, winner.value.amountOut, intent, winner.value)]
      ensures winner.None? || |old(voucherCh)| == capacity ==> voucherCh == old(voucherCh)
    {
      ghost var emitted := model.emitted;
      if winner.None? {
        fate := Unbid;
      } else if |voucherCh| < capacity {
        fate := Emitted;
      } else {
        fate := Dropped;
      }
      Record(Close(r, fate));
      if fate == Emitted {
        var voucher := Voucher(intent.id, winner.value.solver, winner.value.amountOut, intent, winner.value);
        voucherCh := voucherCh + [voucher];
        assert (emitted + [voucher])[taken..] == emitted[taken..] + [voucher];
      }
    }

    /**
     What the auction goroutine does once its timer has fired: exactly one selection, one close and one
     removal, with the winner of the bids the entry holds.
     */
    method RunAuction(intent: Intent)
      requires Valid()
      requires intent.id in auctions && auctions[intent.id].intent == intent
      requires NumberOf(model, intent.id) < |model.auctions| && model.auctions[NumberOf(model, intent.id)].phase == Open
      modifies this`auctions, this`log, this`model, this`voucherCh
      ensures Valid()
      ensures auctions == old(auctions) - {intent.id}
      ensures AllPriced(old(auctions[intent.id].bids))
      ensures |log| == |old(log)| + 3 && log[..|old(log)|] == old(log)
      ensures log[|old(log)|].Select? && IsWinner(old(auctions[intent.id].bids), log[|old(log)|].winner)
      ensures var r, w, room := NumberOf(old(model), intent.id), log[|old(log)|].winner, |old(voucherCh)| < capacity;
              && log[|old(log)|].auction == r && log[|old(log)| + 2] == Remove(r)
              && log[|old(log)| + 1] == Close(r, if w.None? then Unbid else if room then Emitted else Dropped)
              && (w.Some? && room ==>
                    voucherCh == old(voucherCh)
                                 + [Voucher(intent.id, w.value.solver, w.value.amountOut, intent, w.value)])
              && (w.None? || !room ==> voucherCh == old(voucherCh))
    {
      ghost var r, before := NumberOf(model, intent.id), log;
      var winner := Choose(intent);
      WinnerMeetsTheRule(old(auctions[intent.id].bids));
      var fate := Publish(intent, winner, r);
      Cleanup(intent.id);
      ThreeEvents(before, Select(r, winner), Close(r, fate), Remove(r));
    }
  }
}
