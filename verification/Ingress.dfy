/**
 The ingress code (internal/ingress): the hub's map of solver connections and the HTTP handler's hand-off,
 operation by operation, without interference. Sending on a closed channel and closing one twice would panic
 in Go, so both are preconditions here.
 */
module Ingress {
  import opened Core
  import HubMachine
  import Relayer

  class Client {
    var queue: seq<HubMachine.Message>
    var closed: bool

    constructor ()
      ensures queue == [] && !closed
    {
      queue := [];
      closed := false;
    }

    /** The non-blocking send into a queue of 256. */
    method TrySend(msg: HubMachine.Message) returns (sent: bool)
      requires !closed
      modifies this`queue
      ensures sent <==> |old(queue)| < 256
      ensures queue == old(queue) + (if sent then [msg] else [])
    {
      sent := |queue| < HubMachine.SEND_BUFFER;
      if sent {
        queue := queue + [msg];
      }
    }

    method Close()
      requires !closed
      modifies this`closed
      ensures closed
    {
      closed := true;
    }
  }

  predicate PositiveAmounts(b: Bid) {
    && b.amountOut.Some? && b.amountOut.value > 0
    && b.gasPrice.Some? && b.gasPrice.value > 0
  }

  class Hub {
    var clients: set<Client>
    var bidCh: seq<Bid>

    /** Every client that was ever registered. */
    ghost var known: set<Client>

    /** A registered client is open, one that was removed is closed; queued bids have positive amounts. */
    ghost predicate Valid()
      reads this, known
    {
      && clients <= known
      && (forall c | c in known :: c.closed <==> c !in clients)
      && |bidCh| <= Relayer.BID_BUFFER
      && (forall b | b in bidCh :: PositiveAmounts(b))
    }

    constructor ()
      ensures Valid() && clients == {} && known == {} && bidCh == []
    {
      clients := {};
      known := {};
      bidCh := [];
    }

    /**
     One message of a read pump: a bid with two positive amounts is queued if there is room, anything else
     dropped.
     */
    method ReceiveBid(bid: Bid) returns (queued: bool)
      requires Valid()
      modifies this`bidCh
      ensures Valid()
      ensures queued <==>
                && bid.amountOut.Some? && bid.amountOut.value > 0
                && bid.gasPrice.Some? && bid.gasPrice.value > 0
                && |old(bidCh)| < 10_000
      ensures bidCh == old(bidCh) + (if queued then [bid] else [])
    {
      if bid.amountOut.None? || bid.amountOut.value <= 0 {
        return false;
      }
      if bid.gasPrice.None? || bid.gasPrice.value <= 0 {
        return false;
      }
      if |bidCh| >= Relayer.BID_BUFFER {
        return false;
      }
      bidCh := bidCh + [bid];
      return true;
    }

    /** ServeWS: registers a connection that was just made. */
    method Register(c: Client)
      requires Valid() && c !in known && !c.closed
      modifies this`clients, this`known
      ensures Valid() && clients == old(clients) + {c} && known == old(known) + {c}
    {
      clients := clients + {c};
      known := known + {c};
    }

    /** Removes and closes the client if it is still registered; calling it again changes nothing. */
    method UnregisterClient(c: Client)
      requires Valid() && c in known
      modifies this`clients, c`closed
      ensures Valid() && clients == old(clients) - {c} && c.closed
    {
      if c in clients {
        clients := clients - {c};
        c.Close();
      }
    }

    /** Run after cancellation: closes and removes every client. */
    method Shutdown()
      requires Valid()
      modifies this`clients, known`closed
      ensures Valid() && clients == {} && forall c | c in known :: c.closed
    {
      while clients != {}
        invariant Valid()
        decreases |clients|
      {
        var c :| c in clients;
        c.Close();
        clients := clients - {c};
      }
    }

    /**
     Every registered client with room in its queue gets the message once and stays; every other one is
     unregistered and closed, its queue untouched.
     */
    method BroadcastIntent(msg: HubMachine.Message)
      requires Valid()
      modifies this`clients, known
      ensures Valid()
      ensures forall c | c in old(clients) :: c in clients <==> |old(c.queue)| < 256
      ensures clients <= old(clients)
      ensures forall c | c in known ::
                c.queue == old(c.queue) + (if c in old(clients) && |old(c.queue)| < 256 then [msg] else [])
    {
      var slow := Pass(msg);
      ghost var served := clients;
      for i := 0 to |slow|
        invariant Valid()
        invariant clients == served - (set k | 0 <= k < i :: slow[k])
        invariant forall c | c in known ::
                    c.queue == old(c.queue) + (if c in served && |old(c.queue)| < 256 then [msg] else [])
      {
        assert slow[i] in known;
        UnregisterClient(slow[i]);
      }
    }

    /** The pass under the read lock: serves whoever has room and collects the others. */
    method Pass(msg: HubMachine.Message) returns (slow: seq<Client>)
      requires Valid()
      modifies known`queue
      ensures Valid()
      ensures forall c :: c in slow <==> c in clients && |old(c.queue)| >= 256
      ensures forall c | c in known ::
                c.queue == old(c.queue) + (if c in clients && |old(c.queue)| < 256 then [msg] else [])
    {
      slow := [];
      var todo := clients;
      while todo != {}
        invariant todo <= clients
        invariant Valid()
        invariant forall c | c in known && (c in todo || c !in clients) :: c.queue == old(c.queue)
        invariant forall c | c in clients - todo ::
                    c.queue == old(c.queue) + (if |old(c.queue)| < 256 then [msg] else [])
        invariant forall c :: c in slow <==> c in clients - todo && |old(c.queue)| >= 256
        decreases |todo|
      {
        var c :| c in todo;
        var sent := c.TrySend(msg);
        if !sent {
          slow := slow + [c];
        }
        todo := todo - {c};
      }
    }
  }

  datatype HexField = Absent | Malformed | Decoded(bytes: Bytes)

  /** A decoded request body; an amount that is not a decimal integer is absent. */
  datatype Request = Request(
    id: IntentId,
    sender: Address,
    tokenIn: Address,
    tokenOut: Address,
    amountIn: Option<int>,
    minAmountOut: Option<int>,
    deadline: int,
    nonce: nat,
    signature: HexField)

  datatype Status = Queued | BadRequest | Unavailable

  /** The clock is in nanoseconds, the deadline in seconds. */
  const NANOSECONDS: int := 1_000_000_000

  class Handler {
    const hub: Hub
    var intentCh: seq<Intent>
    var accepted: nat

    constructor (hub: Hub)
      ensures this.hub == hub && intentCh == [] && accepted == 0
    {
      this.hub := hub;
      intentCh := [];
      accepted := 0;
    }

    ghost predicate Valid()
      reads this, hub, hub.known
    {
      hub.Valid() && |intentCh| <= Relayer.INTENT_BUFFER
    }

    /**
     A malformed request is refused, a good one is queued iff there is room; only a queued intent is
     broadcast, and it is queued before any solver hears of it.
     */
    method SubmitIntent(r: Request, now: int, msg: HubMachine.Message) returns (status: Status)
      requires Valid()
      modifies this`intentCh, this`accepted, hub`clients, hub.known
      ensures Valid()
      ensures status == BadRequest <==>
                || r.id == []
                || r.amountIn.None? || r.amountIn.value <= 0
                || r.minAmountOut.None? || r.minAmountOut.value < 0
                || r.deadline * 1_000_000_000 <= now
                || r.signature.Malformed?
      ensures status == Unavailable <==> status != BadRequest && |old(intentCh)| == 256
      ensures status == Queued ==>
                && |intentCh| == |old(intentCh)| + 1 && intentCh[..|old(intentCh)|] == old(intentCh)
                && var i := intentCh[|old(intentCh)|];
                && i.id == r.id && i.sender == r.sender && i.tokenIn == r.tokenIn && i.tokenOut == r.tokenOut
                && Some(i.amountIn) == r.amountIn && Some(i.minAmountOut) == r.minAmountOut
                && i.deadline == r.deadline && i.nonce == r.nonce
                && i.serial == old(accepted) && accepted == old(accepted) + 1
      ensures status == Queued ==>
                && (forall c | c in hub.known ::
                      c.queue == old(c.queue) + (if c in old(hub.clients) && |old(c.queue)| < 256 then [msg] else []))
                && (forall c | c in old(hub.clients) :: c in hub.clients <==> |old(c.queue)| < 256)
      ensures status != Queued ==>
                && intentCh == old(intentCh) && accepted == old(accepted)
                && unchanged(hub) && forall c | c in hub.known :: unchanged(c)
    {
      if r.id == [] {
        return BadRequest;
      }
      if r.amountIn.None? || r.amountIn.value <= 0 {
        return BadRequest;
      }
      if r.minAmountOut.None? || r.minAmountOut.value < 0 {
        return BadRequest;
      }
      if r.deadline * NANOSECONDS <= now {
        return BadRequest;
      }
      if r.signature.Malformed? {
        return BadRequest;
      }
      if |intentCh| >= Relayer.INTENT_BUFFER {
        return Unavailable;
      }
      var intent :=
        Intent(accepted, r.id, r.sender, r.tokenIn, r.tokenOut, r.amountIn.value, r.minAmountOut.value,
               r.deadline, r.nonce);
      intentCh := intentCh + [intent];
      accepted := accepted + 1;
      hub.BroadcastIntent(msg);
      return Queued;
    }
  }
}
