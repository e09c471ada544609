/** Order intents handed to the execution engine.  The engine assigns order
    ids; the model receives them as inputs.  Fills and position updates are
    the engine's and arrive as the next bar's `pos`. */
module Orders {
  import opened Series

  type OrderId = int

  datatype Direction = Buy | Sell | Short | Cover

  datatype Intent =
    | Cancel(id: OrderId)
    | CancelAll
    | Send(direction: Direction, price: real, volume: nat, stop: bool)

  /** One cancel request per tracked order id, in the order they were tracked. */
  function CancelEach(ids: seq<OrderId>): (r: seq<Intent>)
    ensures |r| == |ids|
    ensures forall i :: 0 <= i < |ids| ==> r[i] == Cancel(ids[i])
  {
    if |ids| == 0 then [] else CancelEach(ids[..|ids| - 1]) + [Cancel(ids[|ids| - 1])]
  }

  predicate NoSend(intents: seq<Intent>)
  {
    forall i :: 0 <= i < |intents| ==> !intents[i].Send?
  }

  lemma NoSendConcat(a: seq<Intent>, b: seq<Intent>)
    requires NoSend(a) && NoSend(b)
    ensures NoSend(a + b)
  {
    forall i | 0 <= i < |a + b| ensures !(a + b)[i].Send? {
      if i >= |a| { assert (a + b)[i] == b[i - |a|]; }
    }
  }

  /** Some intent sends an order in direction `d`. */
  predicate Sends(intents: seq<Intent>, d: Direction)
  {
    exists i :: 0 <= i < |intents| && intents[i].Send? && intents[i].direction == d
  }

  /** Cancels in front of a batch of intents change nothing about what the
      batch sends. */
  lemma CancelsSendNothing(ids: seq<OrderId>, ds: seq<Intent>)
    ensures NoSend(CancelEach(ids) + ds) <==> NoSend(ds)
    ensures forall d :: Sends(CancelEach(ids) + ds, d) <==> Sends(ds, d)
  {
    var c := CancelEach(ids);
    forall d ensures Sends(c + ds, d) <==> Sends(ds, d) {
      if Sends(c + ds, d) {
        var i :| 0 <= i < |c + ds| && (c + ds)[i].Send? && (c + ds)[i].direction == d;
        assert ds[i - |c|] == (c + ds)[i];
      }
      if Sends(ds, d) {
        var i :| 0 <= i < |ds| && ds[i].Send? && ds[i].direction == d;
        assert (c + ds)[i + |c|] == ds[i];
      }
    }
    if NoSend(ds) {
      forall i | 0 <= i < |c + ds| ensures !(c + ds)[i].Send? {
        if i >= |c| { assert (c + ds)[i] == ds[i - |c|]; }
      }
    }
    if NoSend(c + ds) {
      forall i | 0 <= i < |ds| ensures !ds[i].Send? {
        assert (c + ds)[i + |c|] == ds[i];
      }
    }
  }

  /** Net position once a sent order fills completely. */
  function Filled(pos: int, o: Intent): int
    requires o.Send?
  {
    match o.direction
    case Buy => pos + o.volume
    case Cover => pos + o.volume
    case Sell => pos - o.volume
    case Short => pos - o.volume
  }

  /** What `sendOcoOrder` leaves behind: the two intents and the tracked ids. */
  datatype Oco = Oco(intents: seq<Intent>, orderList: seq<OrderId>,
                     buyOrderId: OrderId, shortOrderId: OrderId)

  /** `sendOcoOrder`: a buy stop and a short stop of equal size, both ids
      appended to the tracked list.  (The cancel-the-other-leg-on-fill code of
      `onTrade` sits inside a string literal and never runs.) */
  function SendOco(orderList: seq<OrderId>, buyPrice: real, shortPrice: real, volume: nat,
                   buyId: OrderId, shortId: OrderId): (r: Oco)
    ensures |r.intents| == 2
    ensures r.intents[0].Send? && r.intents[1].Send?
    ensures r.intents[0].direction == Buy && r.intents[1].direction == Short
    ensures r.intents[0].volume == r.intents[1].volume == volume
    ensures r.intents[0].stop && r.intents[1].stop
    ensures r.intents[0].price == buyPrice && r.intents[1].price == shortPrice
    ensures |r.orderList| == |orderList| + 2 && r.orderList[..|orderList|] == orderList
    ensures buyId in r.orderList && shortId in r.orderList
    ensures r.buyOrderId == buyId && r.shortOrderId == shortId
  {
    Oco([Send(Buy, buyPrice, volume, true), Send(Short, shortPrice, volume, true)],
        orderList + [buyId, shortId], buyId, shortId)
  }

  /** Every tracked id gets its cancel request. */
  lemma TrackedIsCancelled(ids: seq<OrderId>, id: OrderId)
    requires id in ids
    ensures Cancel(id) in CancelEach(ids)
  {
    var i :| 0 <= i < |ids| && ids[i] == id;
    assert CancelEach(ids)[i] == Cancel(id);
  }
}
