/** `StopManager`: the waiting stop orders of every market. */
module StopManagers {
  import opened Orders
  import opened Matching
  import opened Exchanges

  /** One turn of the check. */
  lemma CheckFrom(orders: seq<StopOrder>, i: nat, price: real, hit: seq<StopOrder>, missed: seq<StopOrder>)
    requires i < |orders|
    ensures var s := orders[i];
            && hit + Hit(orders[i..], price)
               == (if !s.triggered && Eligible(s, price) then hit + [s] else hit) + Hit(orders[i + 1..], price)
            && missed + Missed(orders[i..], price)
               == (if !s.triggered && !Eligible(s, price) then missed + [s] else missed)
                 + Missed(orders[i + 1..], price)
  {
    assert orders[i..][1..] == orders[i + 1..];
  }

  /** A removal cuts out the first stop order that carries the ID, and nothing where none does. */
  lemma {:induction false} WithoutStopCutsFirst(stops: seq<StopOrder>, id: nat) returns (i: nat)
    ensures i <= |stops| && (forall j :: 0 <= j < i ==> stops[j].order.id != id)
    ensures if i < |stops| then stops[i].order.id == id && WithoutStop(stops, id) == stops[..i] + stops[i + 1..]
            else WithoutStop(stops, id) == stops
  {
    if stops == [] || stops[0].order.id == id {
      i := 0;
    } else {
      i := WithoutStopCutsFirst(stops[1..], id);
      i := i + 1;
    }
  }

  /** The search loop of the removal. */
  method FirstWithId(orders: seq<StopOrder>, orderId: nat) returns (i: nat)
    ensures i <= |orders| && (i < |orders| <==> exists s :: s in orders && s.order.id == orderId)
    ensures forall j :: 0 <= j < i ==> orders[j].order.id != orderId
    ensures i < |orders| ==> orders[i].order.id == orderId
    ensures WithoutStop(orders, orderId) == if i < |orders| then orders[..i] + orders[i + 1..] else orders
  {
    i := 0;
    while i < |orders|
      invariant 0 <= i <= |orders|
      invariant forall j :: 0 <= j < i ==> orders[j].order.id != orderId
      invariant WithoutStop(orders, orderId) == orders[..i] + WithoutStop(orders[i..], orderId)
    {
      if orders[i].order.id == orderId { return; }
      i := i + 1;
    }
  }

  class StopManager {
    var stops: map<string, seq<StopOrder>>

    ghost function Of(market: string): seq<StopOrder>
      reads this
    {
      if market in stops then stops[market] else []
    }

    /** The markets that have stop orders waiting. */
    ghost function View(): map<string, seq<StopOrder>>
      reads this
    {
      map n | n in stops && stops[n] != [] :: stops[n]
    }

    ghost function ViewWith(market: string, rest: seq<StopOrder>): map<string, seq<StopOrder>>
      reads this
    {
      if rest == [] then View() - {market} else View()[market := rest]
    }

    lemma OfView(n: string)
      ensures Of(n) == if n in View() then View()[n] else []
    {
    }

    /** When no other market's queue differs from `was`, neither does the view. */
    lemma ViewAfter(was: map<string, seq<StopOrder>>, name: string)
      requires forall n :: n in was ==> was[n] != []
      requires forall n :: n != name ==> Of(n) == if n in was then was[n] else []
      ensures View() == if Of(name) == [] then was - {name} else was[name := Of(name)]
    {
      forall n
        ensures n in View() <==> Of(n) != []
      {
      }
    }

    constructor ()
      ensures stops == map[]
    {
      stops := map[];
    }

    method AddStopOrder(order: Order, triggerPrice: real)
      modifies this
      ensures Of(order.market) == old(Of(order.market)) + [StopOrder(order, triggerPrice, false)]
      ensures forall n :: n != order.market ==> Of(n) == old(Of(n))
      ensures View() == old(ViewWith(order.market, Of(order.market) + [StopOrder(order, triggerPrice, false)]))
    {
      var waiting := if order.market in stops then stops[order.market] else [];
      stops := stops[order.market := waiting + [StopOrder(order, triggerPrice, false)]];
    }

    method RemoveStopOrder(market: string, orderId: nat) returns (found: bool)
      modifies this
      ensures Of(market) == WithoutStop(old(Of(market)), orderId)
      ensures found <==> exists s :: s in old(Of(market)) && s.order.id == orderId
      ensures forall n :: n != market ==> Of(n) == old(Of(n))
      ensures View() == old(ViewWith(market, WithoutStop(Of(market), orderId)))
    {
      var orders := if market in stops then stops[market] else [];
      var i := FirstWithId(orders, orderId);
      found := i < |orders|;
      if found { stops := stops[market := orders[..i] + orders[i + 1..]]; }
    }

    /** Marks and takes out what the price triggers; keeps the rest in order. */
    method CheckStopOrders(market: string, lastPrice: real) returns (triggered: seq<Order>, ghost hit: seq<StopOrder>)
      modifies this
      ensures hit == Hit(old(Of(market)), lastPrice)
      ensures Of(market) == Missed(old(Of(market)), lastPrice)
      ensures forall s :: s in Of(market) ==>
                if s.order.side.Bid? then s.triggerPrice < lastPrice else s.triggerPrice > lastPrice
      ensures forall s :: s in hit ==>
                if s.order.side.Bid? then s.triggerPrice >= lastPrice else s.triggerPrice <= lastPrice
      ensures |triggered| == |hit| && forall i :: 0 <= i < |hit| ==> triggered[i] == hit[i].order
      ensures forall n :: n != market ==> Of(n) == old(Of(n))
    {
      var orders := if market in stops then stops[market] else [];
      var remaining: seq<StopOrder> := [];
      triggered, hit := [], [];
      var i := 0;
      while i < |orders|
        invariant 0 <= i <= |orders| && stops == old(stops)
        invariant Hit(orders, lastPrice) == hit + Hit(orders[i..], lastPrice)
        invariant Missed(orders, lastPrice) == remaining + Missed(orders[i..], lastPrice)
        invariant forall s :: s in remaining ==>
                    if s.order.side.Bid? then s.triggerPrice < lastPrice else s.triggerPrice > lastPrice
        invariant forall s :: s in hit ==>
                    if s.order.side.Bid? then s.triggerPrice >= lastPrice else s.triggerPrice <= lastPrice
        invariant |triggered| == |hit| && forall j :: 0 <= j < |hit| ==> triggered[j] == hit[j].order
      {
        var stop := orders[i];
        CheckFrom(orders, i, lastPrice, hit, remaining);
        if !stop.triggered {
          var shouldTrigger := false;
          if stop.order.side == Bid && lastPrice <= stop.triggerPrice {
            shouldTrigger := true;
          } else if stop.order.side == Ask && lastPrice >= stop.triggerPrice {
            shouldTrigger := true;
          }
          if shouldTrigger {
            triggered := triggered + [stop.order];
            hit := hit + [stop];
          } else {
            remaining := remaining + [stop];
          }
        }
        i := i + 1;
      }
      stops := stops[market := remaining];
    }
  }
}
