/** `OrderBook`: the order map and the two price heaps of one market. */
module OrderBooks {
  import opened Orders
  import opened PriceQueues
  import opened Sums
  import opened Matching
  import opened LevelSweep

  class OrderBook {
    const bids: PriceQueue
    const asks: PriceQueue
    var orders: map<nat, Order>
    ghost const market: string

    ghost predicate Valid() {
      && bids.market == market && bids.side == Bid
      && asks.market == market && asks.side == Ask
    }

    ghost function View(): Book
      reads this, bids, asks
    {
      Book(bids.orders, asks.orders, orders)
    }

    constructor (ghost market: string)
      ensures Valid() && this.market == market && View() == EMPTY_BOOK && fresh(bids) && fresh(asks)
    {
      bids := new PriceQueue(market, Bid);
      asks := new PriceQueue(market, Ask);
      orders := map[];
      this.market := market;
    }

    method Add(o: Order)
      requires Valid()
      modifies this, bids, asks
      ensures View() == old(View()).WithQueue(o.side, Pushed(old(View()).Queue(o.side), o))
                                   .(live := old(orders)[o.id := o])
    {
      orders := orders[o.id := o];
      var pq := bids;
      if o.side == Ask { pq := asks; }
      pq.Push(o);
    }

    method Remove(orderId: nat)
      modifies this
      ensures orders == old(orders) - {orderId}
    {
      orders := orders - {orderId};
    }

    /** The root of the bid heap: a bid no other bid outprices. */
    method GetBestBid() returns (found: bool, o: Order)
      requires IsHeap(bids.orders)
      ensures found == (bids.orders != [])
      ensures found ==> o in bids.orders && forall b :: b in bids.orders ==> b.price <= o.price
    {
      if |bids.orders| == 0 { return false, Order(0, 0, "", Bid, 0.0, 0.0); }
      RootIsDearest(bids.orders);
      return true, bids.orders[0];
    }

    /** The root of the ask heap, which is the dearest ask. */
    method GetBestAsk() returns (found: bool, o: Order)
      requires IsHeap(asks.orders)
      ensures found == (asks.orders != [])
      ensures found ==> o in asks.orders && forall a :: a in asks.orders ==> a.price <= o.price
    {
      if |asks.orders| == 0 { return false, Order(0, 0, "", Ask, 0.0, 0.0); }
      RootIsDearest(asks.orders);
      return true, asks.orders[0];
    }

    /** What is left at each price of one queue, one level a price, in no particular order. */
    method GetDepth(side: Side, table: map<nat, Cell>) returns (result: seq<Level>)
      ensures IsDepth(result, View().Queue(side), table)
    {
      var pq := bids;
      if side == Ask { pq := asks; }
      var levels: map<real, real> := map[];
      var i := 0;
      while i < |pq.orders|
        invariant 0 <= i <= |pq.orders|
        invariant forall p :: p in levels <==> exists o :: o in pq.orders[..i] && o.price == p
        invariant forall p :: p in levels ==> levels[p] == Total(pq.orders[..i], WeightIf(table, At(p)))
      {
        var o := pq.orders[i];
        ghost var before := pq.orders[..i];
        ghost var old_levels := levels;
        levels := levels[o.price := (if o.price in levels then levels[o.price] else 0.0) + LeftIn(table, o)];
        assert pq.orders[..i + 1] == before + [o];
        forall p | p in levels ensures levels[p] == Total(before + [o], WeightIf(table, At(p))) {
          TotalSnoc(before, o, WeightIf(table, At(p)));
          if p !in old_levels { NothingAt(before, table, p); }
        }
        i := i + 1;
      }
      assert pq.orders[..i] == pq.orders;
      result := LevelList(levels);
      forall o | o in pq.orders ensures exists l :: l in result && l.price == o.price {
        assert Level(o.price, levels[o.price]) in result;
      }
    }

    /** The entries of the map, in whatever order the iteration takes. */
    static method LevelList(levels: map<real, real>) returns (result: seq<Level>)
      ensures forall l :: l in result <==> l.price in levels && l.amount == levels[l.price]
      ensures forall j, k :: 0 <= j < k < |result| ==> result[j].price != result[k].price
    {
      result := [];
      var rest := levels.Keys;
      while rest != {}
        invariant rest <= levels.Keys
        invariant forall l :: l in result <==> l.price in levels && l.price !in rest && l.amount == levels[l.price]
        invariant forall j, k :: 0 <= j < k < |result| ==> result[j].price != result[k].price
        decreases rest
      {
        ghost var some := SomeMember(rest);
        var p: real :| p in rest;
        result := result + [Level(p, levels[p])];
        rest := rest - {p};
      }
    }
  }

  lemma {:induction false} NothingAt(q: seq<Order>, table: map<nat, Cell>, p: real)
    requires forall o :: o in q ==> o.price != p
    ensures Total(q, WeightIf(table, At(p))) == 0.0
  {
    TotalSame(q, WeightIf(table, At(p)), (o: Order) => 0.0);
    TotalZero(q);
  }

  /** One level a price of the queue, holding what the orders at that price have left. */
  ghost predicate IsDepth(levels: seq<Level>, q: seq<Order>, table: map<nat, Cell>) {
    && (forall j, k :: 0 <= j < k < |levels| ==> levels[j].price != levels[k].price)
    && (forall l :: l in levels ==> l.amount == Total(q, WeightIf(table, At(l.price))))
    && (forall l :: l in levels ==> exists o :: o in q && o.price == l.price)
    && (forall o :: o in q ==> exists l :: l in levels && l.price == o.price)
  }

  /** Sorted from the top, the reported depth is what the highest-first walk walks over. */
  lemma SortedDepthAggregates(levels: seq<Level>, sorted: seq<Level>, c: Core, side: Side)
    requires IsDepth(levels, c.book.Queue(side), c.table)
    requires multiset(sorted) == multiset(levels)
    requires forall j, k :: 0 <= j < k < |sorted| ==> sorted[j].price >= sorted[k].price
    ensures Aggregates(sorted, c, side)
  {
    SameMembers(levels, sorted);
    StillDistinct(levels, sorted);
    forall o | o in c.book.Queue(side) ensures exists l :: l in sorted && l.price == o.price {
      var l :| l in levels && l.price == o.price;
      assert l in sorted;
    }
    assert forall l :: l in sorted ==> l.amount == Depth(c, side, At(l.price));
  }

  lemma SameMembers<T>(a: seq<T>, b: seq<T>)
    requires multiset(a) == multiset(b)
    ensures forall x :: x in a <==> x in b
  {
    forall x ensures x in a <==> x in b {
      assert x in a <==> x in multiset(a);
      assert x in b <==> x in multiset(b);
    }
  }

  lemma StillDistinct(levels: seq<Level>, sorted: seq<Level>)
    requires forall j, k :: 0 <= j < k < |levels| ==> levels[j].price != levels[k].price
    requires multiset(sorted) == multiset(levels)
    ensures forall j, k :: 0 <= j < k < |sorted| ==> sorted[j].price != sorted[k].price
  {
    SameMembers(levels, sorted);
    forall j, k | 0 <= j < k < |sorted| ensures sorted[j].price != sorted[k].price {
      assert sorted[j] in sorted && sorted[k] in sorted;
      var a :| 0 <= a < |levels| && levels[a] == sorted[j];
      OneCopy(levels, a);
      OccursOnce(sorted, j, k);
      var b :| 0 <= b < |levels| && levels[b] == sorted[k];
      assert a != b;
    }
  }

  lemma OccursOnce<T>(s: seq<T>, j: nat, k: nat)
    requires j < k < |s| && multiset(s)[s[j]] <= 1
    ensures s[j] != s[k]
  {
    assert s == s[..k] + s[k..];
    assert s[j] in s[..k] && s[k] in s[k..];
    assert multiset(s)[s[k]] == multiset(s[..k])[s[k]] + multiset(s[k..])[s[k]];
  }

  lemma OneCopy(levels: seq<Level>, a: nat)
    requires a < |levels| && forall i, j :: 0 <= i < j < |levels| ==> levels[i].price != levels[j].price
    ensures multiset(levels)[levels[a]] == 1
  {
    var x := levels[a];
    assert levels == levels[..a] + [x] + levels[a + 1..];
    assert x !in levels[..a] && x !in levels[a + 1..];
  }
}
