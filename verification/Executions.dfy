/** Which makers a taker meets, in which order, and how much each of them gives: all of it can be
    read off the book before the call. */
module Executions {
  import opened Orders
  import opened PriceQueues
  import opened Ledgers
  import opened Matching
  import opened SoundBooks
  import opened Acceptances

  /** What a taker gets from one maker. */
  datatype Fill = Fill(makerId: nat, userId: nat, price: real, amount: real)

  function FillOf(t: Trade): Fill { Fill(t.makerOrderId, t.makerUserId, t.price, t.amount) }

  function FillsOf(ts: seq<Trade>): seq<Fill> {
    if ts == [] then [] else [FillOf(ts[0])] + FillsOf(ts[1..])
  }

  /** Walking along a list of makers, each gives what it has until the taker is done or the next
      one is out of its reach. */
  function Fills(list: seq<Order>, table: map<nat, Cell>, o: Order, left: real): seq<Fill> {
    if list == [] || left <= 0.0 || OutOfReach(o, list[0]) then []
    else
      var x := Min(left, LeftIn(table, list[0]));
      [Fill(list[0].id, list[0].userId, list[0].price, x)] + Fills(list[1..], table, o, left - x)
  }

  lemma {:induction false} FillsSame(list: seq<Order>, a: map<nat, Cell>, b: map<nat, Cell>, o: Order, left: real)
    requires forall y :: y in list ==> LeftIn(a, y) == LeftIn(b, y)
    ensures Fills(list, a, o, left) == Fills(list, b, o, left)
  {
    if list != [] {
      assert list[0] in list && forall y :: y in list[1..] ==> y in list;
      FillsSame(list[1..], a, b, o, left - Min(left, LeftIn(a, list[0])));
    }
  }

  lemma DrainedMembers(q: seq<Order>)
    requires IsHeap(q)
    ensures forall y :: y in Drained(q) <==> y in q
  {
    DrainSorts(q);
    forall y ensures y in Drained(q) <==> y in q { assert y in multiset(Drained(q)) <==> y in multiset(q); }
  }

  /** A turn takes the head off the list, or leaves the taker with nothing to take. */
  lemma TurnedList(c: Core, c': Core, o: Order)
    requires Sound(c) && Taking(c, o) && CanTrade(c, o) && Turned(c, c', o)
    ensures var list, x := Drained(c.Makers(o)), Min(c.Left(o), c.Left(c.Makers(o)[0]));
            && list != [] && list[0] == c.Makers(o)[0]
            && (c'.Left(o) > 0.0 ==> Drained(c'.Makers(o)) == list[1..])
            && c'.Left(o) == c.Left(o) - x
            && forall y :: y in list[1..] ==> c'.Left(y) == c.Left(y)
  {
    var q := c.Makers(o);
    TurnedLeft(c, c', o);
    PopCorrect(q);
    PoppedMembers(q);
    DrainedMembers(Popped(q));
    assert Drained(q)[1..] == Drained(Popped(q));
    forall y | y in Drained(q)[1..] ensures c'.Left(y) == c.Left(y) {
      assert y in Popped(q) && y in q && y != q[0];
      assert c.book.Queued(y);
    }
  }

  /** One trade and the fills after it are the fills from the turn on. */
  lemma TurnFills(c: Core, c1: Core, o: Order, rest: seq<Trade>)
    requires Sound(c) && Taking(c, o) && CanTrade(c, o) && Turned(c, c1, o)
    requires FillsOf(rest) == Fills(Drained(c1.Makers(o)), c1.table, o, c1.Left(o))
    ensures FillsOf([NextTrade(c, o, c.Makers(o)[0])] + rest) == Fills(Drained(c.Makers(o)), c.table, o, c.Left(o))
  {
    TurnedList(c, c1, o);
    FillsStep(Drained(c.Makers(o)), Drained(c1.Makers(o)), c.table, c1.table, o, c.Left(o),
              NextTrade(c, o, c.Makers(o)[0]), rest);
  }

  /** The trades of a stop-free loop are the fills along the makers from the dearest down. */
  lemma {:induction false} LoopFillsInOrder(c: Core, m: Market, o: Order)
    requires Sound(c) && Taking(c, o)
    ensures FillsOf(TakerLoop(c, m, o).trades) == Fills(Drained(c.Makers(o)), c.table, o, c.Left(o))
    decreases |c.stops|, |c.Makers(o)|, if c.Left(o) > 0.0 then 1 else 0
  {
    if CanTrade(c, o) {
      var c1 := Iterated(c, m, o);
      IteratedSound(c, m, o);
      LoopFillsInOrder(c1, m, o);
      TurnFills(c, c1, o, TakerLoop(c1, m, o).trades);
    } else {
      NothingToFill(c, o);
    }
  }

  lemma NothingToFill(c: Core, o: Order)
    requires !c.halted && !CanTrade(c, o)
    ensures Fills(Drained(c.Makers(o)), c.table, o, c.Left(o)) == []
  {
  }

  /** `b` and `list1` are the cells and the makers after the trade `t` with the first of `list`. */
  lemma FillsStep(list: seq<Order>, list1: seq<Order>, a: map<nat, Cell>, b: map<nat, Cell>, o: Order, left: real,
                  t: Trade, rest: seq<Trade>)
    requires list != [] && left > 0.0 && !OutOfReach(o, list[0])
    requires FillOf(t) == Fill(list[0].id, list[0].userId, list[0].price, Min(left, LeftIn(a, list[0])))
    requires var left1 := left - Min(left, LeftIn(a, list[0]));
             FillsOf(rest) == Fills(list1, b, o, left1) && (left1 > 0.0 ==> list1 == list[1..])
    requires forall y :: y in list[1..] ==> LeftIn(b, y) == LeftIn(a, y)
    ensures FillsOf([t] + rest) == Fills(list, a, o, left)
  {
    assert ([t] + rest)[1..] == rest;
    FillsSame(list[1..], a, b, o, left - Min(left, LeftIn(a, list[0])));
  }

  lemma {:induction false} FillsFall(list: seq<Order>, table: map<nat, Cell>, o: Order, left: real)
    requires forall i, j :: 0 <= i < j < |list| ==> list[i].price >= list[j].price
    ensures var fs := Fills(list, table, o, left);
            && (fs != [] ==> list != [] && fs[0].price == list[0].price)
            && forall i, j :: 0 <= i < j < |fs| ==> fs[i].price >= fs[j].price
    ensures forall f :: f in Fills(list, table, o, left) ==> list != [] && f.price <= list[0].price
  {
    if list != [] && left > 0.0 && !OutOfReach(o, list[0]) {
      var x := Min(left, LeftIn(table, list[0]));
      var rest := Fills(list[1..], table, o, left - x);
      FillsFall(list[1..], table, o, left - x);
      forall f | f in rest ensures f.price <= list[0].price {}
      var fs := [Fill(list[0].id, list[0].userId, list[0].price, x)] + rest;
      forall i, j | 0 <= i < j < |fs| ensures fs[i].price >= fs[j].price { assert fs[j] == rest[j - 1]; }
    }
  }

  lemma {:induction false} FillsOfAt(ts: seq<Trade>, i: nat)
    requires i < |ts|
    ensures |FillsOf(ts)| == |ts| && FillsOf(ts)[i] == FillOf(ts[i])
  {
    if i > 0 { FillsOfAt(ts[1..], i - 1); } else if |ts| > 1 { FillsOfAt(ts[1..], 0); }
  }

  /** A loop executes in the order of falling prices, for a bid as for an ask. */
  lemma ExecutesInPriceOrder(c: Core, m: Market, o: Order)
    requires Sound(c) && Taking(c, o)
    ensures var ts := TakerLoop(c, m, o).trades;
            forall i, j :: 0 <= i < j < |ts| ==> ts[i].price >= ts[j].price
  {
    var ts := TakerLoop(c, m, o).trades;
    assert IsHeap(c.Makers(o)) by { assert QueueSound(c, o.side.Opposite()); }
    LoopFillsInOrder(c, m, o);
    DrainSorts(c.Makers(o));
    FillsFall(Drained(c.Makers(o)), c.table, o, c.Left(o));
    TradesFall(ts);
  }

  lemma TradesFall(ts: seq<Trade>)
    requires forall i, j :: 0 <= i < j < |FillsOf(ts)| ==> FillsOf(ts)[i].price >= FillsOf(ts)[j].price
    ensures forall i, j :: 0 <= i < j < |ts| ==> ts[i].price >= ts[j].price
  {
    forall i, j | 0 <= i < j < |ts| ensures ts[i].price >= ts[j].price {
      FillsOfAt(ts, i);
      FillsOfAt(ts, j);
    }
  }

  // ---------- what a trade says ----------

  /** The trade names the order that took, at a price within its limit, and each side's fee is a
      thousandth of the amount. */
  predicate TakenBy(t: Trade, o: Order) {
    && t.takerOrderId == o.id && t.takerUserId == o.userId && t.market == o.market && t.side == o.side
    && (if o.side.Bid? then t.price <= o.price else t.price >= o.price)
    && t.takerFee * 1000.0 == t.amount && t.makerFee * 1000.0 == t.amount
  }

  /** Every trade of a loop, whatever stop orders fire in between. */
  lemma {:induction false} LoopTakes(c: Core, m: Listing, o: Order)
    ensures forall t :: t in TakerLoop(c, m, o).trades ==> TakenBy(t, o)
    decreases |c.stops|, 2, |c.Makers(o)|, if c.Left(o) > 0.0 then 1 else 0
  {
    if CanTrade(c, o) {
      TradeTakes(c, o);
      LoopTakes(Iterated(c, m, o), m, o);
    }
  }

  lemma TradeTakes(c: Core, o: Order)
    requires CanTrade(c, o)
    ensures TakenBy(NextTrade(c, o, c.Makers(o)[0]), o)
  {
  }

  // ---------- from before the call ----------

  /** What an order would fill on this book. */
  ghost function Prospect(c: Core, o: Order): seq<Fill> { Fills(Drained(c.Makers(o)), c.table, o, o.amount) }

  lemma EnteredProspect(c: Core, l: Ledger, o: Order)
    requires Sound(c) && o.id == c.nextId + 1 && o.amount > 0.0
    ensures var c1 := Entered(c.(nextId := o.id).(ledger := l), o);
            Fills(Drained(c1.Makers(o)), c1.table, o, c1.Left(o)) == Prospect(c, o)
  {
    var c1, list := Entered(c.(nextId := o.id).(ledger := l), o), Drained(c.Makers(o));
    assert QueueSound(c, o.side.Opposite());
    DrainedMembers(c.Makers(o));
    forall y | y in list ensures LeftIn(c.table, y) == LeftIn(c1.table, y) {
      assert Resting(c, y, o.side.Opposite());
    }
    FillsSame(list, c.table, c1.table, o, o.amount);
  }

  /** The trades of an affordable limit order are what the book promised. */
  lemma PlaceFillsProspect(c: Core, m: Market, o: Order)
    requires Sound(c) && Fresh(c, o)
    ensures var reply := Place(c.(nextId := o.id), m, o).1;
            Affordable(c.ledger, m, o) ==> reply.Accepted? && FillsOf(reply.trades) == Prospect(c, o)
  {
    PlaceAcceptedIff(c.(nextId := o.id), m, o);
    match Freeze(c.ledger, LockAcct(m, o), Need(o, o.amount))
    case Refused(_) =>
    case Done(l) =>
      var c1 := Entered(c.(nextId := o.id).(ledger := l), o);
      EnteredSound(c, l, o);
      EnteredProspect(c, l, o);
      LoopFillsInOrder(c1, m, o);
  }
}
