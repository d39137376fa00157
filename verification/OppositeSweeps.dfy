/** One stop order waits on the side of the makers. Fired inside a turn, it takes from the other
    queue, may come to rest in the makers' own queue, and is there when the loop pops. */
module OppositeSweeps {
  import opened Orders
  import opened PriceQueues
  import opened Sums
  import opened Matching
  import opened FillLedger
  import opened SoundBooks
  import opened LevelSweep
  import opened NestedSweeps

  ghost predicate OneWaitsBehind(c: Core, o: Order, s: StopOrder) {
    && c.stops == [s] && !s.triggered && s.order.side == o.side.Opposite()
    && Sound(Bare(c)) && Taking(Bare(c), o)
  }

  // ---------- a loop leaves the taker's own side alone ----------

  lemma {:induction false} LoopKeepsOwnCells(c: Core, m: Market, o: Order, y: Order)
    requires Sound(c) && Taking(c, o) && y in c.book.Queue(o.side)
    ensures TakerLoop(c, m, o).core.Left(y) == c.Left(y)
    decreases |c.stops|, |c.Makers(o)|, if c.Left(o) > 0.0 then 1 else 0
  {
    if CanTrade(c, o) {
      var c1 := Iterated(c, m, o);
      IteratedSound(c, m, o);
      TurnedLeft(c, c1, o);
      OwnSide(c, o, y);
      assert c.book.Queued(y);
      LoopKeepsOwnCells(c1, m, o, y);
    }
  }

  /** For a taker, two books that differ on its own side alone are the same. */
  ghost predicate SameToTake(a: Core, b: Core, o: Order) {
    && a.Makers(o) == b.Makers(o) && a.table == b.table && a.stops == [] && b.stops == []
    && a.halted == b.halted && a.nextId == b.nextId
  }

  lemma SameTurn(a: Core, b: Core, m: Market, o: Order)
    requires SameToTake(a, b, o) && CanTrade(a, o)
    ensures CanTrade(b, o) && SameToTake(Iterated(a, m, o), Iterated(b, m, o), o)
    ensures Iterated(a, m, o).book.Queue(o.side) == a.book.Queue(o.side)
  {
    NoStopsIterated(a, m, o);
    NoStopsIterated(b, m, o);
    SameTraded(a, b, m, o);
    SamePopped(Traded(a, m, o), Traded(b, m, o), o, a.Makers(o)[0]);
  }

  lemma SameTraded(a: Core, b: Core, m: Market, o: Order)
    requires SameToTake(a, b, o) && CanTrade(a, o)
    ensures SameToTake(Traded(a, m, o), Traded(b, m, o), o) && Traded(a, m, o).book == a.book
  {
    var maker := a.Makers(o)[0];
    SameFilled(a, b, o, maker, NextTrade(a, o, maker));
  }

  lemma SameFilled(a: Core, b: Core, o: Order, maker: Order, t: Trade)
    requires a.table == b.table
    ensures Filled(a, o, maker, t).table == Filled(b, o, maker, t).table
  {
  }

  lemma SamePopped(a: Core, b: Core, o: Order, maker: Order)
    requires SameToTake(a, b, o)
    ensures SameToTake(PopIfDone(a, o.side.Opposite(), maker), PopIfDone(b, o.side.Opposite(), maker), o)
    ensures PopIfDone(a, o.side.Opposite(), maker).book.Queue(o.side) == a.book.Queue(o.side)
  {
    assert a.Left(maker) == b.Left(maker);
  }

  lemma {:induction false} LoopSame(a: Core, b: Core, m: Market, o: Order)
    requires SameToTake(a, b, o)
    ensures SameToTake(TakerLoop(a, m, o).core, TakerLoop(b, m, o).core, o)
    ensures TakerLoop(a, m, o).core.book.Queue(o.side) == a.book.Queue(o.side)
    decreases |a.Makers(o)|, if a.Left(o) > 0.0 then 1 else 0
  {
    if CanTrade(a, o) {
      SameTurn(a, b, m, o);
      LoopSame(Iterated(a, m, o), Iterated(b, m, o), m, o);
    }
  }

  // ---------- the root after a push ----------

  lemma {:induction false} SiftUpKeepsRoot(q: seq<Order>, j: nat)
    requires 0 < j < |q| && q[j].price <= q[0].price
    ensures SiftUp(q, j)[0] == q[0]
    decreases j
  {
    if Less(q[j], q[Parent(j)]) { SiftUpKeepsRoot(Swapped(q, Parent(j), j), Parent(j)); }
  }

  /** A pushed order becomes the root exactly when it is dearer than the root. */
  lemma PushedRoot(q: seq<Order>, x: Order)
    requires IsHeap(q) && q != []
    ensures Pushed(q, x)[0] == if x.price > q[0].price then x else q[0]
  {
    var r := Pushed(q, x);
    if x.price > q[0].price {
      PushCorrect(q, x);
      PushedQueued(q, x);
      RootIsDearest(r);
      RootIsDearest(q);
      assert x in r && r[0] in r;
    } else {
      assert (q + [x])[0] == q[0] && (q + [x])[|q|] == x;
      SiftUpKeepsRoot(q + [x], |q|);
    }
  }

  // ---------- the turn in which the stop order fires ----------

  /** The fired order gets something from the other queue, but not all it wants. */
  ghost predicate ComesToRest(c: Core, p: Order) { 0.0 < Reachable(c, p) < p.amount }

  /** What the fired order gets: an order without a positive amount takes nothing. */
  ghost function Gets(c: Core, p: Order): real { if p.amount > 0.0 then Min(p.amount, Reachable(c, p)) else 0.0 }

  /** The cells of the inner loop are those of a loop over the book that a stop-free turn left. */
  lemma InnerLoop(c: Core, m: Market, o: Order, s: StopOrder) returns (g: Core)
    requires OneWaitsBehind(c, o, s) && CanTrade(c, o)
    ensures var p := FiredOrder(c, s);
            && g == TakerLoop(InnerStart(c, m, o, s), m, p).core
            && !g.halted && g.stops == [] && Known(g, p) && !QueuedId(Bare(c), p.id)
            && g.Makers(o) == c.Makers(o)
            && g.Left(p) == p.amount - Gets(c, p)
            && g.Left(c.Makers(o)[0]) == c.Left(c.Makers(o)[0]) - TurnTakes(c, o)
  {
    var b, e, p := Bare(c), InnerStart(c, m, o, s), FiredOrder(c, s);
    StartCells(c, m, o, s);
    if p.amount <= 0.0 {
      NotYetQueued(b, p);
      return TakerLoop(e, m, p).core;
    }
    var t := Iterated(b, m, o);
    IteratedSound(b, m, o);
    NoStopsIterated(b, m, o);
    var d := Entered(t.(nextId := p.id), p);
    StartIsSame(c, o, t, e, d, p, Traded(b, m, o));
    g := TakerLoop(e, m, p).core;
    LoopSame(e, d, m, p);
    LoopTotal(d, m, p);
    LoopSound(d, m, p);
    RootUntouched(b, m, o, t, d, p);
  }

  lemma StartIsSame(c: Core, o: Order, t: Core, e: Core, d: Core, p: Order, c1: Core)
    requires Sound(Bare(c)) && Taking(Bare(c), o) && CanTrade(c, o) && p.side == o.side.Opposite() && p.amount > 0.0
    requires Sound(t) && Taking(t, o) && Turned(Bare(c), t, o) && t == PopIfDone(c1, o.side.Opposite(), c.Makers(o)[0])
    requires e.book == c1.book == c.book && e.table == c1.table[p.id := Cell(p, p.amount, Pending)]
    requires e.stops == c1.stops == [] && !c1.halted && !e.halted && c1.nextId + 1 == e.nextId == p.id
    requires d == Entered(t.(nextId := p.id), p)
    ensures SameToTake(e, d, p) && Sound(d) && Taking(d, p) && d.Left(p) == p.amount
    ensures Reachable(d, p) == Reachable(c, p) && !QueuedId(Bare(c), p.id)
  {
    assert t.(nextId := p.id).(ledger := t.ledger) == t.(nextId := p.id);
    EnteredSound(t, t.ledger, p);
    OtherReach(Bare(c), o, t, d, p);
    NotYetQueued(Bare(c), p);
  }

  /** The queue on the taker's own side offers what it offered before the turn. */
  lemma OtherReach(c: Core, o: Order, t: Core, d: Core, p: Order)
    requires Sound(c) && Taking(c, o) && CanTrade(c, o) && Turned(c, t, o) && p.side == o.side.Opposite()
    requires p.id > c.nextId && d == Entered(t.(nextId := p.id), p)
    ensures Reachable(d, p) == Reachable(c, p)
  {
    var w := if p.side.Ask? then WithinLimit(p) else Anywhere();
    var q, f, g := c.Makers(p), WeightIf(c.table, w), WeightIf(d.table, w);
    TurnedLeft(c, t, o);
    forall x | x in q ensures f(x) == g(x) {
      OwnSide(c, o, x);
      assert c.book.Queued(x) && Resting(c, x, o.side);
      assert LeftIn(d.table, x) == LeftIn(c.table, x);
    }
    TotalSame(q, f, g);
  }

  lemma NotYetQueued(b: Core, p: Order)
    requires Sound(b) && p.id > b.nextId
    ensures !QueuedId(b, p.id)
  {
    forall x | b.book.Queued(x) ensures x.id <= b.nextId { assert Resting(b, x, Ask) || Resting(b, x, Bid); }
  }

  /** The root maker stays as the trade left it. */
  lemma RootUntouched(c: Core, m: Market, o: Order, t: Core, d: Core, p: Order)
    requires Sound(c) && Taking(c, o) && CanTrade(c, o) && Turned(c, t, o) && Sound(t)
    requires p.side == o.side.Opposite() && p.id == t.nextId + 1 && d == Entered(t.(nextId := p.id), p)
    requires Sound(d) && Taking(d, p)
    ensures TakerLoop(d, m, p).core.Left(c.Makers(o)[0]) == c.Left(c.Makers(o)[0]) - TurnTakes(c, o)
  {
    var root := c.Makers(o)[0];
    TurnedLeft(c, t, o);
    assert Resting(c, root, o.side.Opposite());
    if root in t.Makers(o) {
      LoopKeepsOwnCells(d, m, p, root);
    } else {
      PoppedIsDone(c, t, o, root);
      assert !QueuedId(d, root.id) && root.id in d.table;
      LoopApart(d, m, p);
    }
  }

  lemma RestedBehind(g: Core, p: Order, o: Order)
    requires p.side == o.side.Opposite() && Known(g, p) && !g.halted
    ensures var c2 := Rested(g, p);
            && !c2.halted && c2.stops == g.stops && (forall y: Order :: c2.Left(y) == g.Left(y))
            && c2.Makers(o) == if 0.0 < g.Left(p) < p.amount then Pushed(g.Makers(o), p) else g.Makers(o)
  {
  }

  lemma PopBehind(c2: Core, o: Order, root: Order)
    requires c2.Makers(o) != [] && !c2.halted
    ensures var c' := PopIfDone(c2, o.side.Opposite(), root);
            && !c'.halted && c'.stops == c2.stops && (forall y: Order :: c'.Left(y) == c2.Left(y))
            && c'.Makers(o) == if c2.Left(root) <= 0.0 then Popped(c2.Makers(o)) else c2.Makers(o)
  {
  }

  /** The pop after the fired order has come to rest among the makers. */
  lemma PushThenPop(q: seq<Order>, p: Order)
    requires IsHeap(q) && Once(q) && q != [] && p !in q
    ensures forall y :: y in Popped(Pushed(q, p)) <==>
              if p.price > q[0].price then y in q else (y in q && y != q[0]) || y == p
    ensures Once(Popped(Pushed(q, p)))
  {
    PushedOnce(q, p);
    PushedRoot(q, p);
    assert p in Pushed(q, p);
    PoppedMembers(Pushed(q, p));
    assert q[0] in q;
  }

  /** The fired order rests dearer than a root that this turn fills: the pop takes it instead. */
  ghost predicate PopsFired(c: Core, o: Order, p: Order)
    requires c.Makers(o) != []
  {
    ComesToRest(c, p) && c.Left(c.Makers(o)[0]) <= c.Left(o) && p.price > c.Makers(o)[0].price
  }

  /** Who is queued after the turn. */
  ghost predicate QueuedAfter(c: Core, o: Order, p: Order, y: Order)
    requires c.Makers(o) != []
  {
    if PopsFired(c, o, p) then y in c.Makers(o)
    else || (y in c.Makers(o) && !(y == c.Makers(o)[0] && c.Left(y) <= c.Left(o)))
         || (y == p && ComesToRest(c, p))
  }

  /** One turn with a stop order waiting on the side of the makers. It never panics. The fired
      order takes from the other queue; when it comes to rest dearer than a root that the turn
      filled, the pop drops it and leaves the filled root queued. Otherwise the queue loses the
      root if that is filled and gains the fired order if that rests. */
  lemma OppositeTurn(c: Core, m: Market, o: Order, s: StopOrder)
    requires OneWaitsBehind(c, o, s) && CanTrade(c, o) && Eligible(s, c.Makers(o)[0].price)
    ensures var c', p, root := Iterated(c, m, o), FiredOrder(c, s), c.Makers(o)[0];
            && !c'.halted
            && c'.Left(p) == p.amount - Gets(c, p)
            && c'.Left(root) == c.Left(root) - TurnTakes(c, o)
            && c'.stops == [] && Once(c'.Makers(o))
            && forall y :: y in c'.Makers(o) <==> QueuedAfter(c, o, p, y)
  {
    var p := FiredOrder(c, s);
    var g := InnerLoop(c, m, o, s);
    SweptAsInner(c, m, o, s);
    QueueOnce(Bare(c), o, p);
    RestThenPop(c, g, o, p);
  }

  lemma RestThenPop(c: Core, g: Core, o: Order, p: Order)
    requires CanTrade(c, o) && p.side == o.side.Opposite() && Known(g, p) && !g.halted && g.Makers(o) == c.Makers(o)
    requires IsHeap(c.Makers(o)) && Once(c.Makers(o)) && p !in c.Makers(o)
    requires g.Left(p) == p.amount - Gets(c, p)
    requires g.Left(c.Makers(o)[0]) == c.Left(c.Makers(o)[0]) - TurnTakes(c, o)
    ensures var c' := PopIfDone(Rested(g, p), o.side.Opposite(), c.Makers(o)[0]);
            && !c'.halted && c'.stops == g.stops && (forall y: Order :: c'.Left(y) == g.Left(y))
            && Once(c'.Makers(o)) && forall y :: y in c'.Makers(o) <==> QueuedAfter(c, o, p, y)
  {
    var root, q := c.Makers(o)[0], c.Makers(o);
    RestedBehind(g, p, o);
    if ComesToRest(c, p) {
      PushThenPop(q, p);
      PushedOnce(q, p);
    }
    PoppedMembers(q);
    PopBehind(Rested(g, p), o, root);
  }

  lemma QueueOnce(b: Core, o: Order, p: Order)
    requires Sound(b) && !QueuedId(b, p.id)
    ensures IsHeap(b.Makers(o)) && Once(b.Makers(o)) && p !in b.Makers(o)
  {
    assert QueueSound(b, o.side.Opposite());
    assert p in b.Makers(o) ==> b.book.Queued(p);
  }

  /** Over an uncrossed book that happens to an ask taker, and to no bid taker. */
  lemma PopsFiredIff(c: Core, o: Order, p: Order)
    requires Sound(Bare(c)) && Uncrossed(c.book) && c.Makers(o) != [] && p.side == o.side.Opposite()
    ensures PopsFired(c, o, p) <==>
            o.side == Ask && ComesToRest(c, p) && c.Left(c.Makers(o)[0]) <= c.Left(o)
  {
    var b, root := Bare(c), c.Makers(o)[0];
    assert root in c.Makers(o);
    if ComesToRest(c, p) {
      DepthNonNegative(b, o.side, if p.side.Ask? then WithinLimit(p) else Anywhere());
      assert Reachable(b, p) == Reachable(c, p);
    }
  }

  // ---------- the whole loop ----------

  /** No two makers share an ID, and none has the taker's. */
  ghost predicate Named(c: Core, o: Order) {
    && Once(c.Makers(o))
    && (forall y, z :: y in c.Makers(o) && z in c.Makers(o) && y.id == z.id ==> y == z)
    && forall y :: y in c.Makers(o) ==> y.id != o.id
  }

  lemma NamedTurn(c: Core, m: Market, o: Order, y: Order)
    requires c.stops == [] && CanTrade(c, o) && Named(c, o) && y in c.Makers(o)
    ensures var c' := Iterated(c, m, o);
            && c'.stops == [] && !c'.halted && Named(c', o)
            && (y !in c'.Makers(o) ==> c'.Left(y) <= 0.0 && Gone(c', o, y))
  {
    var root := c.Makers(o)[0];
    assert root in c.Makers(o);
    NoStopsIterated(c, m, o);
    TradedShape(c, m, o);
    PoppedMembers(c.Makers(o));
    PopKeepsRest(Traded(c, m, o), o, root);
  }

  lemma PopKeepsRest(c: Core, o: Order, root: Order)
    requires c.Makers(o) != [] && root == c.Makers(o)[0]
    ensures var c' := PopIfDone(c, o.side.Opposite(), root);
            && c'.table == c.table && c'.stops == c.stops && c'.halted == c.halted
            && c'.Makers(o) == if c.Left(root) <= 0.0 then Popped(c.Makers(o)) else c.Makers(o)
  {
  }

  /** In a stop-free loop a maker leaves the queue only with nothing left. */
  lemma {:induction false} NamedLeavesDone(c: Core, m: Market, o: Order, y: Order)
    requires c.stops == [] && !c.halted && Named(c, o) && y in c.Makers(o)
    ensures var e := TakerLoop(c, m, o).core; y !in e.Makers(o) ==> e.Left(y) <= 0.0
    decreases |c.Makers(o)|, if c.Left(o) > 0.0 then 1 else 0
  {
    if CanTrade(c, o) {
      var c1 := Iterated(c, m, o);
      NamedTurn(c, m, o, y);
      if y in c1.Makers(o) { NamedLeavesDone(c1, m, o, y); } else { GoneForGood(c1, m, o, y); }
    }
  }

  /** The fired order was left out of the queue with something left. */
  predicate Dropped(e: Core, o: Order, p: Order) { p !in e.Makers(o) && e.Left(p) > 0.0 }

  lemma NamedAfter(c: Core, c': Core, o: Order, p: Order)
    requires Sound(Bare(c)) && Taking(Bare(c), o) && CanTrade(c, o) && p.id > c.nextId
    requires Once(c'.Makers(o)) && forall y :: y in c'.Makers(o) ==> y in c.Makers(o) || y == p
    ensures Named(c', o)
  {
    var b := Bare(c);
    forall y | y in c.Makers(o) ensures y.id <= c.nextId && y.id != o.id && Known(c, y) {
      assert Resting(b, y, o.side.Opposite()) && b.book.Queued(y) && QueuedId(b, y.id);
    }
  }

  lemma LoopBehind(c: Core, m: Market, o: Order, s: StopOrder)
    requires OneWaitsBehind(c, o, s) && (CanTrade(c, o) ==> Eligible(s, c.Makers(o)[0].price))
    ensures var e, p := TakerLoop(c, m, o).core, FiredOrder(c, s);
            && !e.halted
            && (CanTrade(c, o) && ComesToRest(c, p) ==> (Dropped(e, o, p) <==> PopsFired(c, o, p)))
  {
    if CanTrade(c, o) {
      var c', p := Iterated(c, m, o), FiredOrder(c, s);
      OppositeTurn(c, m, o, s);
      StopFreeNeverPanics(c', m, o);
      NamedAfter(c, c', o, p);
      if ComesToRest(c, p) {
        NotYetQueued(Bare(c), p);
        if PopsFired(c, o, p) {
          DroppedIsGone(c, c', o, p);
          GoneForGood(c', m, o, p);
        } else {
          NamedLeavesDone(c', m, o, p);
        }
      }
    }
  }

  lemma DroppedIsGone(c: Core, c': Core, o: Order, p: Order)
    requires Sound(Bare(c)) && Taking(Bare(c), o) && p.id > c.nextId && c'.stops == [] && !c'.halted && Named(c', o)
    requires forall y :: y in c'.Makers(o) ==> y in c.Makers(o)
    ensures Gone(c', o, p)
  {
    forall y | y in c'.Makers(o) ensures y.id != p.id { assert Resting(Bare(c), y, o.side.Opposite()); }
  }

  /** The whole loop, whatever stop-free turns come before the stop order fires: it never panics,
      and it drops a fired order that came to rest exactly when that turn pops it. */
  lemma {:induction false} OppositeLoop(c: Core, m: Market, o: Order, s: StopOrder)
    requires OneWaitsBehind(c, o, s)
    ensures BehindDecidedAt(MetWith(c, m, o, s), TakerLoop(c, m, o).core, o, s)
    decreases |c.Makers(o)|, if c.Left(o) > 0.0 then 1 else 0
  {
    if CanTrade(c, o) && !Eligible(s, c.Makers(o)[0].price) {
      MissedTurn(c, m, o, s);
      IteratedSound(Bare(c), m, o);
      OppositeLoop(Iterated(c, m, o), m, o, s);
      MetLater(c, m, o, s);
    } else {
      LoopBehind(c, m, o, s);
      MetNow(c, m, o, s);
    }
  }

  /** `e` is where a loop ends whose stop order fired at `d`. */
  ghost predicate BehindDecidedAt(d: Core, e: Core, o: Order, s: StopOrder) {
    && OneWaitsBehind(d, o, s) && !e.halted
    && (CanTrade(d, o) && ComesToRest(d, FiredOrder(d, s)) ==>
          (Dropped(e, o, FiredOrder(d, s)) <==> PopsFired(d, o, FiredOrder(d, s))))
  }
}
