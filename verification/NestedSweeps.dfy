/** One stop order waits on the taker's side of a sound book. Its sweep runs inside the turn
    that triggers it, between the trade and the pop of the maker, and takes from the same
    queue. What that does to the turn, and to the loop around it. */
module NestedSweeps {
  import opened Orders
  import opened PriceQueues
  import opened Sums
  import opened Matching
  import opened FillLedger
  import opened SoundBooks
  import opened Solvency
  import opened LevelSweep
  import opened StopSweeps

  // ---------- what a stop-free loop leaves of its makers ----------

  ghost predicate AllReached(c: Core, o: Order, p: Order) { forall b :: b in c.Makers(o) ==> !OutOfReach(p, b) }

  ghost function Offered(c: Core, o: Order): real { Depth(c, o.side.Opposite(), Anywhere()) }

  /** A taker empties the queue exactly when it wants all of it and reaches every maker. */
  lemma {:induction false} EmptiesIff(c: Core, m: Market, o: Order)
    requires Sound(c) && Taking(c, o)
    ensures TakerLoop(c, m, o).core.Makers(o) == [] <==> c.Left(o) >= Offered(c, o) && AllReached(c, o, o)
    decreases |c.stops|, |c.Makers(o)|, if c.Left(o) > 0.0 then 1 else 0
  {
    if CanTrade(c, o) {
      var c1 := Iterated(c, m, o);
      IteratedSound(c, m, o);
      IteratedLeft(c, m, o);
      EmptiesIff(c1, m, o);
      TurnedDepth(c, c1, o, Anywhere());
      TurnedReach(c, c1, o, o);
    } else if c.Makers(o) != [] {
      assert c.Makers(o)[0] in c.Makers(o);
      DepthNonNegative(c, o.side.Opposite(), Anywhere());
      assert Resting(c, c.Makers(o)[0], o.side.Opposite());
    }
  }

  lemma TurnedReach(c: Core, c': Core, o: Order, p: Order)
    requires Sound(c) && Taking(c, o) && CanTrade(c, o) && Turned(c, c', o) && !OutOfReach(p, c.Makers(o)[0])
    ensures AllReached(c', o, p) <==> AllReached(c, o, p)
  {
    PoppedMembers(c.Makers(o));
  }

  /** A maker leaves the queue only with nothing left. */
  lemma {:induction false} LeavesDone(c: Core, m: Market, o: Order, b: Order)
    requires Sound(c) && Taking(c, o) && b in c.Makers(o)
    ensures var c' := TakerLoop(c, m, o).core; b !in c'.Makers(o) ==> c'.Left(b) == 0.0
    decreases |c.stops|, |c.Makers(o)|, if c.Left(o) > 0.0 then 1 else 0
  {
    if CanTrade(c, o) {
      var c1 := Iterated(c, m, o);
      IteratedSound(c, m, o);
      if b in c1.Makers(o) {
        LeavesDone(c1, m, o, b);
      } else {
        PoppedIsDone(c, c1, o, b);
        LoopApart(c1, m, o);
      }
    }
  }

  /** A maker that a turn takes out of the queue has nothing left and is nobody's maker any more. */
  lemma PoppedIsDone(c: Core, c': Core, o: Order, b: Order)
    requires Sound(c) && Taking(c, o) && CanTrade(c, o) && Turned(c, c', o)
    requires b in c.Makers(o) && b !in c'.Makers(o)
    ensures b == c.Makers(o)[0] && b.id in c'.table && c'.Left(b) == 0.0 && b.id != o.id && !QueuedId(c', b.id)
  {
    PoppedMembers(c.Makers(o));
    TurnedLeft(c, c', o);
    assert c.book.Queued(b);
    forall p | c'.book.Queued(p) ensures p.id != b.id {
      assert c.book.Queued(p) && p != b by {
        assert p in c'.book.Queue(o.side) ==> p in c.book.Queue(o.side);
        OwnSide(c, o, p);
      }
    }
  }

  lemma OwnSide(c: Core, o: Order, p: Order)
    requires Sound(c)
    ensures p in c.book.Queue(o.side) ==> p !in c.Makers(o)
  {
    if p in c.book.Queue(o.side) { assert p.side == o.side by { assert Resting(c, p, o.side); } }
    if p in c.Makers(o) { assert p.side == o.side.Opposite() by { assert Resting(c, p, o.side.Opposite()); } }
  }

  /** The root maker is filled exactly when the taker wants at least all of it; otherwise the
      loop is that one trade. */
  lemma RootFilledIff(c: Core, m: Market, o: Order)
    requires Sound(c) && Taking(c, o) && CanTrade(c, o)
    ensures var c', root := TakerLoop(c, m, o).core, c.Makers(o)[0];
            if c.Left(o) >= c.Left(root) then c'.Left(root) == 0.0
            else c'.book == c.book && c'.Left(root) == c.Left(root) - c.Left(o) && c'.Left(o) == 0.0
  {
    var c1, root := Iterated(c, m, o), c.Makers(o)[0];
    IteratedSound(c, m, o);
    TurnedLeft(c, c1, o);
    if c.Left(o) >= c.Left(root) {
      PoppedMembers(c.Makers(o));
      PoppedIsDone(c, c1, o, root);
      LoopApart(c1, m, o);
    }
  }

  // ---------- the turn in which the stop order fires ----------

  function Bare(c: Core): Core { c.(stops := []) }

  /** A book that is sound apart from one stop order waiting on the taker's side. */
  ghost predicate OneWaits(c: Core, o: Order, s: StopOrder) {
    && c.stops == [s] && !s.triggered && s.order.side == o.side
    && Sound(Bare(c)) && Taking(Bare(c), o)
  }

  /** The stop order fires on a trade with the root maker and can trade with it itself. */
  predicate JoinsIn(c: Core, o: Order, s: StopOrder)
    requires c.Makers(o) != []
  {
    Eligible(s, c.Makers(o)[0].price) && s.order.amount > 0.0 && !OutOfReach(s.order, c.Makers(o)[0])
  }

  /** What the trade of this turn takes. */
  function TurnTakes(c: Core, o: Order): real
    requires c.Makers(o) != []
  {
    Min(c.Left(o), c.Left(c.Makers(o)[0]))
  }

  /** The stop list is read by the sweep alone. */
  lemma TradedBare(c: Core, m: Market, o: Order)
    requires c.Makers(o) != []
    ensures Traded(Bare(c), m, o) == Bare(Traded(c, m, o))
  {
    var maker := c.Makers(o)[0];
    var t := NextTrade(c, o, maker);
    FilledBare(c, o, maker, t);
    RecordedBare(Filled(c, o, maker, t), t);
    PaidBare(Recorded(Filled(c, o, maker, t), t), m, t);
  }

  lemma FilledBare(c: Core, o: Order, maker: Order, t: Trade)
    ensures Filled(Bare(c), o, maker, t) == Bare(Filled(c, o, maker, t))
  {
  }

  lemma RecordedBare(c: Core, t: Trade)
    ensures Recorded(Bare(c), t) == Bare(Recorded(c, t))
  {
  }

  lemma PaidBare(c: Core, m: Market, t: Trade)
    ensures Paid(Bare(c), m, t) == Bare(Paid(c, m, t))
  {
  }

  /** A stop order that the price does not make eligible: the turn is the stop-free one. */
  lemma MissedTurn(c: Core, m: Market, o: Order, s: StopOrder)
    requires c.stops == [s] && !s.triggered && CanTrade(c, o) && !Eligible(s, c.Makers(o)[0].price)
    ensures Iterated(c, m, o).stops == [s] && Bare(Iterated(c, m, o)) == Iterated(Bare(c), m, o)
  {
    var c1, maker := Traded(c, m, o), c.Makers(o)[0];
    TradedBare(c, m, o);
    NoStopsIterated(Bare(c), m, o);
    OneMissed(s, maker.price);
    assert c1.stops == [s];
    assert c1.journal.fired + [] == c1.journal.fired;
    assert Swept(c1, m, maker.price) == c1;
  }

  lemma OneMissed(s: StopOrder, price: real)
    requires !s.triggered && !Eligible(s, price)
    ensures Hit([s], price) == [] && Missed([s], price) == [s]
  {
    assert [s][1..] == [];
  }

  /** The same book and cells, at a later counter. */
  ghost predicate Like(a: Core, b: Core) {
    a.book == b.book && a.table == b.table && a.stops == b.stops && a.halted == b.halted && a.nextId >= b.nextId
  }

  lemma LikeSound(a: Core, b: Core, p: Order)
    requires Like(a, b) && Sound(b) && Taking(b, p)
    ensures Sound(a) && Taking(a, p)
  {
    forall x, side | x in a.book.Queue(side) ensures Resting(a, x, side) { assert Resting(b, x, side); }
    assert forall id :: QueuedId(a, id) == QueuedId(b, id);
  }

  /** The fired order, and where its loop starts. */
  function FiredOrder(c: Core, s: StopOrder): Order { s.order.(id := c.nextId + 2) }

  function InnerStart(c: Core, m: Market, o: Order, s: StopOrder): Core
    requires c.Makers(o) != []
  {
    var c1, p := Traded(c, m, o), FiredOrder(c, s);
    Entered(c1.(stops := [], journal := c1.journal.(fired := c1.journal.fired + [s]), nextId := p.id), p)
  }

  lemma SweptAsInner(c: Core, m: Market, o: Order, s: StopOrder)
    requires c.stops == [s] && !s.triggered && CanTrade(c, o) && Eligible(s, c.Makers(o)[0].price)
    ensures var p := FiredOrder(c, s);
            Swept(Traded(c, m, o), m, c.Makers(o)[0].price) == Rested(TakerLoop(InnerStart(c, m, o, s), m, p).core, p)
  {
    var c1 := Traded(c, m, o);
    SweptByOne(c1, m, c.Makers(o)[0].price, s);
  }

  /** The inner loop, after the turn that finds a root with nothing left, runs over the book
      that a stop-free turn would have left, with the fired order as taker. */
  lemma InnerIsSound(c: Core, m: Market, o: Order, s: StopOrder) returns (f: Core)
    requires OneWaits(c, o, s) && CanTrade(c, o) && JoinsIn(c, o, s)
    ensures var p := FiredOrder(c, s);
            && TakerLoop(InnerStart(c, m, o, s), m, p).core == TakerLoop(f, m, p).core
            && p.id == Iterated(Bare(c), m, o).nextId + 1
            && Like(f, Entered(Iterated(Bare(c), m, o).(nextId := p.id), p))
  {
    var e, p, b, root := InnerStart(c, m, o, s), FiredOrder(c, s), Bare(c), c.Makers(o)[0];
    NoStopsIterated(b, m, o);
    InnerCells(c, m, o, s);
    if c.Left(root) > TurnTakes(c, o) {
      f := e;
    } else {
      f := Iterated(e, m, p);
      ZeroTurn(c, m, o, s);
    }
  }

  /** A turn with a root that has nothing left only takes that root out. */
  lemma ZeroTrade(e: Core, m: Market, p: Order)
    requires e.stops == [] && CanTrade(e, p) && Known(e, p)
    requires var root := e.Makers(p)[0]; Known(e, root) && root.id != p.id && e.Left(root) == 0.0
    ensures var e', root := Iterated(e, m, p), e.Makers(p)[0];
            && e'.book == PopMaker(e, p.side.Opposite(), root).book
            && e'.table == e.table && e'.stops == [] && !e'.halted && e'.nextId == e.nextId + 1
  {
    var root := e.Makers(p)[0];
    NoStopsIterated(e, m, p);
    TradedShape(e, m, p);
    ZeroCells(e, Traded(e, m, p), p, root);
  }

  lemma ZeroCells(e: Core, e1: Core, p: Order, root: Order)
    requires Known(e, p) && Known(e, root) && root.id != p.id && e.Left(root) == 0.0 && e.Left(p) > 0.0
    requires e1.table == e.table[p.id := Cell(p, e.Left(p) - Min(e.Left(p), e.Left(root)), e.Status(p))]
                                [root.id := Cell(root, e.Left(root) - Min(e.Left(p), e.Left(root)), e.Status(root))]
    ensures e1.table == e.table && e1.Left(root) == 0.0
  {
  }

  lemma ZeroTurn(c: Core, m: Market, o: Order, s: StopOrder)
    requires OneWaits(c, o, s) && CanTrade(c, o) && JoinsIn(c, o, s)
    requires c.Left(c.Makers(o)[0]) <= TurnTakes(c, o)
    ensures var e, p := InnerStart(c, m, o, s), FiredOrder(c, s);
            CanTrade(e, p) && Like(Iterated(e, m, p), Entered(Iterated(Bare(c), m, o).(nextId := p.id), p))
  {
    var e, p, b, root := InnerStart(c, m, o, s), FiredOrder(c, s), Bare(c), c.Makers(o)[0];
    InnerCells(c, m, o, s);
    NoStopsIterated(b, m, o);
    ZeroTrade(e, m, p);
  }

  /** Where the fired order starts, whatever its side. */
  lemma StartCells(c: Core, m: Market, o: Order, s: StopOrder)
    requires Sound(Bare(c)) && Taking(Bare(c), o) && CanTrade(c, o)
    ensures var e, p, root, c1 := InnerStart(c, m, o, s), FiredOrder(c, s), c.Makers(o)[0], Traded(Bare(c), m, o);
            && root.id != p.id && Known(e, p) && Known(e, root) && e.Left(p) == p.amount && !e.halted
            && e.Left(root) == c1.Left(root) == c.Left(root) - TurnTakes(c, o)
            && e.book == c1.book == c.book && e.table == c1.table[p.id := Cell(p, p.amount, Pending)]
            && e.stops == c1.stops == [] && !c1.halted && c1.nextId + 1 == e.nextId == p.id
  {
    var b, root := Bare(c), c.Makers(o)[0];
    TradedBare(c, m, o);
    assert Resting(b, root, o.side.Opposite()) && QueuedId(b, root.id);
    TradedShape(b, m, o);
  }

  lemma InnerCells(c: Core, m: Market, o: Order, s: StopOrder)
    requires OneWaits(c, o, s) && CanTrade(c, o) && JoinsIn(c, o, s)
    ensures var e, p, root, c1 := InnerStart(c, m, o, s), FiredOrder(c, s), c.Makers(o)[0], Traded(Bare(c), m, o);
            && CanTrade(e, p) && Known(e, p) && Known(e, root) && root.id != p.id
            && e.Left(root) == c1.Left(root) == c.Left(root) - TurnTakes(c, o)
            && e.book == c1.book == c.book && e.table == c1.table[p.id := Cell(p, p.amount, Pending)]
            && e.stops == c1.stops == [] && !c1.halted && c1.nextId + 1 == e.nextId == p.id
  {
    StartCells(c, m, o, s);
  }

  /** The fired order takes from the book that a stop-free turn left at `t`. */
  ghost predicate Fires(t: Core, f: Core, o: Order, p: Order) {
    && Sound(f) && Taking(f, p) && f.Left(p) == p.amount && p.side == o.side && f.book == t.book
    && forall id :: id in t.table ==> id != p.id && id in f.table && f.table[id] == t.table[id]
  }

  lemma InnerBook(t: Core, f: Core, o: Order, p: Order)
    requires Sound(t) && Taking(t, o) && p.side == o.side && p.id == t.nextId + 1 && p.amount > 0.0
    requires Like(f, Entered(t.(nextId := p.id), p))
    ensures Fires(t, f, o, p)
    ensures Offered(f, p) == Offered(t, o) && (AllReached(f, p, p) <==> AllReached(t, o, p))
  {
    var e := Entered(t.(nextId := p.id), p);
    assert t.(nextId := p.id).(ledger := t.ledger) == t.(nextId := p.id);
    EnteredSound(t, t.ledger, p);
    LikeSound(f, e, p);
    var q, v, w := t.Makers(o), WeightIf(t.table, Anywhere()), WeightIf(f.table, Anywhere());
    forall x | x in q ensures v(x) == w(x) {
      assert Resting(t, x, o.side.Opposite());
      assert LeftIn(f.table, x) == LeftIn(t.table, x);
    }
    TotalSame(q, v, w);
  }

  /** What has left the queue before the inner loop is left alone by it. */
  lemma GoneStays(t: Core, f: Core, m: Market, o: Order, p: Order, y: Order)
    requires Fires(t, f, o, p) && y.id in t.table && !QueuedId(t, y.id)
    ensures TakerLoop(f, m, p).core.Left(y) == t.Left(y)
  {
    LoopApart(f, m, p);
    assert !QueuedId(f, y.id);
  }

  /** `g` comes after `c`: makers only left the queue, and only with nothing left. */
  ghost predicate Thinned(c: Core, g: Core, o: Order) {
    && IsHeap(g.Makers(o)) && Once(g.Makers(o))
    && (forall y :: y in g.Makers(o) ==> y in c.Makers(o) && Resting(g, y, o.side.Opposite()))
    && (forall y :: y in c.Makers(o) && y !in g.Makers(o) ==> g.Left(y) == 0.0)
  }

  lemma InnerThins(c: Core, m: Market, o: Order, t: Core, f: Core, p: Order)
    requires Sound(c) && Taking(c, o) && CanTrade(c, o) && Turned(c, t, o) && Fires(t, f, o, p)
    ensures Thinned(c, TakerLoop(f, m, p).core, o)
  {
    var g := TakerLoop(f, m, p).core;
    TurnedMakers(c, t, o);
    LoopSound(f, m, p);
    LoopStops(f, m, p);
    forall y | y in c.Makers(o) && y !in g.Makers(o) ensures g.Left(y) == 0.0 {
      if y in t.Makers(o) {
        LeavesDone(f, m, p, y);
      } else {
        PoppedIsDone(c, t, o, y);
        GoneStays(t, f, m, o, p, y);
      }
    }
  }

  lemma RootAfter(c: Core, m: Market, o: Order, t: Core, f: Core, p: Order)
    requires Sound(c) && Taking(c, o) && CanTrade(c, o) && Turned(c, t, o) && Taking(t, o)
    requires Fires(t, f, o, p) && !OutOfReach(p, c.Makers(o)[0])
    ensures var g, root, want := TakerLoop(f, m, p).core, c.Makers(o)[0], TurnTakes(c, o) + p.amount;
            if want >= c.Left(root) then g.Left(root) == 0.0
            else g.book == c.book && g.Left(root) == c.Left(root) - want && g.Left(o) == 0.0 && g.Left(p) == 0.0
  {
    var root := c.Makers(o)[0];
    TurnedLeft(c, t, o);
    if c.Left(root) > TurnTakes(c, o) {
      assert f.Left(root) == t.Left(root);
      RootFilledIff(f, m, p);
      GoneStays(t, f, m, o, p, o);
    } else {
      PoppedMembers(c.Makers(o));
      PoppedIsDone(c, t, o, root);
      GoneStays(t, f, m, o, p, root);
    }
  }

  /** The sweep of a turn that the stop order joins. */
  lemma JoinedSweep(c: Core, m: Market, o: Order, s: StopOrder) returns (g: Core)
    requires OneWaits(c, o, s) && CanTrade(c, o) && JoinsIn(c, o, s)
    ensures var root, want := c.Makers(o)[0], TurnTakes(c, o) + s.order.amount;
            && Swept(Traded(c, m, o), m, root.price) == Rested(g, FiredOrder(c, s))
            && Sound(g) && Taking(g, FiredOrder(c, s)) && Thinned(c, g, o)
            && (g.Makers(o) == [] <==> want >= Offered(c, o) && AllReached(c, o, s.order))
            && (if want >= c.Left(root) then g.Left(root) == 0.0
                else g.book == c.book && g.Left(root) == c.Left(root) - want && g.Left(o) == 0.0
                     && g.Left(FiredOrder(c, s)) == 0.0)
  {
    var b, p, root := Bare(c), FiredOrder(c, s), c.Makers(o)[0];
    var t := Iterated(b, m, o);
    SweptAsInner(c, m, o, s);
    var f := InnerIsSound(c, m, o, s);
    g := TakerLoop(f, m, p).core;
    IteratedSound(b, m, o);
    InnerBook(t, f, o, p);
    LoopSound(f, m, p);
    InnerThins(b, m, o, t, f, p);
    EmptiesIff(f, m, p);
    TurnedDepth(b, t, o, Anywhere());
    TurnedReach(b, t, o, p);
    RootAfter(b, m, o, t, f, p);
  }

  // ---------- what becomes of the turn ----------

  /** The loop's pop finds the queue emptied: taker and stop order together want everything
      that is offered, and the stop order reaches all of it. */
  ghost predicate Panics(c: Core, o: Order, s: StopOrder)
    requires c.Makers(o) != []
  {
    JoinsIn(c, o, s) && TurnTakes(c, o) + s.order.amount >= Offered(c, o) && AllReached(c, o, s.order)
  }

  /** The loop's pop takes out the maker behind the root: together they want at least the root,
      and not everything. */
  ghost predicate PopsAnother(c: Core, o: Order, s: StopOrder)
    requires c.Makers(o) != []
  {
    JoinsIn(c, o, s) && TurnTakes(c, o) + s.order.amount >= c.Left(c.Makers(o)[0]) && !Panics(c, o, s)
  }

  /** A maker that left the queue with something left. */
  ghost predicate Lost(c: Core, c': Core, o: Order, y: Order) {
    y in c.Makers(o) && y !in c'.Makers(o) && c'.Left(y) > 0.0
  }

  ghost predicate Loses(c: Core, c': Core, o: Order) { exists y :: Lost(c, c', o, y) }

  lemma RestedMakers(g: Core, p: Order, o: Order)
    requires p.side == o.side && Known(g, p) && !g.halted
    ensures var c2 := Rested(g, p);
            && c2.Makers(o) == g.Makers(o) && !c2.halted && c2.stops == g.stops
            && (forall y: Order :: c2.Left(y) == g.Left(y))
            && (forall y: Order :: y.id != p.id ==> c2.Status(y) == g.Status(y))
            && (forall id :: id != p.id ==> (id in c2.book.live <==> id in g.book.live))
  {
  }

  /** The pop after a sweep that has filled the root. */
  lemma PopAfterSweep(c: Core, g: Core, c2: Core, o: Order, root: Order)
    requires Thinned(c, g, o) && root in c.Makers(o) && g.Left(root) == 0.0
    requires c2.Makers(o) == g.Makers(o) && !c2.halted && forall y: Order :: c2.Left(y) == g.Left(y)
    ensures var c' := PopIfDone(c2, o.side.Opposite(), root);
            && (c'.halted <==> g.Makers(o) == [])
            && (Loses(c, c', o) <==> g.Makers(o) != [])
            && (g.Makers(o) != [] ==> Lost(c, c', o, g.Makers(o)[0]) && g.Makers(o)[0] != root)
            && c'.stops == c2.stops && forall z :: z in c'.Makers(o) ==> z in c.Makers(o)
  {
    var c', q := PopIfDone(c2, o.side.Opposite(), root), g.Makers(o);
    if q != [] {
      PoppedMembers(q);
      assert q[0] in q && Resting(g, q[0], o.side.Opposite());
      assert Lost(c, c', o, q[0]);
    }
  }

  /** Taker and stop order together take less than the root has: the book stays as it is. */
  ghost predicate OnlyShrinks(c: Core, c': Core, o: Order, want: real)
    requires c.Makers(o) != []
  {
    c'.book == c.book && c'.Left(c.Makers(o)[0]) == c.Left(c.Makers(o)[0]) - want && c'.Left(o) == 0.0
  }

  lemma JoinedTurn(c: Core, m: Market, o: Order, s: StopOrder)
    requires OneWaits(c, o, s) && CanTrade(c, o) && JoinsIn(c, o, s)
    ensures var c', root := Iterated(c, m, o), c.Makers(o)[0];
            && (c'.halted <==> Panics(c, o, s))
            && (Loses(c, c', o) <==> PopsAnother(c, o, s))
            && (PopsAnother(c, o, s) ==> exists y :: MapKeeps(c, c', o, y))
            && c'.stops == [] && (forall z :: z in c'.Makers(o) ==> z in c.Makers(o))
            && (TurnTakes(c, o) + s.order.amount < c.Left(root) ==>
                  OnlyShrinks(c, c', o, TurnTakes(c, o) + s.order.amount))
  {
    var root, p := c.Makers(o)[0], FiredOrder(c, s);
    var g := JoinedSweep(c, m, o, s);
    RestedMakers(g, p, o);
    if g.Left(root) == 0.0 {
      PopAfterSweep(c, g, Rested(g, p), o, root);
      if g.Makers(o) != [] { MapKeepsLost(c, g, Rested(g, p), o, p); }
    } else {
      assert Rested(g, p).book == g.book;
    }
  }

  /** A lost maker, which the order map still has unless it was canceled. */
  ghost predicate MapKeeps(c: Core, c': Core, o: Order, y: Order) {
    Lost(c, c', o, y) && y != c.Makers(o)[0] && (y.id in c'.book.live <==> c'.Status(y) != Canceled)
  }

  lemma MapKeepsLost(c: Core, g: Core, c2: Core, o: Order, p: Order)
    requires Sound(Bare(c)) && CanTrade(c, o) && Thinned(c, g, o) && Sound(g) && Taking(g, p)
    requires g.Makers(o) != [] && g.Left(c.Makers(o)[0]) == 0.0
    requires c2.Makers(o) == g.Makers(o) && !c2.halted && forall y: Order :: c2.Left(y) == g.Left(y)
    requires forall y: Order :: y.id != p.id ==> c2.Status(y) == g.Status(y)
    requires forall id :: id != p.id ==> (id in c2.book.live <==> id in g.book.live)
    ensures exists y :: MapKeeps(c, PopIfDone(c2, o.side.Opposite(), c.Makers(o)[0]), o, y)
  {
    var root, y := c.Makers(o)[0], g.Makers(o)[0];
    PopAfterSweep(c, g, c2, o, root);
    assert y in g.Makers(o) && Resting(g, y, o.side.Opposite()) && QueuedId(g, y.id);
    assert Resting(Bare(c), y, o.side.Opposite()) && Resting(Bare(c), root, o.side.Opposite());
    assert MapKeeps(c, PopIfDone(c2, o.side.Opposite(), root), o, y);
  }

  /** `c'` is the stop-free turn `t` with one more finished order. */
  ghost predicate OneMore(t: Core, c': Core, p: Order) {
    && c'.book == t.book && c'.table == t.table[p.id := Cell(p, p.amount, Finished)]
    && c'.stops == [] && !c'.halted && p.id == t.nextId + 1 == c'.nextId
  }

  lemma OneMoreSound(t: Core, c': Core, o: Order, p: Order)
    requires Sound(t) && Taking(t, o) && OneMore(t, c', p)
    ensures Sound(c') && Taking(c', o)
  {
    forall x, side | x in c'.book.Queue(side) ensures Resting(c', x, side) { assert Resting(t, x, side); }
    assert forall id :: QueuedId(c', id) == QueuedId(t, id);
  }

  /** A stop order that fires and cannot trade is finished as it came. */
  lemma IdleSweep(c: Core, m: Market, o: Order, s: StopOrder) returns (c2: Core)
    requires OneWaits(c, o, s) && CanTrade(c, o) && Eligible(s, c.Makers(o)[0].price) && !JoinsIn(c, o, s)
    ensures var c1, p := Traded(Bare(c), m, o), FiredOrder(c, s);
            && c2 == Swept(Traded(c, m, o), m, c.Makers(o)[0].price)
            && c2.book == c1.book == c.book && c2.table == c1.table[p.id := Cell(p, p.amount, Finished)]
            && c2.stops == c1.stops == [] && !c1.halted && !c2.halted && c1.nextId + 1 == c2.nextId == p.id
            && c.Makers(o)[0].id != p.id
  {
    var e, p := InnerStart(c, m, o, s), FiredOrder(c, s);
    SweptAsInner(c, m, o, s);
    StartCells(c, m, o, s);
    assert TakerLoop(e, m, p) == Taken(e, []);
    c2 := Rested(e, p);
  }

  /** So the turn is the stop-free one. */
  lemma IdleTurn(c: Core, m: Market, o: Order, s: StopOrder)
    requires OneWaits(c, o, s) && CanTrade(c, o) && Eligible(s, c.Makers(o)[0].price) && !JoinsIn(c, o, s)
    ensures OneMore(Iterated(Bare(c), m, o), Iterated(c, m, o), FiredOrder(c, s))
  {
    var c2 := IdleSweep(c, m, o, s);
    NoStopsIterated(Bare(c), m, o);
    IdlePop(Traded(Bare(c), m, o), c2, FiredOrder(c, s), o.side.Opposite(), c.Makers(o)[0]);
  }

  lemma IdlePop(c1: Core, c2: Core, p: Order, side: Side, root: Order)
    requires c2.book == c1.book && c2.table == c1.table[p.id := Cell(p, p.amount, Finished)] && root.id != p.id
    requires c1.stops == c2.stops == [] && !c1.halted && !c2.halted && c1.book.Queue(side) != []
    requires c1.nextId + 1 == c2.nextId == p.id
    ensures OneMore(PopIfDone(c1, side, root), PopIfDone(c2, side, root), p)
  {
    assert c1.Left(root) == c2.Left(root);
  }

  lemma ApartCells(c: Core, m: Market, o: Order, s: StopOrder)
    requires OneWaits(c, o, s) && CanTrade(c, o) && !JoinsIn(c, o, s) && Sound(Iterated(Bare(c), m, o))
    ensures var t, c' := Iterated(Bare(c), m, o), Iterated(c, m, o);
            && c'.book == t.book && !c'.halted
            && forall id :: id in t.table ==> id in c'.table && c'.table[id] == t.table[id]
  {
    var t, c' := Iterated(Bare(c), m, o), Iterated(c, m, o);
    if Eligible(s, c.Makers(o)[0].price) {
      IdleTurn(c, m, o, s);
      OneMoreKeeps(t, c', FiredOrder(c, s));
    } else {
      MissedTurn(c, m, o, s);
      BareKeeps(t, c');
    }
  }

  lemma OneMoreKeeps(t: Core, c': Core, p: Order)
    requires Sound(t) && OneMore(t, c', p)
    ensures c'.book == t.book && !c'.halted
    ensures forall id :: id in t.table ==> id in c'.table && c'.table[id] == t.table[id]
  {
  }

  lemma BareKeeps(t: Core, c': Core)
    requires Bare(c') == t && !t.halted
    ensures c'.book == t.book && !c'.halted && c'.table == t.table
  {
  }

  lemma ApartTurn(c: Core, m: Market, o: Order, s: StopOrder)
    requires OneWaits(c, o, s) && CanTrade(c, o) && !JoinsIn(c, o, s)
    ensures var t, c' := Iterated(Bare(c), m, o), Iterated(c, m, o);
            && c'.book == t.book && !c'.halted && !Loses(c, c', o)
            && forall id :: id in t.table ==> id in c'.table && c'.table[id] == t.table[id]
  {
    var b, t, c' := Bare(c), Iterated(Bare(c), m, o), Iterated(c, m, o);
    IteratedSound(b, m, o);
    ApartCells(c, m, o, s);
    forall y | y in c.Makers(o) && y !in c'.Makers(o) ensures c'.Left(y) == 0.0 { PoppedIsDone(b, t, o, y); }
  }

  /** One turn with a stop order waiting on the taker's side. The pop finds an empty queue
      exactly when the two together want all that is offered and the stop order reaches it;
      it takes out a maker that still has something exactly when they want at least the root
      and not everything. In every other turn nothing is lost: the two only shrink the root,
      or the turn is the stop-free one. */
  lemma NestedTurn(c: Core, m: Market, o: Order, s: StopOrder)
    requires OneWaits(c, o, s) && CanTrade(c, o)
    ensures var c', t, want := Iterated(c, m, o), Iterated(Bare(c), m, o), TurnTakes(c, o) + s.order.amount;
            && (c'.halted <==> Panics(c, o, s))
            && (Loses(c, c', o) <==> PopsAnother(c, o, s))
            && (PopsAnother(c, o, s) ==> exists y :: MapKeeps(c, c', o, y))
            && (JoinsIn(c, o, s) && want < c.Left(c.Makers(o)[0]) ==> OnlyShrinks(c, c', o, want))
            && (!JoinsIn(c, o, s) ==>
                  && c'.book == t.book
                  && forall id :: id in t.table ==> id in c'.table && c'.table[id] == t.table[id])
  {
    if JoinsIn(c, o, s) { JoinedTurn(c, m, o, s); } else { ApartTurn(c, m, o, s); }
  }

  // ---------- the whole loop ----------

  /** The loop up to the first maker at whose price the stop order fires. */
  ghost function Met(c: Core, m: Market, o: Order, s: StopOrder): (r: Core)
    requires c.stops == []
    ensures r.stops == []
    decreases |c.Makers(o)|, if c.Left(o) > 0.0 then 1 else 0
  {
    if CanTrade(c, o) && !Eligible(s, c.Makers(o)[0].price) then Met(Iterated(c, m, o), m, o, s) else c
  }

  lemma {:induction false} StopFreeNeverPanics(c: Core, m: Market, o: Order)
    requires c.stops == [] && !c.halted
    ensures !TakerLoop(c, m, o).core.halted
    decreases |c.Makers(o)|, if c.Left(o) > 0.0 then 1 else 0
  {
    if CanTrade(c, o) {
      NoStopsIterated(c, m, o);
      StopFreeNeverPanics(Iterated(c, m, o), m, o);
    }
  }

  /** `y` has left the queue, and no maker shares its ID or the taker's. */
  ghost predicate Gone(c: Core, o: Order, y: Order) {
    && c.stops == [] && !c.halted && y.id != o.id
    && forall z :: z in c.Makers(o) ==> z.id != y.id && z.id != o.id
  }

  lemma GoneAfterTurn(c: Core, m: Market, o: Order, y: Order)
    requires Gone(c, o, y) && CanTrade(c, o)
    ensures Gone(Iterated(c, m, o), o, y) && Iterated(c, m, o).Left(y) == c.Left(y)
  {
    NoStopsIterated(c, m, o);
    TradedShape(c, m, o);
    PoppedQueued(Traded(c, m, o), o.side.Opposite(), c.Makers(o)[0]);
    PoppedFrom(Traded(c, m, o), o.side.Opposite(), c.Makers(o)[0]);
  }

  lemma PoppedFrom(c: Core, side: Side, maker: Order)
    requires c.book.Queue(side) != []
    ensures var c' := PopIfDone(c, side, maker);
            && c'.table == c.table && c'.stops == c.stops && c'.halted == c.halted
            && forall y :: y in c'.book.Queue(side) ==> y in c.book.Queue(side)
  {
    var q := c.book.Queue(side);
    PopContents(q);
    forall y | y in Popped(q) ensures y in q { assert y in multiset(Popped(q)); assert y in multiset(q); }
  }

  lemma {:induction false} GoneForGood(c: Core, m: Market, o: Order, y: Order)
    requires Gone(c, o, y)
    ensures var c' := TakerLoop(c, m, o).core; y !in c'.Makers(o) && c'.Left(y) == c.Left(y)
    decreases |c.Makers(o)|, if c.Left(o) > 0.0 then 1 else 0
  {
    if CanTrade(c, o) {
      GoneAfterTurn(c, m, o, y);
      GoneForGood(Iterated(c, m, o), m, o, y);
    }
  }

  lemma LostIsGone(c: Core, c': Core, o: Order, y: Order)
    requires Sound(Bare(c)) && Taking(Bare(c), o) && Lost(c, c', o, y) && c'.stops == [] && !c'.halted
    requires forall z :: z in c'.Makers(o) ==> z in c.Makers(o)
    ensures Gone(c', o, y)
  {
    var b := Bare(c);
    assert Resting(b, y, o.side.Opposite()) && QueuedId(b, y.id);
    forall z | z in c'.Makers(o) ensures z.id != y.id && z.id != o.id {
      assert z in b.Makers(o) && Resting(b, z, o.side.Opposite()) && QueuedId(b, z.id);
    }
  }

  /** The loop from the turn in which the stop order trades. */
  lemma LoopJoined(c: Core, m: Market, o: Order, s: StopOrder)
    requires OneWaits(c, o, s) && CanTrade(c, o) && JoinsIn(c, o, s)
    ensures var e := TakerLoop(c, m, o).core;
            (e.halted <==> Panics(c, o, s)) && (Loses(c, e, o) <==> PopsAnother(c, o, s))
  {
    var c', e := Iterated(c, m, o), TakerLoop(c, m, o).core;
    JoinedTurn(c, m, o, s);
    assert e == TakerLoop(c', m, o).core;
    if PopsAnother(c, o, s) {
      var y :| MapKeeps(c, c', o, y);
      LostIsGone(c, c', o, y);
      GoneForGood(c', m, o, y);
      StopFreeNeverPanics(c', m, o);
      assert Lost(c, e, o, y);
    } else {
      assert !CanTrade(c', o);
    }
  }

  /** A stop order that fires and cannot trade takes nothing from anybody. */
  lemma LoopIdle(c: Core, m: Market, o: Order, s: StopOrder)
    requires OneWaits(c, o, s) && CanTrade(c, o) && Eligible(s, c.Makers(o)[0].price) && !JoinsIn(c, o, s)
    ensures var e := TakerLoop(c, m, o).core; !e.halted && !Loses(c, e, o)
  {
    var b, t, c', e := Bare(c), Iterated(Bare(c), m, o), Iterated(c, m, o), TakerLoop(c, m, o).core;
    IteratedSound(b, m, o);
    IdleTurn(c, m, o, s);
    OneMoreSound(t, c', o, FiredOrder(c, s));
    LoopSound(c', m, o);
    LoopApart(c', m, o);
    assert e == TakerLoop(c', m, o).core;
    forall y | y in c.Makers(o) && y !in e.Makers(o) ensures e.Left(y) == 0.0 {
      if y in c'.Makers(o) {
        LeavesDone(c', m, o, y);
      } else {
        PoppedIsDone(b, t, o, y);
        assert !QueuedId(c', y.id) && y.id in c'.table;
      }
    }
  }

  /** A loop that ends at `e` panicked, or dropped a maker with something left, exactly when the
      turn at `d` did. */
  ghost predicate DecidedAt(d: Core, e: Core, o: Order, s: StopOrder) {
    && OneWaits(d, o, s)
    && (e.halted <==> CanTrade(d, o) && Panics(d, o, s))
    && (Loses(d, e, o) <==> CanTrade(d, o) && PopsAnother(d, o, s))
  }

  lemma LoopFires(c: Core, m: Market, o: Order, s: StopOrder)
    requires OneWaits(c, o, s) && (CanTrade(c, o) ==> Eligible(s, c.Makers(o)[0].price))
    ensures DecidedAt(c, TakerLoop(c, m, o).core, o, s)
  {
    if CanTrade(c, o) {
      if JoinsIn(c, o, s) { LoopJoined(c, m, o, s); } else { LoopIdle(c, m, o, s); }
    }
  }

  lemma MissedWaits(c: Core, m: Market, o: Order, s: StopOrder)
    requires OneWaits(c, o, s) && CanTrade(c, o) && !Eligible(s, c.Makers(o)[0].price)
    ensures OneWaits(Iterated(c, m, o), o, s) && Bare(Iterated(c, m, o)) == Iterated(Bare(c), m, o)
  {
    MissedTurn(c, m, o, s);
    IteratedSound(Bare(c), m, o);
  }

  /** Where the loop stands when the stop order fires, or at its end if it never does. */
  ghost function MetWith(c: Core, m: Market, o: Order, s: StopOrder): Core {
    Met(Bare(c), m, o, s).(stops := [s])
  }

  lemma MetNow(c: Core, m: Market, o: Order, s: StopOrder)
    requires c.stops == [s] && (CanTrade(c, o) ==> Eligible(s, c.Makers(o)[0].price))
    ensures MetWith(c, m, o, s) == c
  {
  }

  lemma MetLater(c: Core, m: Market, o: Order, s: StopOrder)
    requires CanTrade(c, o) && !Eligible(s, c.Makers(o)[0].price)
    requires Bare(Iterated(c, m, o)) == Iterated(Bare(c), m, o)
    ensures MetWith(c, m, o, s) == MetWith(Iterated(c, m, o), m, o, s)
    ensures TakerLoop(c, m, o).core == TakerLoop(Iterated(c, m, o), m, o).core
  {
  }

  /** The whole loop, whatever stop-free turns come before the stop order fires: it panics, or
      drops a maker that still has something, exactly when the turn in which it fires does. */
  lemma {:induction false} NestedLoop(c: Core, m: Market, o: Order, s: StopOrder)
    requires OneWaits(c, o, s)
    ensures DecidedAt(MetWith(c, m, o, s), TakerLoop(c, m, o).core, o, s)
    decreases |c.Makers(o)|, if c.Left(o) > 0.0 then 1 else 0
  {
    if CanTrade(c, o) && !Eligible(s, c.Makers(o)[0].price) {
      MissedWaits(c, m, o, s);
      NestedLoop(Iterated(c, m, o), m, o, s);
      MetLater(c, m, o, s);
    } else {
      LoopFires(c, m, o, s);
      MetNow(c, m, o, s);
    }
  }
}
