/** How many stop orders may wait, and how much they may want, so that no nested sweep can empty
    a queue under a loop: the queues must hold more large orders than stop orders wait. */
module PanicBounds {
  import opened Orders
  import opened PriceQueues
  import opened Ledgers
  import opened Sums
  import opened Matching
  import opened FillLedger
  import opened Solvency

  function Positive(x: real): real { if x > 0.0 then x else 0.0 }

  /** What a list of stop orders wants. */
  function Wanted(stops: seq<StopOrder>): real {
    if stops == [] then 0.0 else Positive(stops[0].order.amount) + Wanted(stops[1..])
  }

  ghost function IsLarge(table: map<nat, Cell>, x: real): Order -> real {
    (y: Order) => if LeftIn(table, y) > x then 1.0 else 0.0
  }

  /** How many orders of a queue have more than `x` left. */
  ghost function Larger(c: Core, side: Side, x: real): real { Total(c.book.Queue(side), IsLarge(c.table, x)) }

  ghost function Smaller(x: real, y: real): real { if x <= y then x else y }

  /** How many orders with more than `x` left either queue holds at the least. */
  ghost function LargeInBoth(c: Core, x: real): real { Smaller(Larger(c, Ask, x), Larger(c, Bid, x)) }

  /** How many orders both queues hold that have more left than `x` and what the waiting stop
      orders want, beyond one for each of these stop orders. */
  ghost function Headroom(c: Core, x: real): real { LargeInBoth(c, x + Wanted(c.stops)) - |c.stops| as real }

  ghost predicate Cushion(c: Core, x: real, j: nat) { Headroom(c, x) >= j as real }

  /** What somebody wants besides `x`: one order, or a list of stop orders. */
  function And(x: real, amount: real): real { x + Positive(amount) }

  function AndAll(x: real, stops: seq<StopOrder>): real { x + Wanted(stops) }

  lemma LargeWeakens(c: Core, x: real, y: real)
    requires y <= x
    ensures LargeInBoth(c, x) <= LargeInBoth(c, y)
  {
    TotalGrows(c.book.asks, IsLarge(c.table, x), IsLarge(c.table, y));
    TotalGrows(c.book.bids, IsLarge(c.table, x), IsLarge(c.table, y));
  }

  ghost predicate StayLarge(c: Core, c': Core, x: real, y: real) {
    forall o :: c.book.Queued(o) && c.Left(o) > x ==> c'.Left(o) > y
  }

  /** Other cells, the same queues. */
  lemma LargeMoves(c: Core, c': Core, x: real, y: real)
    requires c'.book.bids == c.book.bids && c'.book.asks == c.book.asks && StayLarge(c, c', x, y)
    ensures LargeInBoth(c, x) <= LargeInBoth(c', y)
  {
    LargerMoves(c, c', Ask, x, y);
    LargerMoves(c, c', Bid, x, y);
  }

  lemma LargerMoves(c: Core, c': Core, side: Side, x: real, y: real)
    requires c'.book.Queue(side) == c.book.Queue(side) && StayLarge(c, c', x, y)
    ensures Larger(c, side, x) <= Larger(c', side, y)
  {
    forall o | o in c.book.Queue(side) ensures IsLarge(c.table, x)(o) <= IsLarge(c'.table, y)(o) {
      assert c.book.Queued(o);
      assert c.Left(o) > x ==> c'.Left(o) > y;
    }
    TotalGrows(c.book.Queue(side), IsLarge(c.table, x), IsLarge(c'.table, y));
  }

  /** The same queues and cells: other stop orders, balances or counters change nothing. */
  lemma LargeStays(c: Core, c': Core, x: real)
    requires c'.book == c.book && c'.table == c.table
    ensures LargeInBoth(c', x) == LargeInBoth(c, x)
  {
  }

  // ---------- lists of stop orders ----------

  lemma {:induction false} WantedNonNegative(stops: seq<StopOrder>)
    ensures Wanted(stops) >= 0.0
  {
    if stops != [] { WantedNonNegative(stops[1..]); }
  }

  lemma WantedByOne(stops: seq<StopOrder>, x: real)
    requires stops != []
    ensures AndAll(x, stops) == And(AndAll(x, stops[1..]), stops[0].order.amount) && AndAll(x, stops[1..]) >= x
  {
    WantedNonNegative(stops[1..]);
  }

  /** A check divides the list, but for stop orders that were triggered before. */
  lemma {:induction false} WantedSplits(stops: seq<StopOrder>, price: real)
    ensures Wanted(Hit(stops, price)) + Wanted(Missed(stops, price)) <= Wanted(stops)
  {
    if stops != [] {
      var s, hit, missed := stops[0], Hit(stops[1..], price), Missed(stops[1..], price);
      WantedSplits(stops[1..], price);
      assert ([s] + hit)[1..] == hit && ([s] + missed)[1..] == missed;
      assert [] + hit == hit && [] + missed == missed;
    }
  }

  // ---------- one trade, one pop, one rest ----------

  lemma TradedLarge(past: Past, c: Core, m: Market, o: Order, x: real)
    requires AllAccounted(past, c) && Active(c, o) && CanTrade(c, o)
    ensures var c' := Traded(c, m, o);
            c'.Left(o) >= 0.0 && c'.stops == c.stops && LargeInBoth(c, x + c.Left(o)) <= LargeInBoth(c', x + c'.Left(o))
  {
    var maker, c' := c.Makers(o)[0], Traded(c, m, o);
    assert c.book.Queued(maker) && QueuedId(c, maker.id);
    TradedShape(c, m, o);
    AmountNonNegative(past, c, o, maker);
    forall y | c.book.Queued(y) && c.Left(y) > x + c.Left(o) ensures c'.Left(y) > x + c'.Left(o) {
      assert QueuedId(c, y.id) && Known(c, y);
    }
    LargeMoves(c, c', x + c.Left(o), x + c'.Left(o));
  }

  /** A pop takes one order. */
  lemma PoppedLarge(c: Core, side: Side, maker: Order, x: real)
    requires LargeInBoth(c, x) > 0.0 && !c.halted
    ensures var c' := PopIfDone(c, side, maker);
            && !c'.halted && c'.stops == c.stops && c'.Left(maker) == c.Left(maker)
            && LargeInBoth(c', x) >= LargeInBoth(c, x) - 1.0
  {
    var q := c.book.Queue(side);
    assert q != [] by { assert Larger(c, side, x) > 0.0; }
    PoppedOther(c, side, maker);
    PoppedTotal(q, IsLarge(c.table, x));
    assert Larger(PopIfDone(c, side, maker), side.Opposite(), x) == Larger(c, side.Opposite(), x);
  }

  /** The root that goes is the maker, which is not large. */
  lemma RootGoes(c: Core, side: Side, maker: Order, x: real)
    requires c.book.Queue(side) != [] && c.book.Queue(side)[0] == maker && x >= 0.0
    ensures LargeInBoth(PopIfDone(c, side, maker), x) == LargeInBoth(c, x)
  {
    var q := c.book.Queue(side);
    PoppedOther(c, side, maker);
    PoppedTotal(q, IsLarge(c.table, x));
    assert Larger(PopIfDone(c, side, maker), side.Opposite(), x) == Larger(c, side.Opposite(), x);
  }

  lemma PoppedOther(c: Core, side: Side, maker: Order)
    requires c.book.Queue(side) != []
    ensures var c' := PopIfDone(c, side, maker);
            && c'.halted == c.halted && c'.table == c.table && c'.stops == c.stops
            && c'.book.Queue(side) == (if c.Left(maker) <= 0.0 then Popped(c.book.Queue(side)) else c.book.Queue(side))
            && c'.book.Queue(side.Opposite()) == c.book.Queue(side.Opposite())
  {
  }

  /** An order that comes to rest only adds to its queue. */
  lemma RestedLarge(c: Core, o: Order, x: real)
    ensures LargeInBoth(c, x) <= LargeInBoth(Rested(c, o), x)
  {
    var rests := 0.0 < c.Left(o) < o.amount;
    var c1 := c.WithStatus(o, if rests then Partial else Finished);
    assert StayLarge(c, c1, x, x);
    LargeMoves(c, c1, x, x);
    AddedLarge(c1, o, x);
  }

  lemma AddedLarge(c: Core, o: Order, x: real)
    ensures LargeInBoth(c, x) <= LargeInBoth(AddedToBook(c, o), x)
  {
    var q, f := c.book.Queue(o.side), IsLarge(c.table, x);
    SiftUpContents(q + [o], |q|);
    TotalPermutation(Pushed(q, o), q + [o], f);
    TotalSnoc(q, o, f);
    assert Larger(AddedToBook(c, o), o.side.Opposite(), x) == Larger(c, o.side.Opposite(), x);
  }

  /** An order enters under a new ID. */
  lemma EnteredLarge(past: Past, c: Core, c1: Core, o: Order, x: real)
    requires AllAccounted(past, c) && o.id !in c.table && c1 == Entered(c.(nextId := o.id), o)
    ensures c1.Left(o) == o.amount && LargeInBoth(c, x) <= LargeInBoth(c1, x)
  {
    forall y | c.book.Queued(y) && c.Left(y) > x ensures c1.Left(y) > x { assert Known(c, y); }
    LargeMoves(c, c1, x, x);
  }

  // ---------- the loop with its sweeps ----------

  /** `x`: what loops further out still want. */
  lemma {:induction false} LoopCushion(past: Past, c: Core, m: Market, o: Order, x: real, j: nat)
    requires AllAccounted(past, c) && Active(c, o) && !c.halted && x >= 0.0 && j >= 1
    requires Cushion(c, And(x, c.Left(o)), j)
    ensures var c' := TakerLoop(c, m, o).core; !c'.halted && Cushion(c', x, j)
    decreases |c.stops|, 2, |c.Makers(o)|, if c.Left(o) > 0.0 then 1 else 0
  {
    if CanTrade(c, o) {
      IteratedCushion(past, c, m, o, x, j);
      IteratedKeeps(past, c, m, o);
      LoopCushion(past, Iterated(c, m, o), m, o, x, j);
    } else {
      LargeWeakens(c, x + Positive(c.Left(o)) + Wanted(c.stops), x + Wanted(c.stops));
    }
  }

  lemma {:induction false} IteratedCushion(past: Past, c: Core, m: Market, o: Order, x: real, j: nat)
    requires AllAccounted(past, c) && Active(c, o) && CanTrade(c, o) && x >= 0.0 && j >= 1
    requires Cushion(c, And(x, c.Left(o)), j)
    ensures var c' := Iterated(c, m, o); !c'.halted && Cushion(c', And(x, c'.Left(o)), j)
    decreases |c.stops|, 1, 0, 0
  {
    var c0, price := Traded(c, m, o), c.Makers(o)[0].price;
    TradedCushion(past, c, m, o, x, j);
    TradedKeeps(past, c, m, o);
    SweptCushion(past, c0, m, price, And(x, c0.Left(o)), j);
    SweptKeeps(past, c0, m, price, o);
    IteratedIs(c, m, o);
    TurnCushion(Swept(c0, m, price), o, c.Makers(o)[0], x, j);
  }

  lemma TradedCushion(past: Past, c: Core, m: Market, o: Order, x: real, j: nat)
    requires AllAccounted(past, c) && Active(c, o) && CanTrade(c, o)
    requires x >= 0.0 && Cushion(c, And(x, c.Left(o)), j)
    ensures var c' := Traded(c, m, o);
            c'.Left(o) >= 0.0 && And(x, c'.Left(o)) >= 0.0 && Cushion(c', And(x, c'.Left(o)), j)
  {
    var c' := Traded(c, m, o);
    TradedLarge(past, c, m, o, x + Wanted(c.stops));
    assert x + Positive(c.Left(o)) + Wanted(c.stops) == x + Wanted(c.stops) + c.Left(o);
    assert x + c'.Left(o) + Wanted(c'.stops) == x + Wanted(c.stops) + c'.Left(o);
  }

  lemma IteratedIs(c: Core, m: Market, o: Order)
    requires CanTrade(c, o) && !Swept(Traded(c, m, o), m, c.Makers(o)[0].price).halted
    ensures var maker := c.Makers(o)[0];
            Iterated(c, m, o) == PopIfDone(Swept(Traded(c, m, o), m, maker.price), o.side.Opposite(), maker)
  {
  }

  /** The pop at the end of a turn: after a sweep that fired nothing, it takes the maker itself. */
  lemma TurnCushion(c: Core, o: Order, maker: Order, x: real, j: nat)
    requires !c.halted && c.Left(o) >= 0.0 && x >= 0.0 && j >= 1 && Cushion(c, And(x, c.Left(o)), j)
    requires Cushion(c, And(x, c.Left(o)), j + 1) || (c.Makers(o) != [] && c.Makers(o)[0] == maker)
    ensures var c' := PopIfDone(c, o.side.Opposite(), maker); !c'.halted && Cushion(c', And(x, c'.Left(o)), j)
  {
    var side, y := o.side.Opposite(), x + c.Left(o) + Wanted(c.stops);
    WantedNonNegative(c.stops);
    PoppedLarge(c, side, maker, y);
    PoppedFunds(c, side, maker);
    if !Cushion(c, And(x, c.Left(o)), j + 1) { RootGoes(c, side, maker, y); }
  }

  lemma CushionWeakens(c: Core, x: real, j: nat, y: real, k: nat)
    requires Cushion(c, x, j) && y <= x && k <= j
    ensures Cushion(c, y, k)
  {
    LargeWeakens(c, x + Wanted(c.stops), y + Wanted(c.stops));
  }

  /** A sweep that fires something leaves one more large order than it needs. */
  lemma {:induction false} SweptCushion(past: Past, c: Core, m: Market, price: real, x: real, j: nat)
    requires AllAccounted(past, c) && !c.halted && x >= 0.0 && j >= 1 && Cushion(c, x, j)
    ensures var c' := Swept(c, m, price);
            !c'.halted && Cushion(c', x, j) && (c'.book == c.book || Cushion(c', x, j + 1))
    decreases |c.stops|, 0, 0, 0
  {
    var hit := Hit(c.stops, price);
    var c1 := c.(stops := Missed(c.stops, price), journal := c.journal.(fired := c.journal.fired + hit));
    HitCushion(c, c1, price, x, j);
    if hit != [] {
      OffListKeeps(past, c, c1);
      FireAllCushion(past, c1, m, hit, x, j + |hit|);
      CushionWeakens(FireAll(c1, m, hit), x, j + |hit|, x, j + 1);
      CushionWeakens(FireAll(c1, m, hit), x, j + |hit|, x, j);
    } else {
      CushionWeakens(c1, AndAll(x, hit), j + |hit|, x, j);
    }
  }

  lemma HitCushion(c: Core, c1: Core, price: real, x: real, j: nat)
    requires Cushion(c, x, j) && c1.book == c.book && c1.table == c.table && c1.stops == Missed(c.stops, price)
    ensures Cushion(c1, AndAll(x, Hit(c.stops, price)), j + |Hit(c.stops, price)|)
    ensures AndAll(x, Hit(c.stops, price)) >= x
  {
    var hit := Hit(c.stops, price);
    WantedSplits(c.stops, price);
    WantedNonNegative(hit);
    LargeStays(c, c1, x + Wanted(c.stops));
    LargeWeakens(c1, x + Wanted(c.stops), x + Wanted(hit) + Wanted(c1.stops));
  }

  lemma {:induction false} FireAllCushion(past: Past, c: Core, m: Market, hit: seq<StopOrder>, x: real, j: nat)
    requires AllAccounted(past, c) && !c.halted && x >= 0.0 && j >= 1 && Cushion(c, AndAll(x, hit), j)
    ensures var c' := FireAll(c, m, hit); !c'.halted && Cushion(c', x, j)
    decreases |c.stops|, 4, |hit|, 0
  {
    if hit != [] {
      var c1 := Fired(c, m, hit[0]);
      WantedByOne(hit, x);
      FiredCushion(past, c, m, hit[0], AndAll(x, hit[1..]), j);
      FiredKeeps(past, c, m, hit[0]);
      FireAllCushion(past, c1, m, hit[1..], x, j);
    }
  }

  lemma {:induction false} FiredCushion(past: Past, c: Core, m: Market, s: StopOrder, x: real, j: nat)
    requires AllAccounted(past, c) && !c.halted && x >= 0.0 && j >= 1 && Cushion(c, And(x, s.order.amount), j)
    ensures var c' := Fired(c, m, s); !c'.halted && Cushion(c', x, j)
    decreases |c.stops|, 3, 0, 0
  {
    var o := s.order.(id := c.nextId + 1);
    var c1 := Entered(c.(nextId := o.id), o);
    EnteredKeeps(past, c, o);
    EnteredCushion(past, c, c1, o, x, j);
    LoopCushion(past, c1, m, o, x, j);
    RestedCushion(TakerLoop(c1, m, o).core, o, x, j);
    FiredEnters(c, m, s);
  }

  lemma EnteredCushion(past: Past, c: Core, c1: Core, o: Order, x: real, j: nat)
    requires AllAccounted(past, c) && o.id !in c.table && c1 == Entered(c.(nextId := o.id), o)
    requires Cushion(c, And(x, o.amount), j)
    ensures Cushion(c1, And(x, c1.Left(o)), j)
  {
    EnteredLarge(past, c, c1, o, x + Positive(o.amount) + Wanted(c.stops));
  }

  lemma RestedCushion(c: Core, o: Order, x: real, j: nat)
    requires Cushion(c, x, j) && !c.halted
    ensures var c' := Rested(c, o); !c'.halted && Cushion(c', x, j)
  {
    RestedLarge(c, o, x + Wanted(c.stops));
    RestedFunds(c, o);
  }

  // ---------- calls ----------

  /** Both queues hold more orders that are larger than everything wanted than stop orders wait. */
  ghost predicate Roomy(c: Core, wanted: real) { Cushion(c, Positive(wanted), 1) }

  /** Then no limit order makes a pop find an empty queue, however the stop orders trigger one
      another. */
  lemma RoomyNeverPanics(past: Past, c: Core, m: Market, o: Order)
    requires AllAccounted(past, c) && !c.halted && o.id == c.nextId + 1 && Roomy(c, o.amount)
    ensures !Place(c.(nextId := o.id), m, o).0.halted
  {
    match Freeze(c.ledger, LockAcct(m, o), Need(o, o.amount))
    case Refused(_) =>
    case Done(l) =>
      var c0 := c.(ledger := l);
      var c1 := Entered(c0.(nextId := o.id), o);
      OnlyAccounts(past, c, c0);
      EnteredKeeps(past, c0, o);
      LargeStays(c, c0, Positive(o.amount) + Wanted(c.stops));
      EnteredCushion(past, c0, c1, o, 0.0, 1);
      LoopCushion(past, c1, m, o, 0.0, 1);
      RestedCushion(TakerLoop(c1, m, o).core, o, 0.0, 1);
      PlaceEnters(c, m, o, l);
  }

  /** Nor does the periodic sweep. */
  lemma RoomySweepNeverPanics(past: Past, c: Core, m: Market, price: real)
    requires AllAccounted(past, c) && !c.halted && Roomy(c, 0.0)
    ensures !Swept(c, m, price).halted
  {
    SweptCushion(past, c, m, price, 0.0, 1);
  }
}
