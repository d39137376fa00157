/** Every order's trade list accounts for exactly what it has filled, nested stop
    sweeps included. */
module FillLedger {
  import opened Orders
  import opened PriceQueues
  import opened Matching
  import opened Sums
  import opened Ledgers

  ghost function Volume(ts: seq<Trade>): real { Total(ts, (t: Trade) => t.amount) }

  /** What an order had filled before the trade lists begin: nothing, except for orders that
      were loaded from a file. */
  type Past = map<nat, real>

  function Before(past: Past, id: nat): real { if id in past then past[id] else 0.0 }

  /** An order with a non-negative amount stays within it; one with a negative amount, which
      only a stop order can have, never trades. */
  predicate InBounds(cell: Cell) {
    if cell.order.amount >= 0.0 then 0.0 <= cell.left <= cell.order.amount else cell.left == cell.order.amount
  }

  /** The cell and the trade list of one order tell the same story. */
  ghost predicate Accounted(past: Past, c: Core, id: nat)
    requires id in c.table
  {
    && id <= c.nextId
    && c.table[id].order.id == id
    && InBounds(c.table[id])
    && c.table[id].order.amount - c.table[id].left == Before(past, id) + Volume(TradesOf(c.trades, id))
  }

  predicate Known(c: Core, o: Order) { o.id in c.table && c.table[o.id].order == o }

  /** The book only names orders whose cells exist, none of them with a negative amount. */
  ghost predicate BookKnown(c: Core) {
    && (forall o :: c.book.Queued(o) ==> Known(c, o) && o.amount >= 0.0)
    && (forall id :: id in c.book.live ==>
          c.book.live[id].id == id && Known(c, c.book.live[id]) && c.book.live[id].amount >= 0.0)
  }

  ghost predicate CellsAccounted(past: Past, c: Core) {
    && (forall id :: id in c.table ==> Accounted(past, c, id))
    && (forall id :: id in c.trades || id in past ==> id <= c.nextId)
  }

  ghost predicate AllAccounted(past: Past, c: Core) { CellsAccounted(past, c) && BookKnown(c) }

  lemma SameCellsStand(past: Past, c: Core, c': Core)
    requires CellsAccounted(past, c)
    requires c'.table == c.table && c'.trades == c.trades && c'.nextId >= c.nextId
    ensures CellsAccounted(past, c')
  {
    forall id | id in c'.table ensures Accounted(past, c', id) { assert Accounted(past, c, id); }
  }

  /** Every order keeps its record, and what is left of it does not grow. */
  ghost predicate TableFalls(t: map<nat, Cell>, t': map<nat, Cell>) {
    forall id :: id in t ==> id in t' && t'[id].order == t[id].order && t'[id].left <= t[id].left
  }

  ghost predicate CellsFall(c: Core, c': Core) { TableFalls(c.table, c'.table) }

  lemma StillKnown(c: Core, c': Core)
    requires BookKnown(c) && CellsFall(c, c') && c'.book == c.book
    ensures BookKnown(c')
  {
    forall o | c'.book.Queued(o) ensures Known(c', o) { assert Known(c, o); }
    forall id | id in c'.book.live ensures Known(c', c'.book.live[id]) { assert Known(c, c.book.live[id]); }
  }

  /** Orders only left the book. */
  ghost predicate FewerIn(b: Book, b': Book) {
    && (forall o :: o in b'.bids ==> o in b.bids) && (forall o :: o in b'.asks ==> o in b.asks)
    && (forall id :: id in b'.live ==> id in b.live && b'.live[id] == b.live[id])
  }

  lemma FewerKnown(c: Core, c': Core)
    requires BookKnown(c) && CellsFall(c, c') && FewerIn(c.book, c'.book)
    ensures BookKnown(c')
  {
    forall o | c'.book.Queued(o) ensures Known(c', o) { assert c.book.Queued(o) && Known(c, o); }
    forall id | id in c'.book.live ensures Known(c', c'.book.live[id]) { assert Known(c, c.book.live[id]); }
  }

  ghost predicate QueuedId(c: Core, id: nat) { exists o :: c.book.Queued(o) && o.id == id }

  /** What may happen to the rest of the engine while the orders in `active` take: orders
      outside the queues keep their cells, and only fresh orders enter the queues. */
  ghost predicate Frame(c: Core, c': Core, active: set<nat>) {
    && c.nextId <= c'.nextId
    && (forall o :: c'.book.Queued(o) ==> c.book.Queued(o) || o.id > c.nextId)
    && CellsFall(c, c')
    && (forall id :: id in c.table && id !in active && !QueuedId(c, id) ==> c'.table[id] == c.table[id])
  }

  lemma FrameTrans(past: Past, a: Core, b: Core, c: Core, active: set<nat>)
    requires AllAccounted(past, a) && Frame(a, b, active) && Frame(b, c, active)
    ensures Frame(a, c, active)
  {
    forall id | id in a.table && id !in active && !QueuedId(a, id) ensures c.table[id] == a.table[id] {
      assert Accounted(past, a, id);
      assert !QueuedId(b, id);
    }
  }

  /** What happens around a waiting taker leaves it as it was. */
  lemma FrameKeepsActive(past: Past, c: Core, c': Core, o: Order)
    requires AllAccounted(past, c) && Frame(c, c', {}) && Active(c, o)
    ensures Active(c', o) && Frame(c, c', {o.id}) && c'.Left(o) == c.Left(o)
  {
    assert Accounted(past, c, o.id);
  }

  lemma VolumeSnoc(ts: seq<Trade>, t: Trade)
    ensures Volume(ts + [t]) == Volume(ts) + t.amount
  {
    TotalSnoc(ts, t, (t: Trade) => t.amount);
  }

  /** The taker of a loop: entered, and not itself in a queue. */
  ghost predicate Active(c: Core, o: Order) { Known(c, o) && !QueuedId(c, o.id) }

  lemma TradedShape(c: Core, m: Market, o: Order)
    requires CanTrade(c, o) && c.Makers(o)[0].id != o.id
    ensures var c', maker := Traded(c, m, o), c.Makers(o)[0];
            var t := NextTrade(c, o, maker);
            && c'.table == c.table[o.id := Cell(o, c.Left(o) - t.amount, c.Status(o))]
                                  [maker.id := Cell(maker, c.Left(maker) - t.amount, c.Status(maker))]
            && c'.trades == c.trades[o.id := TradesOf(c.trades, o.id) + [t]]
                                    [maker.id := TradesOf(c.trades, maker.id) + [t]]
            && c'.stops == c.stops && c'.book == c.book && c'.nextId == c.nextId + 1 && !c'.halted
  {
  }

  lemma TradedCells(past: Past, c: Core, m: Market, o: Order)
    requires AllAccounted(past, c) && Active(c, o) && CanTrade(c, o)
    ensures CellsAccounted(past, Traded(c, m, o))
  {
    var maker := c.Makers(o)[0];
    var t := NextTrade(c, o, maker);
    assert c.book.Queued(maker) && Known(c, maker) && maker.id != o.id;
    TradedShape(c, m, o);
    FilledCells(past, c, Traded(c, m, o), o, maker, t);
  }

  /** A trade takes its amount off both orders and enters both trade lists. */
  lemma FilledCells(past: Past, c: Core, c': Core, o: Order, maker: Order, t: Trade)
    requires CellsAccounted(past, c) && Known(c, o) && Known(c, maker) && o.id != maker.id
    requires maker.amount >= 0.0 && c.Left(o) > 0.0 && t.amount == Min(c.Left(o), c.Left(maker))
    requires c'.table == c.table[o.id := Cell(o, c.Left(o) - t.amount, c.Status(o))]
                                [maker.id := Cell(maker, c.Left(maker) - t.amount, c.Status(maker))]
    requires c'.trades == c.trades[o.id := TradesOf(c.trades, o.id) + [t]]
                                  [maker.id := TradesOf(c.trades, maker.id) + [t]]
    requires c'.nextId == c.nextId + 1
    ensures CellsAccounted(past, c')
  {
    assert Accounted(past, c, o.id) && Accounted(past, c, maker.id);
    forall id | id in c'.table ensures Accounted(past, c', id) {
      assert Accounted(past, c, id);
      if id == o.id || id == maker.id {
        VolumeSnoc(TradesOf(c.trades, id), t);
      }
    }
  }

  lemma PoppedQueued(c: Core, side: Side, maker: Order)
    ensures FewerIn(c.book, PopIfDone(c, side, maker).book)
  {
    var q := c.book.Queue(side);
    if q != [] {
      PopContents(q);
      forall o | o in Popped(q) ensures o in q { assert o in multiset(Popped(q)); assert o in multiset(q); }
    }
  }

  lemma PushedQueued(q: seq<Order>, x: Order)
    ensures forall o :: o in Pushed(q, x) <==> o in q || o == x
  {
    SiftUpContents(q + [x], |q|);
    forall o ensures o in Pushed(q, x) <==> o in q + [x] {
      assert o in multiset(Pushed(q, x)) <==> o in multiset(q + [x]);
    }
  }

  lemma PoppedFunds(c: Core, side: Side, maker: Order)
    ensures var c' := PopIfDone(c, side, maker);
            && c'.ledger == c.ledger && c'.journal == c.journal && c'.stops == c.stops && c'.nextId == c.nextId
            && c'.table == c.table && c'.trades == c.trades
  {
  }

  lemma RestedFunds(c: Core, o: Order)
    ensures var c' := Rested(c, o);
            c'.ledger == c.ledger && c'.journal == c.journal && c'.stops == c.stops && c'.nextId == c.nextId
  {
  }

  lemma FiredEnters(c: Core, m: Listing, s: StopOrder)
    ensures var o := s.order.(id := c.nextId + 1);
            Fired(c, m, s) == Rested(TakerLoop(Entered(c.(nextId := o.id), o), m, o).core, o)
  {
  }

  lemma OrdersLeave(past: Past, c: Core, c': Core)
    requires AllAccounted(past, c) && FewerIn(c.book, c'.book)
    requires c'.table == c.table && c'.trades == c.trades && c'.nextId == c.nextId
    ensures AllAccounted(past, c') && Frame(c, c', {})
  {
    SameCellsStand(past, c, c');
    FewerKnown(c, c');
  }

  lemma PopAccounted(past: Past, c: Core, side: Side, maker: Order)
    requires AllAccounted(past, c)
    ensures var c' := PopIfDone(c, side, maker); AllAccounted(past, c') && Frame(c, c', {})
  {
    PoppedQueued(c, side, maker);
    OrdersLeave(past, c, PopIfDone(c, side, maker));
  }

  lemma EnteredAccounted(past: Past, c: Core, o: Order)
    requires AllAccounted(past, c) && o.id == c.nextId + 1
    ensures o.id !in c.table
    ensures var c' := Entered(c.(nextId := o.id), o); AllAccounted(past, c') && Frame(c, c', {o.id}) && Active(c', o)
  {
    var c' := Entered(c.(nextId := o.id), o);
    assert forall id :: id in c.table ==> Accounted(past, c, id);
    assert !QueuedId(c', o.id);
    forall id | id in c'.table ensures Accounted(past, c', id) {
      if id != o.id { assert Accounted(past, c, id); } else { assert TradesOf(c'.trades, id) == []; }
    }
  }

  lemma StatusAccounted(past: Past, c: Core, o: Order, s: Status)
    requires AllAccounted(past, c) && Active(c, o)
    ensures AllAccounted(past, c.WithStatus(o, s)) && CellsFall(c, c.WithStatus(o, s))
  {
    var c1 := c.WithStatus(o, s);
    assert Accounted(past, c, o.id);
    forall id | id in c1.table ensures Accounted(past, c1, id) { assert Accounted(past, c, id); }
    StillKnown(c, c1);
  }

  lemma RestedAccounted(past: Past, c: Core, o: Order)
    requires AllAccounted(past, c) && Active(c, o)
    ensures AllAccounted(past, Rested(c, o))
    ensures Rested(c, o).nextId == c.nextId && Rested(c, o).stops == c.stops && CellsFall(c, Rested(c, o))
    ensures forall p :: Rested(c, o).book.Queued(p) ==> c.book.Queued(p) || p == o
    ensures forall id :: id in c.table && id != o.id ==> Rested(c, o).table[id] == c.table[id]
  {
    var c1 := if c.halted then c else c.WithStatus(o, if 0.0 < c.Left(o) < o.amount then Partial else Finished);
    StatusAccounted(past, c, o, if 0.0 < c.Left(o) < o.amount then Partial else Finished);
    if 0.0 < c.Left(o) < o.amount { AddedKnown(past, c1, o); }
  }

  lemma AddedKnown(past: Past, c: Core, o: Order)
    requires AllAccounted(past, c) && Known(c, o) && o.amount >= 0.0
    ensures AllAccounted(past, AddedToBook(c, o))
    ensures forall p :: AddedToBook(c, o).book.Queued(p) ==> c.book.Queued(p) || p == o
  {
    var c' := AddedToBook(c, o);
    PushedQueued(c.book.Queue(o.side), o);
    SameCellsStand(past, c, c');
    forall p | c'.book.Queued(p) ensures Known(c', p) { assert c.book.Queued(p) || p == o; }
  }

  /** A whole taker loop keeps every trade list in step with its order. */
  lemma {:induction false} LoopAccounted(past: Past, c: Core, m: Market, o: Order)
    requires AllAccounted(past, c) && Active(c, o)
    ensures var c' := TakerLoop(c, m, o).core; AllAccounted(past, c') && Frame(c, c', {o.id}) && Active(c', o)
    decreases |c.stops|, 2, |c.Makers(o)|, if c.Left(o) > 0.0 then 1 else 0
  {
    if CanTrade(c, o) {
      var c2 := Iterated(c, m, o);
      IteratedAccounted(past, c, m, o);
      LoopAccounted(past, c2, m, o);
      FrameTrans(past, c, c2, TakerLoop(c2, m, o).core, {o.id});
    }
  }

  lemma TradedStaysAccounted(past: Past, c: Core, m: Market, o: Order)
    requires AllAccounted(past, c) && Active(c, o) && CanTrade(c, o)
    ensures var c' := Traded(c, m, o); AllAccounted(past, c') && Frame(c, c', {o.id}) && Active(c', o)
  {
    var maker := c.Makers(o)[0];
    TradedCells(past, c, m, o);
    assert c.book.Queued(maker) && QueuedId(c, maker.id);
    TradedShape(c, m, o);
    AmountNonNegative(past, c, o, maker);
    FilledFrame(c, Traded(c, m, o), o, maker);
  }

  lemma AmountNonNegative(past: Past, c: Core, o: Order, maker: Order)
    requires AllAccounted(past, c) && Known(c, o) && c.book.Queued(maker) && c.Left(o) > 0.0
    ensures Min(c.Left(o), c.Left(maker)) >= 0.0
  {
    assert Known(c, maker) && Accounted(past, c, maker.id);
  }

  lemma FilledFrame(c: Core, c': Core, o: Order, maker: Order)
    requires BookKnown(c) && Active(c, o) && c.book.Queued(maker)
    requires exists a, b :: a <= c.Left(o) && b <= c.Left(maker)
               && c'.table == c.table[o.id := Cell(o, a, c.Status(o))][maker.id := Cell(maker, b, c.Status(maker))]
    requires c'.book == c.book && c'.nextId == c.nextId + 1
    ensures BookKnown(c') && Frame(c, c', {o.id}) && Active(c', o)
  {
    assert Known(c, maker) && QueuedId(c, maker.id);
    StillKnown(c, c');
    assert forall id :: QueuedId(c', id) == QueuedId(c, id);
  }

  lemma {:induction false} IteratedAccounted(past: Past, c: Core, m: Market, o: Order)
    requires AllAccounted(past, c) && Active(c, o) && CanTrade(c, o)
    ensures var c' := Iterated(c, m, o); AllAccounted(past, c') && Frame(c, c', {o.id}) && Active(c', o)
    decreases |c.stops|, 1, 0, 0
  {
    var maker := c.Makers(o)[0];
    var c0 := Traded(c, m, o);
    TradedStaysAccounted(past, c, m, o);
    SweptAccounted(past, c0, m, maker.price);
    var c1 := Swept(c0, m, maker.price);
    FrameKeepsActive(past, c0, c1, o);
    FrameTrans(past, c, c0, c1, {o.id});
    if !c1.halted {
      var c2 := PopIfDone(c1, o.side.Opposite(), maker);
      PopAccounted(past, c1, o.side.Opposite(), maker);
      FrameKeepsActive(past, c1, c2, o);
      FrameTrans(past, c, c1, c2, {o.id});
    }
  }

  lemma {:induction false} SweptAccounted(past: Past, c: Core, m: Market, price: real)
    requires AllAccounted(past, c)
    ensures var c' := Swept(c, m, price); AllAccounted(past, c') && Frame(c, c', {})
    decreases |c.stops|, 0, 0, 0
  {
    var hit := Hit(c.stops, price);
    var c1 := c.(stops := Missed(c.stops, price), journal := c.journal.(fired := c.journal.fired + hit));
    OrdersLeave(past, c, c1);
    if hit != [] {
      FireAllAccounted(past, c1, m, hit);
      FrameTrans(past, c, c1, FireAll(c1, m, hit), {});
    }
  }

  lemma {:induction false} HitAndMissedAreStops(stops: seq<StopOrder>, price: real)
    ensures forall s :: s in Hit(stops, price) ==> s in stops && !s.triggered && Eligible(s, price)
    ensures forall s :: s in Missed(stops, price) ==> s in stops && !s.triggered && !Eligible(s, price)
  {
    if stops != [] {
      HitAndMissedAreStops(stops[1..], price);
    }
  }

  lemma {:induction false} FireAllAccounted(past: Past, c: Core, m: Market, hit: seq<StopOrder>)
    requires AllAccounted(past, c)
    ensures var c' := FireAll(c, m, hit); AllAccounted(past, c') && Frame(c, c', {})
    decreases |c.stops|, 4, |hit|, 0
  {
    if hit == [] || c.halted {
    } else {
      var c1 := Fired(c, m, hit[0]);
      FiredAccounted(past, c, m, hit[0]);
      FireAllAccounted(past, c1, m, hit[1..]);
      FrameTrans(past, c, c1, FireAll(c1, m, hit[1..]), {});
    }
  }

  lemma {:induction false} FiredAccounted(past: Past, c: Core, m: Market, s: StopOrder)
    requires AllAccounted(past, c)
    ensures var c' := Fired(c, m, s); AllAccounted(past, c') && Frame(c, c', {})
    decreases |c.stops|, 3, 0, 0
  {
    var o := s.order.(id := c.nextId + 1);
    var c1 := Entered(c.(nextId := o.id), o);
    EnteredAccounted(past, c, o);
    LoopAccounted(past, c1, m, o);
    var c2 := TakerLoop(c1, m, o).core;
    RestedAccounted(past, c2, o);
    FiredFrame(c, c1, c2, Rested(c2, o), o);
  }

  /** The fired order is new, so the rest of the engine sees only a frame. */
  lemma FiredFrame(c: Core, c1: Core, c2: Core, c3: Core, o: Order)
    requires o.id == c.nextId + 1 && o.id !in c.table && c1 == Entered(c.(nextId := o.id), o)
    requires Frame(c1, c2, {o.id})
    requires c3.nextId == c2.nextId && CellsFall(c2, c3)
    requires forall p :: c3.book.Queued(p) ==> c2.book.Queued(p) || p == o
    requires forall id :: id in c2.table && id != o.id ==> c3.table[id] == c2.table[id]
    ensures Frame(c, c3, {})
  {
    assert forall id :: QueuedId(c1, id) == QueuedId(c, id);
  }

  // ---------- the accounts alone, without the frame ----------

  lemma TradedKeeps(past: Past, c: Core, m: Market, o: Order)
    requires AllAccounted(past, c) && Active(c, o) && CanTrade(c, o)
    ensures AllAccounted(past, Traded(c, m, o)) && Active(Traded(c, m, o), o)
  {
    TradedStaysAccounted(past, c, m, o);
  }

  lemma IteratedKeeps(past: Past, c: Core, m: Market, o: Order)
    requires AllAccounted(past, c) && Active(c, o) && CanTrade(c, o)
    ensures AllAccounted(past, Iterated(c, m, o)) && Active(Iterated(c, m, o), o)
  {
    IteratedAccounted(past, c, m, o);
  }

  lemma SweptKeeps(past: Past, c: Core, m: Market, price: real, o: Order)
    requires AllAccounted(past, c) && Active(c, o)
    ensures Swept(c, m, price).Left(o) == c.Left(o)
  {
    SweptAccounted(past, c, m, price);
    FrameKeepsActive(past, c, Swept(c, m, price), o);
  }

  lemma FiredKeeps(past: Past, c: Core, m: Market, s: StopOrder)
    requires AllAccounted(past, c)
    ensures AllAccounted(past, Fired(c, m, s))
  {
    FiredAccounted(past, c, m, s);
  }

  lemma EnteredKeeps(past: Past, c: Core, o: Order)
    requires AllAccounted(past, c) && o.id == c.nextId + 1
    ensures o.id !in c.table
    ensures var c' := Entered(c.(nextId := o.id), o); AllAccounted(past, c') && Active(c', o)
  {
    EnteredAccounted(past, c, o);
  }

  /** What a sweep takes off the list leaves the accounts. */
  lemma OffListKeeps(past: Past, c: Core, c1: Core)
    requires AllAccounted(past, c) && c1.book == c.book && c1.table == c.table
    requires c1.trades == c.trades && c1.nextId == c.nextId
    ensures AllAccounted(past, c1)
  {
    OnlyAccounts(past, c, c1);
  }

  lemma LoopKeeps(past: Past, c: Core, m: Market, o: Order)
    requires AllAccounted(past, c) && Active(c, o)
    ensures AllAccounted(past, TakerLoop(c, m, o).core) && Active(TakerLoop(c, m, o).core, o)
  {
    LoopAccounted(past, c, m, o);
  }

  // ---------- calls ----------

  lemma OnlyAccounts(past: Past, c: Core, c': Core)
    requires AllAccounted(past, c) && c'.book == c.book && c'.table == c.table && c'.trades == c.trades
    requires c'.nextId >= c.nextId
    ensures AllAccounted(past, c')
  {
    SameCellsStand(past, c, c');
    StillKnown(c, c');
  }

  lemma PlaceEnters(c: Core, m: Market, o: Order, l: Ledger)
    requires Freeze(c.ledger, LockAcct(m, o), Need(o, o.amount)) == Done(l)
    ensures var c0 := c.(ledger := l);
            Place(c.(nextId := o.id), m, o).0 == Rested(TakerLoop(Entered(c0.(nextId := o.id), o), m, o).core, o)
  {
    assert c.(nextId := o.id).(ledger := l) == c.(ledger := l).(nextId := o.id);
  }

  lemma PlaceAccounted(past: Past, c: Core, m: Market, o: Order)
    requires AllAccounted(past, c) && o.id == c.nextId + 1
    ensures var c' := Place(c.(nextId := o.id), m, o).0; AllAccounted(past, c') && CellsFall(c, c')
  {
    OnlyAccounts(past, c, c.(nextId := o.id));
    match Freeze(c.ledger, LockAcct(m, o), Need(o, o.amount))
    case Refused(_) =>
    case Done(l) =>
      var c0 := c.(ledger := l);
      OnlyAccounts(past, c, c0);
      EnteredAccounted(past, c0, o);
      var c1 := Entered(c0.(nextId := o.id), o);
      LoopAccounted(past, c1, m, o);
      RestedAccounted(past, TakerLoop(c1, m, o).core, o);
      assert c1 == Entered(c.(nextId := o.id).(ledger := l), o);
  }

  lemma CancelShape(c: Core, m: Market, id: nat)
    requires BookKnown(c)
    ensures var c' := Cancel(c, m, id);
            && c'.trades == c.trades && c'.nextId == c.nextId && FewerIn(c.book, c'.book) && CellsFall(c, c')
            && c'.table.Keys == c.table.Keys && forall i :: i in c.table ==> c'.table[i].left == c.table[i].left
  {
    assert id in c.book.live ==> Known(c, c.book.live[id]);
  }

  lemma CancelAccounted(past: Past, c: Core, m: Market, id: nat)
    requires AllAccounted(past, c)
    ensures AllAccounted(past, Cancel(c, m, id))
  {
    var c' := Cancel(c, m, id);
    CancelShape(c, m, id);
    forall i | i in c'.table ensures Accounted(past, c', i) { assert Accounted(past, c, i); }
    FewerKnown(c, c');
  }

  // ---------- reading the trade list in pages ----------

  datatype Page = Page(trades: seq<Trade>, total: nat)

  /** `GetOrderTrades`. */
  function OrderTrades(m: map<nat, seq<Trade>>, id: nat, offset: nat, limit: nat): Page {
    var ts := TradesOf(m, id);
    if offset >= |ts| then Page([], |ts|)
    else Page(ts[offset..if offset + limit > |ts| then |ts| else offset + limit], |ts|)
  }

  /** Reading on from `offset`, one page after the other, until the reported total. */
  ghost function ReadOn(m: map<nat, seq<Trade>>, id: nat, offset: nat, limit: nat): seq<Trade>
    requires limit > 0
    decreases |TradesOf(m, id)| - offset
  {
    if offset >= OrderTrades(m, id, offset, limit).total then []
    else OrderTrades(m, id, offset, limit).trades + ReadOn(m, id, offset + limit, limit)
  }

  /** Whatever the page size, the pages in order are the trade list. */
  lemma {:induction false} PagesPartition(m: map<nat, seq<Trade>>, id: nat, offset: nat, limit: nat)
    requires limit > 0 && offset <= |TradesOf(m, id)|
    ensures ReadOn(m, id, offset, limit) == TradesOf(m, id)[offset..]
    decreases |TradesOf(m, id)| - offset
  {
    var ts := TradesOf(m, id);
    if offset + limit < |ts| {
      PagesPartition(m, id, offset + limit, limit);
      assert ts[offset..] == ts[offset..offset + limit] + ts[offset + limit..];
    } else if offset < |ts| {
      assert ReadOn(m, id, offset + limit, limit) == [];
    }
  }
}
