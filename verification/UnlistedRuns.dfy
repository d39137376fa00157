/** When every run keeps the trade lists in step with the cells: exactly when no book of a market
    that is not configured has anything left to fill. */
module UnlistedRuns {
  import opened Orders
  import opened Matching
  import opened FillLedger
  import opened StopSweeps
  import opened Exchanges
  import opened FillRuns
  import opened UnlistedTrades

  lemma {:induction false} RunAppend(x: Exchange, a: seq<Op>, b: seq<Op>)
    ensures Run(x, a + b) == Run(Run(x, a), b)
    decreases |a|
  {
    if a == [] {
      assert a + b == b;
    } else {
      assert (a + b)[0] == a[0] && (a + b)[1..] == a[1..] + b;
      RunAppend(Step(x, a[0]), a[1..], b);
    }
  }

  /** One cancel for each waiting stop order, in list order. */
  function Cancels(name: string, stops: seq<StopOrder>): seq<Op> {
    if stops == [] then [] else [CancelStop(name, stops[0].order.id)] + Cancels(name, stops[1..])
  }

  /** The same engine, as far as orders and books go. */
  ghost predicate SameTrading(x: Exchange, x': Exchange) {
    && x'.markets == x.markets && x'.books == x.books && x'.table == x.table && x'.trades == x.trades
    && x'.nextId == x.nextId && x'.halted == x.halted
  }

  lemma {:induction false} CancelsEmptyTheList(x: Exchange, name: string)
    requires !x.halted
    ensures var y := Run(x, Cancels(name, x.StopsOf(name))); SameTrading(x, y) && y.StopsOf(name) == []
    decreases |x.StopsOf(name)|
  {
    var stops := x.StopsOf(name);
    if stops != [] {
      var op := CancelStop(name, stops[0].order.id);
      var x1 := Step(x, op);
      assert x1.StopsOf(name) == stops[1..];
      CancelsEmptyTheList(x1, name);
      assert Cancels(name, stops)[1..] == Cancels(name, stops[1..]);
    }
  }

  // ---------- a stop order that reaches everybody ----------

  /** A limit price at which a taker of `side` reaches every order of `q`. */
  function ReachingPrice(q: seq<Order>, side: Side): real {
    if q == [] then 0.0
    else
      var rest, p := ReachingPrice(q[1..], side), q[0].price;
      if side.Bid? == (p > rest) then p else rest
  }

  lemma {:induction false} ReachesAll(q: seq<Order>, o: Order)
    requires o.price == ReachingPrice(q, o.side)
    ensures forall z :: z in q ==> !OutOfReach(o, z)
  {
    if q != [] {
      ReachesAll(q[1..], o.(price := ReachingPrice(q[1..], o.side)));
      forall z | z in q ensures !OutOfReach(o, z) {
        assert z == q[0] || z in q[1..];
        assert z in q[1..] ==> !OutOfReach(o.(price := ReachingPrice(q[1..], o.side)), z);
      }
    }
  }

  /** The calls after which something has been taken from the queue of `side`. */
  function Stirring(x: Exchange, name: string, side: Side): seq<Op> {
    var taker := side.Opposite();
    Cancels(name, x.StopsOf(name))
    + [AddStop(0, name, taker, ReachingPrice(x.BookOf(name).Queue(side), taker), 1.0, 0.0), SweepStops(name, 0.0)]
  }

  ghost predicate TookSome(x: Exchange, x': Exchange) {
    && x'.trades == x.trades
    && exists id :: id in x.table && id in x'.table && x'.table[id].order == x.table[id].order
                    && x'.table[id].left < x.table[id].left
  }

  lemma EnteredTakesSome(c: Core, o: Order, y: Order)
    requires Bounded(c) && !c.halted && o.id == c.nextId + 1 && o.amount > 0.0
    requires o.price == ReachingPrice(c.Makers(o), o.side) && y in c.Makers(o) && c.Left(y) > 0.0
    ensures var c' := Rested(TakerLoop(Entered(c.(nextId := o.id), o), Unlisted, o).core, o);
            TookFromSome(c.table, c'.table, o.id)
  {
    var c1 := Entered(c.(nextId := o.id), o);
    var c2 := TakerLoop(c1, Unlisted, o).core;
    EnteredBounded(c, c1, o);
    ReachesAll(c.Makers(o), o);
    assert c.book.Queued(y) && Known(c, y);
    LoopTakesSome(c1, o, y);
    RestedTakesSame(c.table, c1, c2, o);
  }

  lemma FiredTakesSome(c: Core, s: StopOrder, y: Order)
    requires Bounded(c) && !c.halted && c.stops == [s] && !s.triggered && Eligible(s, 0.0) && s.order.amount > 0.0
    requires s.order.price == ReachingPrice(c.Makers(s.order), s.order.side)
    requires y in c.Makers(s.order) && c.Left(y) > 0.0
    ensures var c' := Swept(c, Unlisted, 0.0);
            TookFromSome(c.table, c'.table, c.nextId + 1)
  {
    var c0 := c.(stops := [], journal := c.journal.(fired := c.journal.fired + [s]));
    var o := s.order.(id := c.nextId + 1);
    StillBounded(c, c0);
    SweptByOne(c, Unlisted, 0.0, s);
    FiredEnters(c0, Unlisted, s);
    EnteredTakesSome(c0, o, y);
  }

  lemma StillBounded(c: Core, c': Core)
    requires Bounded(c) && c'.table == c.table && c'.book == c.book && c'.trades == c.trades && c'.nextId == c.nextId
    ensures Bounded(c')
  {
    StillKnown(c, c');
  }

  lemma RestedTakesSame(t: map<nat, Cell>, c1: Core, c2: Core, o: Order)
    requires c1.table == t[o.id := Cell(o, o.amount, Pending)] && TookFromSome(c1.table, c2.table, o.id)
    ensures TookFromSome(t, Rested(c2, o).table, o.id)
  {
    var id :| id in c1.table && id != o.id && id in c2.table && c2.table[id].left < c1.table[id].left;
    assert id in t && Rested(c2, o).table[id] == c2.table[id];
  }

  // ---------- the condition ----------

  lemma StirringTakes(x: Exchange, name: string, side: Side, y: Order)
    requires ExchangeBounded(x) && !x.halted && name !in x.markets
    requires y in x.BookOf(name).Queue(side) && x.Slice(name).Left(y) > 0.0
    ensures TookSome(x, Run(x, Stirring(x, name, side)))
  {
    var q, taker := x.BookOf(name).Queue(side), side.Opposite();
    var add, sweep := AddStop(0, name, taker, ReachingPrice(q, taker), 1.0, 0.0), SweepStops(name, 0.0);
    var x1 := Run(x, Cancels(name, x.StopsOf(name)));
    CancelsEmptyTheList(x, name);
    RunAppend(x, Cancels(name, x.StopsOf(name)), [add, sweep]);
    var x2 := Step(x1, add);
    RunTwo(x1, add, sweep);
    assert x2.StopsOf(name) == [StopOf(add)] by { assert [] + [StopOf(add)] == [StopOf(add)]; }
    SweepTakes(x, x2, name, StopOf(add), y);
  }

  lemma RunTwo(x: Exchange, a: Op, b: Op)
    ensures Run(x, [a, b]) == Step(Step(x, a), b)
  {
    assert [a, b][1..] == [b] && [b][1..] == [];
    assert Run(Step(x, a), [b]) == Run(Step(Step(x, a), b), []);
  }

  lemma SweepTakes(x: Exchange, x2: Exchange, name: string, s: StopOrder, y: Order)
    requires ExchangeBounded(x) && !x.halted && name !in x.markets && SameTrading(x, x2)
    requires x2.StopsOf(name) == [s] && !s.triggered && Eligible(s, 0.0) && s.order.amount > 0.0
    requires s.order.price == ReachingPrice(x.Slice(name).Makers(s.order), s.order.side)
    requires y in x.Slice(name).Makers(s.order) && x.Slice(name).Left(y) > 0.0
    ensures TookSome(x, Step(x2, SweepStops(name, 0.0)))
  {
    var c := x2.Slice(name);
    assert Bounded(x.Slice(name));
    StillBounded(x.Slice(name), c);
    OneStop(s, 0.0);
    FiredTakesSome(c, s, y);
    SilentSweep(c, 0.0);
    SweepBounded(c, 0.0);
    assert Step(x2, SweepStops(name, 0.0)) == x2.With(name, Swept(c, Unlisted, 0.0));
  }

  lemma TakenIsUnaccounted(past: Past, x: Exchange, x': Exchange)
    requires ExchangeAccounted(past, x) && TookSome(x, x')
    ensures !ExchangeAccounted(past, x')
  {
    var id :| id in x.table && id in x'.table && x'.table[id].order == x.table[id].order
              && x'.table[id].left < x.table[id].left;
    assert AllAccounted(past, x.Slice("")) && Accounted(past, x.Slice(""), id);
    assert !Accounted(past, x'.Slice(""), id);
    assert !AllAccounted(past, x'.Slice(""));
  }

  lemma UnspentIsStirred(past: Past, x: Exchange)
    requires ExchangeAccounted(past, x) && !x.halted && !UnlistedSpent(x)
    ensures exists ops :: !ExchangeAccounted(past, Run(x, ops))
  {
    var name :| name !in x.markets && !Spent(x.Slice(name));
    var y :| x.BookOf(name).Queued(y) && x.Slice(name).Left(y) > 0.0;
    var side := if y in x.BookOf(name).asks then Ask else Bid;
    AccountedExchangeIsBounded(past, x);
    StirringTakes(x, name, side, y);
    TakenIsUnaccounted(past, x, Run(x, Stirring(x, name, side)));
  }

  /** The trade lists stay in step with the cells over every run exactly when no book of a market
      that is not configured has anything left to fill. Loading an orders file can put such a book
      there, the handler of stop orders takes any market name, and the periodic sweep goes through
      every book. */
  lemma RunsStayAccountedIff(past: Past, x: Exchange)
    requires ExchangeAccounted(past, x) && !x.halted
    ensures (forall ops :: ExchangeAccounted(past, Run(x, ops))) <==> UnlistedSpent(x)
  {
    if UnlistedSpent(x) {
      forall ops ensures ExchangeAccounted(past, Run(x, ops)) { RunAccounted(past, x, ops); }
    } else {
      UnspentIsStirred(past, x);
    }
  }
}
