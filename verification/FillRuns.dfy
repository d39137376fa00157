/** The fill ledger over runs of every call, stop orders included. */
module FillRuns {
  import opened Orders
  import opened Matching
  import opened FillLedger
  import opened Exchanges
  import opened StopSweeps
  import opened UnlistedTrades

  ghost predicate ExchangeAccounted(past: Past, x: Exchange) { forall name :: AllAccounted(past, x.Slice(name)) }

  /** No call drops an order from the cells, changes one of its fixed fields or gives it more. */
  ghost predicate KeepsOrders(x: Exchange, x': Exchange) { TableFalls(x.table, x'.table) }

  lemma SliceOfWith(x: Exchange, name: string, c: Core)
    ensures x.With(name, c).Slice(name) == c
    ensures forall n :: n != name ==>
        x.With(name, c).BookOf(n) == x.BookOf(n) && x.With(name, c).StopsOf(n) == x.StopsOf(n)
  {
  }

  /** A call that keeps the accounts of its own market keeps those of all others. */
  lemma OthersAccounted(past: Past, x: Exchange, name: string, c: Core)
    requires ExchangeAccounted(past, x) && AllAccounted(past, c) && CellsFall(x.Slice(name), c)
    ensures ExchangeAccounted(past, x.With(name, c))
  {
    var x' := x.With(name, c);
    SliceOfWith(x, name, c);
    forall n ensures AllAccounted(past, x'.Slice(n)) {
      if n != name {
        assert AllAccounted(past, x.Slice(n));
        StillKnown(x.Slice(n), x'.Slice(n));
        SameCellsStand(past, c, x'.Slice(n));
      }
    }
  }

  lemma SameCells(past: Past, x: Exchange, x': Exchange)
    requires ExchangeAccounted(past, x)
    requires x'.books == x.books && x'.table == x.table && x'.trades == x.trades && x'.nextId >= x.nextId
    ensures ExchangeAccounted(past, x')
  {
    forall n ensures AllAccounted(past, x'.Slice(n)) {
      assert AllAccounted(past, x.Slice(n));
      OnlyAccounts(past, x.Slice(n), x'.Slice(n));
    }
  }

  lemma CancelStepAccounted(past: Past, x: Exchange, id: nat, name: string)
    requires ExchangeAccounted(past, x)
    ensures ExchangeAccounted(past, CancelOrder(x, id, name)) && KeepsOrders(x, CancelOrder(x, id, name))
  {
    var c := x.Slice(name);
    assert AllAccounted(past, c);
    if name in x.books && name in x.markets {
      CancelAccounted(past, c, x.markets[name], id);
      CancelShape(c, x.markets[name], id);
      OthersAccounted(past, x, name, Cancel(c, x.markets[name], id));
    } else if name in x.books {
      var b := x.books[name].(live := x.books[name].live - {id});
      OthersAccountedBook(past, x, name, b);
    }
  }

  lemma OthersAccountedBook(past: Past, x: Exchange, name: string, b: Book)
    requires ExchangeAccounted(past, x)
    requires FewerIn(x.BookOf(name), b)
    ensures ExchangeAccounted(past, x.(books := x.books[name := b]))
  {
    var x' := x.(books := x.books[name := b]);
    forall n ensures AllAccounted(past, x'.Slice(n)) {
      assert AllAccounted(past, x.Slice(n));
      OrdersLeave(past, x.Slice(n), x'.Slice(n));
    }
  }

  lemma CheckStepAccounted(past: Past, x: Exchange, name: string, lastPrice: real)
    requires ExchangeAccounted(past, x) && Hit(x.StopsOf(name), lastPrice) == []
    ensures ExchangeAccounted(past, SweepMarket(x, name, lastPrice)) && KeepsOrders(x, SweepMarket(x, name, lastPrice))
  {
    SliceOfWith(x, name, x.Slice(name).(stops := Missed(x.StopsOf(name), lastPrice)));
    SameCells(past, x, SweepMarket(x, name, lastPrice));
  }

  /** Where the market is configured, or its book has nothing left to fill. */
  lemma SweepStepAccounted(past: Past, x: Exchange, name: string, lastPrice: real)
    requires ExchangeAccounted(past, x) && (name in x.markets || Spent(x.Slice(name)))
    ensures ExchangeAccounted(past, SweepMarket(x, name, lastPrice)) && KeepsOrders(x, SweepMarket(x, name, lastPrice))
  {
    var c, c' := x.Slice(name), Swept(x.Slice(name), ListingOf(x.markets, name), lastPrice);
    assert AllAccounted(past, c);
    if Hit(x.StopsOf(name), lastPrice) == [] {
      CheckStepAccounted(past, x, name, lastPrice);
    } else {
      if name in x.markets { SweptAccounted(past, c, x.markets[name], lastPrice); }
      else { UnlistedSweepAccounted(past, c, lastPrice); }
      OthersAccounted(past, x, name, c');
    }
  }

  lemma UnlistedSweepAccounted(past: Past, c: Core, lastPrice: real)
    requires AllAccounted(past, c) && Spent(c)
    ensures var c' := Swept(c, Unlisted, lastPrice); AllAccounted(past, c') && CellsFall(c, c')
  {
    AccountedIsBounded(past, c);
    SweepBounded(c, lastPrice);
    SweepFillsNothing(c, lastPrice);
    SilentSweep(c, lastPrice);
    FillsNothingAccounted(past, c, Swept(c, Unlisted, lastPrice));
  }

  lemma PlaceStepAccounted(past: Past, x: Exchange, o: Order)
    requires ExchangeAccounted(past, x) && o.id == x.nextId + 1
    ensures ExchangeAccounted(past, PlaceNew(x, o)) && KeepsOrders(x, PlaceNew(x, o))
  {
    var x1 := x.(nextId := o.id);
    SameCells(past, x, x1);
    if o.market in x.markets {
      var c := x.Slice(o.market);
      assert AllAccounted(past, c) && x1.Slice(o.market) == c.(nextId := o.id);
      PlaceAccounted(past, c, x.markets[o.market], o);
      OthersAccounted(past, x1, o.market, Place(c.(nextId := o.id), x.markets[o.market], o).0);
    }
  }

  lemma {:induction false} WithoutStopIsPart(stops: seq<StopOrder>, id: nat)
    ensures forall s :: s in WithoutStop(stops, id) ==> s in stops
  {
    if stops != [] && stops[0].order.id != id { WithoutStopIsPart(stops[1..], id); }
  }

  lemma StopStepAccounted(past: Past, x: Exchange, op: Op)
    requires ExchangeAccounted(past, x) && !x.halted && (op.AddStop? || op.CancelStop? || op.Deposit? || op.Withdraw?)
    ensures ExchangeAccounted(past, Step(x, op)) && KeepsOrders(x, Step(x, op))
  {
    if op.CancelStop? {
      SliceOfWith(x, op.market, x.Slice(op.market).(stops := WithoutStop(x.StopsOf(op.market), op.id)));
    }
    SameCells(past, x, Step(x, op));
  }

  /** Only a sweep on a market that is not configured can leave the accounts behind. */
  predicate SweepsUnlisted(x: Exchange, op: Op) { op.SweepStops? && op.market !in x.markets }

  lemma StepAccounted(past: Past, x: Exchange, op: Op)
    requires ExchangeAccounted(past, x) && (SweepsUnlisted(x, op) ==> Spent(x.Slice(op.market)))
    ensures ExchangeAccounted(past, Step(x, op)) && KeepsOrders(x, Step(x, op))
  {
    var x' := Step(x, op);
    if x.halted {
      assert x' == x;
    } else if op.PlaceLimit? {
      var o := Order(x.nextId + 1, op.userId, op.market, op.side, op.price, op.amount);
      assert x' == PlaceNew(x, o);
      PlaceStepAccounted(past, x, o);
    } else if op.CancelLimit? {
      assert x' == CancelOrder(x, op.id, op.market);
      CancelStepAccounted(past, x, op.id, op.market);
    } else if op.SweepStops? {
      assert x' == SweepMarket(x, op.market, op.lastPrice);
      SweepStepAccounted(past, x, op.market, op.lastPrice);
    } else {
      StopStepAccounted(past, x, op);
    }
  }

  // ---------- what holds whatever the configuration ----------

  ghost predicate ExchangeBounded(x: Exchange) { forall name :: Bounded(x.Slice(name)) }

  ghost function UnrecordedIn(x: Exchange): Past { Unrecorded(x.Slice("")) }

  lemma AccountedExchangeIsBounded(past: Past, x: Exchange)
    requires ExchangeAccounted(past, x)
    ensures ExchangeBounded(x)
  {
    forall name ensures Bounded(x.Slice(name)) { AccountedIsBounded(past, x.Slice(name)); }
  }

  lemma BoundedExchangeIsAccounted(x: Exchange)
    requires ExchangeBounded(x)
    ensures ExchangeAccounted(UnrecordedIn(x), x)
  {
    forall name ensures AllAccounted(UnrecordedIn(x), x.Slice(name)) {
      assert Bounded(x.Slice(name));
      BoundedIsAccounted(x.Slice(name));
      assert Unrecorded(x.Slice(name)) == UnrecordedIn(x);
    }
  }

  lemma OthersBounded(x: Exchange, name: string, c: Core)
    requires ExchangeBounded(x) && Bounded(c) && CellsFall(x.Slice(name), c)
    ensures ExchangeBounded(x.With(name, c))
  {
    var x' := x.With(name, c);
    SliceOfWith(x, name, c);
    forall n ensures Bounded(x'.Slice(n)) {
      if n != name {
        assert Bounded(x.Slice(n));
        StillKnown(x.Slice(n), x'.Slice(n));
      }
    }
  }

  lemma StepBounded(x: Exchange, op: Op)
    requires ExchangeBounded(x)
    ensures ExchangeBounded(Step(x, op)) && KeepsOrders(x, Step(x, op))
  {
    BoundedExchangeIsAccounted(x);
    if SweepsUnlisted(x, op) && !x.halted && Hit(x.StopsOf(op.market), op.lastPrice) != [] {
      var c := x.Slice(op.market);
      assert Bounded(c) && Step(x, op) == x.With(op.market, Swept(c, Unlisted, op.lastPrice));
      SweepBounded(c, op.lastPrice);
      OthersBounded(x, op.market, Swept(c, Unlisted, op.lastPrice));
    } else {
      if SweepsUnlisted(x, op) && !x.halted { CheckStepAccounted(UnrecordedIn(x), x, op.market, op.lastPrice); }
      else if !x.halted { StepAccounted(UnrecordedIn(x), x, op); }
      AccountedExchangeIsBounded(UnrecordedIn(x), Step(x, op));
    }
  }

  lemma {:induction false} RunBounded(x: Exchange, ops: seq<Op>)
    requires ExchangeBounded(x)
    ensures ExchangeBounded(Run(x, ops)) && KeepsOrders(x, Run(x, ops))
    decreases |ops|
  {
    if ops != [] {
      StepBounded(x, ops[0]);
      RunBounded(Step(x, ops[0]), ops[1..]);
    }
  }

  /** In every state a run of any calls reaches, left lies between zero and the amount exactly
      for the orders that entered with a non-negative amount; the others keep all they entered
      with. */
  lemma RunLeftInBoundsIff(x: Exchange, ops: seq<Op>, id: nat)
    requires ExchangeBounded(x) && id in Run(x, ops).table
    ensures var cell := Run(x, ops).table[id];
            && (0.0 <= cell.left <= cell.order.amount <==> cell.order.amount >= 0.0)
            && (cell.order.amount < 0.0 ==> cell.left == cell.order.amount)
  {
    RunBounded(x, ops);
    assert Bounded(Run(x, ops).Slice(""));
  }

  // ---------- the accounts over runs ----------

  /** No book of a market that is not configured has anything left to fill. */
  ghost predicate UnlistedSpent(x: Exchange) { forall name :: name !in x.markets ==> Spent(x.Slice(name)) }

  lemma SpentStays(x: Exchange, x': Exchange, name: string)
    requires ExchangeBounded(x) && KeepsOrders(x, x') && FewerIn(x.BookOf(name), x'.BookOf(name))
    requires Spent(x.Slice(name))
    ensures Spent(x'.Slice(name))
  {
    forall o | x'.BookOf(name).Queued(o) ensures x'.Slice(name).Left(o) <= 0.0 {
      assert Bounded(x.Slice(name)) && x.Slice(name).book.Queued(o) && Known(x.Slice(name), o);
    }
  }

  /** Only a sweep can change the queues of a market that is not configured. */
  lemma UnlistedBooks(x: Exchange, op: Op, name: string)
    requires name !in x.markets && Bounded(x.Slice(name)) && Spent(x.Slice(name))
    ensures FewerIn(x.BookOf(name), Step(x, op).BookOf(name)) && Step(x, op).markets == x.markets
  {
    if !x.halted {
      match op
      case SweepStops(market, lastPrice) => SweptBooks(x, market, lastPrice, name);
      case CancelLimit(id, market) => CanceledBooks(x, id, market, name);
      case PlaceLimit(userId, market, side, price, amount) =>
        PlacedBooks(x, Order(x.nextId + 1, userId, market, side, price, amount), name);
      case _ =>
    }
  }

  lemma PlacedBooks(x: Exchange, o: Order, name: string)
    requires name !in x.markets
    ensures PlaceNew(x, o).BookOf(name) == x.BookOf(name) && PlaceNew(x, o).markets == x.markets
  {
  }

  lemma CanceledBooks(x: Exchange, id: nat, market: string, name: string)
    requires name !in x.markets
    ensures var x' := CancelOrder(x, id, market); FewerIn(x.BookOf(name), x'.BookOf(name)) && x'.markets == x.markets
  {
    if market == name {
      CanceledUnlisted(x, id, name);
    } else if market in x.markets && market in x.books {
      SliceOfWith(x, market, Cancel(x.Slice(market), x.markets[market], id));
      assert CancelOrder(x, id, market).BookOf(name) == x.BookOf(name);
    }
  }

  lemma CanceledUnlisted(x: Exchange, id: nat, name: string)
    requires name !in x.markets
    ensures var x' := CancelOrder(x, id, name); FewerIn(x.BookOf(name), x'.BookOf(name)) && x'.markets == x.markets
  {
    var b, x' := x.BookOf(name), CancelOrder(x, id, name);
    assert FewerIn(b, b.(live := b.live - {id}));
    assert x'.BookOf(name) == b || x'.BookOf(name) == b.(live := b.live - {id});
  }

  lemma SweptBooks(x: Exchange, market: string, lastPrice: real, name: string)
    requires name !in x.markets && Bounded(x.Slice(name)) && Spent(x.Slice(name))
    ensures var x' := SweepMarket(x, market, lastPrice);
            FewerIn(x.BookOf(name), x'.BookOf(name)) && x'.markets == x.markets
  {
    if market == name && Hit(x.StopsOf(name), lastPrice) != [] { SweepFillsNothing(x.Slice(name), lastPrice); }
  }

  lemma StepUnlistedSpent(x: Exchange, op: Op)
    requires ExchangeBounded(x) && UnlistedSpent(x)
    ensures UnlistedSpent(Step(x, op)) && Step(x, op).markets == x.markets
  {
    var x' := Step(x, op);
    StepBounded(x, op);
    forall name | name !in x.markets ensures Spent(x'.Slice(name)) {
      UnlistedBooks(x, op, name);
      SpentStays(x, x', name);
    }
    SameMarkets(x, op);
  }

  lemma SameMarkets(x: Exchange, op: Op)
    ensures Step(x, op).markets == x.markets
  {
  }

  /** Over every run that starts with nothing left to fill where no market is configured, each
      order that ever entered satisfies: amount less left is what it had filled when it was loaded
      plus the volume of its trade list. */
  lemma {:induction false} RunAccounted(past: Past, x: Exchange, ops: seq<Op>)
    requires ExchangeAccounted(past, x) && UnlistedSpent(x)
    ensures ExchangeAccounted(past, Run(x, ops)) && KeepsOrders(x, Run(x, ops)) && UnlistedSpent(Run(x, ops))
    decreases |ops|
  {
    if ops != [] {
      StepAccounted(past, x, ops[0]);
      AccountedExchangeIsBounded(past, x);
      StepUnlistedSpent(x, ops[0]);
      RunAccounted(past, Step(x, ops[0]), ops[1..]);
    }
  }

  /** The handler of stop orders lets a negative amount through; the order enters with it. */
  lemma NegativeStopEnters(markets: Markets, market: string)
    ensures var ops := [AddStop(1, market, Bid, 1.0, -1.0, 1.0), SweepStops(market, 1.0)];
            var x := Run(Started(markets), ops);
            1 in x.table && x.table[1].left == -1.0
  {
    var ops := [AddStop(1, market, Bid, 1.0, -1.0, 1.0), SweepStops(market, 1.0)];
    var x := Started(markets);
    var x1 := Step(x, ops[0]);
    assert Run(x, ops) == Step(x1, ops[1]) by {
      assert ops[1..][0] == ops[1] && ops[1..][1..] == [];
      assert Run(Step(x1, ops[1]), []) == Step(x1, ops[1]);
    }
    var s := StopOf(ops[0]);
    assert x1.StopsOf(market) == [s] by { assert [] + [s] == [s]; }
    OneStop(s, 1.0);
    SweptByOne(x1.Slice(market), ListingOf(markets, market), 1.0, s);
  }
}
