/** An engine that starts with empty books never trades: the resting rule admits only
    orders that have already traded. */
module EmptyRuns {
  import opened Orders
  import opened Ledgers
  import opened Matching
  import opened Exchanges
  import opened FillRuns

  ghost predicate Idle(c: Core, c': Core) {
    c'.book == c.book && c'.journal.deals == c.journal.deals && c'.trades == c.trades && !c'.halted
  }

  lemma EmptyTaker(c: Core, m: Listing, o: Order)
    requires c.book.bids == [] && c.book.asks == [] && !c.halted
    ensures TakerLoop(c, m, o) == Taken(c, [])
  {
  }

  lemma {:induction false} EmptyFireAll(c: Core, m: Listing, hit: seq<StopOrder>)
    requires c.book.bids == [] && c.book.asks == [] && !c.halted
    ensures Idle(c, FireAll(c, m, hit))
    decreases |hit|
  {
    if hit != [] {
      var o := hit[0].order.(id := c.nextId + 1);
      EmptyTaker(Entered(c.(nextId := o.id), o), m, o);
      EmptyFireAll(Fired(c, m, hit[0]), m, hit[1..]);
    }
  }

  ghost predicate AllEmpty(x: Exchange) {
    !x.halted && forall name :: x.BookOf(name).bids == [] && x.BookOf(name).asks == []
  }

  lemma IdleAfter(x: Exchange, name: string, c: Core)
    requires AllEmpty(x) && Idle(x.Slice(name), c)
    ensures AllEmpty(x.With(name, c)) && x.With(name, c).journal.deals == x.journal.deals
  {
    SliceOfWith(x, name, c);
    forall n ensures x.With(name, c).BookOf(n).bids == [] && x.With(name, c).BookOf(n).asks == [] {
      assert x.BookOf(n).bids == [] && x.BookOf(n).asks == [];
    }
  }

  lemma PlaceIdle(x: Exchange, o: Order)
    requires AllEmpty(x)
    ensures AllEmpty(PlaceNew(x, o)) && PlaceNew(x, o).journal.deals == x.journal.deals
  {
    var x1 := x.(nextId := o.id);
    forall n ensures x1.BookOf(n).bids == [] && x1.BookOf(n).asks == [] {
      assert x.BookOf(n).bids == [] && x.BookOf(n).asks == [];
    }
    if o.market in x.markets {
      var c := x1.Slice(o.market);
      assert x.BookOf(o.market).bids == [];
      var m := x.markets[o.market];
      var l := Freeze(c.ledger, LockAcct(m, o), Need(o, o.amount)).Else(c.ledger);
      EmptyTaker(Entered(c.(ledger := l), o), m, o);
      IdleAfter(x1, o.market, Place(c, x.markets[o.market], o).0);
    }
  }

  lemma SweepIdle(x: Exchange, name: string, lastPrice: real)
    requires AllEmpty(x)
    ensures AllEmpty(SweepMarket(x, name, lastPrice))
        && SweepMarket(x, name, lastPrice).journal.deals == x.journal.deals
  {
    var c := x.Slice(name);
    assert x.BookOf(name).bids == [];
    var hit := Hit(c.stops, lastPrice);
    if hit == [] {
      IdleAfter(x, name, c.(stops := Missed(c.stops, lastPrice)));
      var x' := SweepMarket(x, name, lastPrice);
      forall n ensures x'.BookOf(n).bids == [] && x'.BookOf(n).asks == [] { assert x.BookOf(n).bids == []; }
    } else {
      var c1 := c.(stops := Missed(c.stops, lastPrice), journal := c.journal.(fired := c.journal.fired + hit));
      EmptyFireAll(c1, ListingOf(x.markets, name), hit);
      IdleAfter(x, name, Swept(c, ListingOf(x.markets, name), lastPrice));
    }
  }

  lemma StepIdle(x: Exchange, op: Op)
    requires AllEmpty(x)
    ensures AllEmpty(Step(x, op)) && Step(x, op).journal.deals == x.journal.deals
  {
    var x' := Step(x, op);
    if op.PlaceLimit? {
      var o := Order(x.nextId + 1, op.userId, op.market, op.side, op.price, op.amount);
      assert x' == PlaceNew(x, o);
      PlaceIdle(x, o);
    } else if op.SweepStops? {
      assert x' == SweepMarket(x, op.market, op.lastPrice);
      SweepIdle(x, op.market, op.lastPrice);
    } else if op.CancelLimit? {
      CancelIdle(x, op.id, op.market);
      assert x' == CancelOrder(x, op.id, op.market);
    } else {
      forall n ensures x'.BookOf(n).bids == [] && x'.BookOf(n).asks == [] { assert x.BookOf(n).bids == []; }
    }
  }

  lemma CancelIdle(x: Exchange, id: nat, name: string)
    requires AllEmpty(x)
    ensures AllEmpty(CancelOrder(x, id, name)) && CancelOrder(x, id, name).journal.deals == x.journal.deals
  {
    if name in x.books && name in x.markets {
      CancelQueues(x.Slice(name), x.markets[name], id);
    }
    forall n ensures CancelOrder(x, id, name).BookOf(n).bids == [] && CancelOrder(x, id, name).BookOf(n).asks == [] {
      assert x.BookOf(n).bids == [] && x.BookOf(n).asks == [];
    }
  }

  lemma CancelQueues(c: Core, m: Market, id: nat)
    ensures var c' := Cancel(c, m, id);
            && c'.book.bids == c.book.bids && c'.book.asks == c.book.asks
            && c'.journal.deals == c.journal.deals && c'.halted == c.halted
  {
  }

  lemma {:induction false} RunIdle(x: Exchange, ops: seq<Op>)
    requires AllEmpty(x)
    ensures AllEmpty(Run(x, ops)) && Run(x, ops).journal.deals == x.journal.deals
    decreases |ops|
  {
    if ops != [] {
      StepIdle(x, ops[0]);
      RunIdle(Step(x, ops[0]), ops[1..]);
    }
  }

  /** No run from a freshly started engine ever trades, whatever is placed. */
  lemma StartNeverTrades(markets: Markets, ops: seq<Op>)
    ensures Run(Started(markets), ops).journal.deals == []
  {
    RunIdle(Started(markets), ops);
  }

  // ---------- markets that are not configured ----------

  ghost predicate UnlistedEmpty(x: Exchange) {
    forall name :: name !in x.markets ==> x.BookOf(name).bids == [] && x.BookOf(name).asks == []
  }

  lemma UnlistedAfter(x: Exchange, name: string, c: Core)
    requires UnlistedEmpty(x) && (name !in x.markets ==> c.book.bids == [] && c.book.asks == [])
    ensures UnlistedEmpty(x.With(name, c))
  {
    SliceOfWith(x, name, c);
    forall n | n !in x.markets ensures x.With(name, c).BookOf(n).bids == [] && x.With(name, c).BookOf(n).asks == [] {
      assert n != name ==> x.BookOf(n).bids == [] && x.BookOf(n).asks == [];
    }
  }

  lemma SweepUnlisted(x: Exchange, name: string, lastPrice: real)
    requires UnlistedEmpty(x) && !x.halted
    ensures UnlistedEmpty(SweepMarket(x, name, lastPrice)) && SweepMarket(x, name, lastPrice).markets == x.markets
  {
    var c, hit := x.Slice(name), Hit(x.StopsOf(name), lastPrice);
    if hit != [] {
      if name !in x.markets {
        assert x.BookOf(name).bids == [];
        var c1 := c.(stops := Missed(c.stops, lastPrice), journal := c.journal.(fired := c.journal.fired + hit));
        EmptyFireAll(c1, ListingOf(x.markets, name), hit);
      }
      UnlistedAfter(x, name, Swept(c, ListingOf(x.markets, name), lastPrice));
    }
  }

  lemma SameBooksUnlisted(x: Exchange, x': Exchange)
    requires UnlistedEmpty(x) && x'.books == x.books && x'.markets == x.markets
    ensures UnlistedEmpty(x')
  {
    forall n | n !in x.markets ensures x'.BookOf(n).bids == [] && x'.BookOf(n).asks == [] {
      assert x.BookOf(n).bids == [];
    }
  }

  lemma CancelUnlisted(x: Exchange, id: nat, name: string)
    requires UnlistedEmpty(x)
    ensures UnlistedEmpty(CancelOrder(x, id, name)) && CancelOrder(x, id, name).markets == x.markets
  {
    var x' := CancelOrder(x, id, name);
    forall n | n !in x.markets ensures x'.BookOf(n).bids == [] && x'.BookOf(n).asks == [] {
      assert x.BookOf(n).bids == [];
    }
  }

  lemma StepUnlisted(x: Exchange, op: Op)
    requires UnlistedEmpty(x)
    ensures UnlistedEmpty(Step(x, op)) && Step(x, op).markets == x.markets
  {
    var x' := Step(x, op);
    if x.halted {
      assert x' == x;
    } else if op.PlaceLimit? {
      var o := Order(x.nextId + 1, op.userId, op.market, op.side, op.price, op.amount);
      var x1 := x.(nextId := o.id);
      assert x' == PlaceNew(x, o);
      SameBooksUnlisted(x, x1);
      if o.market in x.markets { UnlistedAfter(x1, o.market, Place(x1.Slice(o.market), x.markets[o.market], o).0); }
    } else if op.SweepStops? {
      assert x' == SweepMarket(x, op.market, op.lastPrice);
      SweepUnlisted(x, op.market, op.lastPrice);
    } else if op.CancelLimit? {
      assert x' == CancelOrder(x, op.id, op.market);
      CancelUnlisted(x, op.id, op.market);
    } else {
      SameBooksUnlisted(x, x');
    }
  }

  /** A market that is not configured never gets an order into its book, whatever stop orders
      fire there; only loading could put one in. */
  lemma {:induction false} UnlistedStayEmpty(x: Exchange, ops: seq<Op>)
    requires UnlistedEmpty(x)
    ensures UnlistedEmpty(Run(x, ops))
    decreases |ops|
  {
    if ops != [] {
      StepUnlisted(x, ops[0]);
      UnlistedStayEmpty(Step(x, ops[0]), ops[1..]);
    }
  }
}
