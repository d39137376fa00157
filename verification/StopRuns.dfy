/** Stop orders over runs of all calls. */
module StopRuns {
  import opened Orders
  import opened Matching
  import opened FillLedger
  import opened Settlement
  import opened StopSweeps
  import opened Exchanges
  import opened FillRuns
  import opened UnlistedTrades
  import opened SettlementRuns

  ghost predicate AllUntriggered(x: Exchange) { forall name :: Untriggered(x.Slice(name)) }

  /** How often a stop order waits, and how often it has fired. */
  ghost function Copies(x: Exchange, s: StopOrder): nat {
    multiset(x.StopsOf(s.order.market))[s] + multiset(x.journal.fired)[s]
  }

  ghost function Brought(op: Op, s: StopOrder): nat { if op.AddStop? && StopOf(op) == s then 1 else 0 }

  ghost function BroughtAll(ops: seq<Op>, s: StopOrder): nat {
    if ops == [] then 0 else Brought(ops[0], s) + BroughtAll(ops[1..], s)
  }

  /** A call that answers its sweeps moves stop orders from waiting to fired, no more. */
  lemma CallCopies(x: Exchange, name: string, c: Core, s: StopOrder)
    requires AllListed(x) && AllUntriggered(x) && Answered(x.Slice(name), c)
    ensures Copies(x.With(name, c), s) == Copies(x, s) && AllUntriggered(x.With(name, c))
  {
    var x' := x.With(name, c);
    var c0 := x.Slice(name);
    SliceOfWith(x, name, c);
    forall n ensures Untriggered(x'.Slice(n)) { assert Untriggered(x.Slice(n)); }
    assert (multiset(c.stops) + multiset(c.journal.fired))[s] == (multiset(c0.stops) + multiset(c0.journal.fired))[s];
    if s.order.market != name {
      assert Listed(c0, name);
      assert s !in c0.stops && s !in c.stops;
      assert s !in multiset(c0.stops) && s !in multiset(c.stops);
    }
  }

  lemma StepUntriggered(x: Exchange, x1: Exchange)
    requires AllUntriggered(x) && forall n, s :: s in x1.StopsOf(n) ==> s in x.StopsOf(n) || !s.triggered
    ensures AllUntriggered(x1)
  {
    forall n ensures Untriggered(x1.Slice(n)) { assert Untriggered(x.Slice(n)); }
  }

  lemma {:induction false} WithoutStopCopies(stops: seq<StopOrder>, id: nat, s: StopOrder)
    ensures multiset(WithoutStop(stops, id))[s] <= multiset(stops)[s]
  {
    if stops != [] {
      assert stops == [stops[0]] + stops[1..];
      if stops[0].order.id != id { WithoutStopCopies(stops[1..], id, s); }
    }
  }

  lemma PlaceStepCopies(x: Exchange, o: Order, s: StopOrder)
    requires AllListed(x) && AllUntriggered(x)
    ensures var x' := ProcessOrder(x, o).0; Copies(x', s) == Copies(x, s) && AllUntriggered(x')
  {
    if o.market in x.markets {
      var c := x.Slice(o.market);
      assert Untriggered(c);
      PlaceSweeps(c, x.markets[o.market], o);
      CallCopies(x, o.market, Place(c, x.markets[o.market], o).0, s);
    }
  }

  lemma SweepStepCopies(x: Exchange, name: string, lastPrice: real, s: StopOrder)
    requires AllListed(x) && AllUntriggered(x)
    ensures var x' := SweepMarket(x, name, lastPrice); Copies(x', s) == Copies(x, s) && AllUntriggered(x')
  {
    var c := x.Slice(name);
    assert Untriggered(c);
    if Hit(x.StopsOf(name), lastPrice) == [] {
      var c' := c.(stops := Missed(x.StopsOf(name), lastPrice));
      CheckSplits(c.stops, lastPrice);
      HitAndMissedAreStops(c.stops, lastPrice);
      CallCopies(x, name, c', s);
      StepUntriggered(x.With(name, c'), SweepMarket(x, name, lastPrice));
    } else {
      if name in x.markets { CheckSweeps(c, x.markets[name], lastPrice); } else { UnlistedAnswered(c, lastPrice); }
      CallCopies(x, name, Swept(c, ListingOf(x.markets, name), lastPrice), s);
    }
  }

  /** A sweep without trades to answer. */
  lemma UnlistedAnswered(c: Core, lastPrice: real)
    requires Untriggered(c)
    ensures Answered(c, Swept(c, Unlisted, lastPrice))
  {
    SilentSweep(c, lastPrice);
    CheckSplits(c.stops, lastPrice);
    HitAndMissedAreStops(c.stops, lastPrice);
  }

  lemma UnlistedPrompted(c: Core, lastPrice: real)
    requires Untriggered(c)
    ensures var c' := Swept(c, Unlisted, lastPrice);
            (forall s :: s in c'.stops ==> Waits(s, lastPrice)) && Prompted(c, c', DealPrices(c, c') + {lastPrice})
  {
    var hit := Hit(c.stops, lastPrice);
    var c1 := c.(stops := Missed(c.stops, lastPrice), journal := c.journal.(fired := c.journal.fired + hit));
    var c' := Swept(c, Unlisted, lastPrice);
    SilentSweep(c, lastPrice);
    HitAndMissedAreStops(c.stops, lastPrice);
    HitPrompts(c, c1, hit, lastPrice);
    PromptedTrans(c, c1, c', {lastPrice}, {}, DealPrices(c, c') + {lastPrice});
  }

  lemma ListedPrompted(c: Core, m: Market, lastPrice: real)
    requires Untriggered(c)
    ensures var c' := Swept(c, m, lastPrice);
            (forall s :: s in c'.stops ==> Waits(s, lastPrice)) && Prompted(c, c', DealPrices(c, c') + {lastPrice})
  {
    CheckSweeps(c, m, lastPrice);
    CheckPrompts(c, m, lastPrice);
  }

  /** The periodic sweep, in any market: what still waits there has a trigger price beyond the last
      price, and what fired was reached by it or by a deal of the sweep. */
  lemma SweepAnswers(x: Exchange, name: string, lastPrice: real)
    requires AllUntriggered(x)
    ensures var c, c' := x.Slice(name), SweepMarket(x, name, lastPrice).Slice(name);
            (forall s :: s in c'.stops ==> Waits(s, lastPrice)) && Prompted(c, c', DealPrices(c, c') + {lastPrice})
  {
    var c := x.Slice(name);
    assert Untriggered(c);
    if Hit(c.stops, lastPrice) == [] {
      HitAndMissedAreStops(c.stops, lastPrice);
      SliceOfWith(x, name, c.(stops := Missed(c.stops, lastPrice)));
    } else {
      if name in x.markets { ListedPrompted(c, x.markets[name], lastPrice); } else { UnlistedPrompted(c, lastPrice); }
      SliceOfWith(x, name, Swept(c, ListingOf(x.markets, name), lastPrice));
    }
  }

  lemma CancelStepCopies(x: Exchange, id: nat, name: string, s: StopOrder)
    requires AllListed(x) && AllUntriggered(x)
    ensures var x' := CancelOrder(x, id, name); Copies(x', s) == Copies(x, s) && AllUntriggered(x')
  {
    assert Untriggered(x.Slice(name));
    if name in x.books && name in x.markets {
      CallCopies(x, name, Cancel(x.Slice(name), x.markets[name], id), s);
    } else {
      StepUntriggered(x, CancelOrder(x, id, name));
    }
  }

  lemma PlaceNewCopies(x: Exchange, o: Order, s: StopOrder)
    requires AllListed(x) && AllUntriggered(x)
    ensures Copies(PlaceNew(x, o), s) == Copies(x, s) && AllUntriggered(PlaceNew(x, o))
  {
    var x1 := x.(nextId := o.id);
    SameStopsListed(x, x1);
    StepUntriggered(x, x1);
    PlaceStepCopies(x1, o, s);
  }

  lemma CancelStopCopies(x: Exchange, op: Op, s: StopOrder)
    requires AllUntriggered(x) && op.CancelStop? && !x.halted
    ensures Copies(Step(x, op), s) <= Copies(x, s) && AllUntriggered(Step(x, op))
  {
    WithoutStopCopies(x.StopsOf(op.market), op.id, s);
    WithoutStopIsPart(x.StopsOf(op.market), op.id);
    StepUntriggered(x, Step(x, op));
  }

  lemma StepCopies(x: Exchange, op: Op, s: StopOrder)
    requires AllListed(x) && AllUntriggered(x)
    ensures Copies(Step(x, op), s) <= Copies(x, s) + Brought(op, s) && AllUntriggered(Step(x, op))
  {
    var x' := Step(x, op);
    if x.halted {
      assert x' == x;
    } else if op.PlaceLimit? {
      var o := Order(x.nextId + 1, op.userId, op.market, op.side, op.price, op.amount);
      assert x' == PlaceNew(x, o);
      PlaceNewCopies(x, o, s);
    } else if op.CancelLimit? {
      assert x' == CancelOrder(x, op.id, op.market);
      CancelStepCopies(x, op.id, op.market, s);
    } else if op.SweepStops? {
      assert x' == SweepMarket(x, op.market, op.lastPrice);
      SweepStepCopies(x, op.market, op.lastPrice, s);
    } else if op.CancelStop? {
      CancelStopCopies(x, op, s);
    } else {
      OtherStepCopies(x, op, s);
    }
  }

  lemma OtherStepCopies(x: Exchange, op: Op, s: StopOrder)
    requires AllUntriggered(x) && !x.halted && (op.AddStop? || op.Deposit? || op.Withdraw?)
    ensures Copies(Step(x, op), s) <= Copies(x, s) + Brought(op, s) && AllUntriggered(Step(x, op))
  {
    StepUntriggered(x, Step(x, op));
  }

  /** In any run a stop order fires at most as often as it was waiting or added: each one
      at most once. */
  lemma {:induction false} RunFiresOnce(x: Exchange, ops: seq<Op>, s: StopOrder)
    requires AllListed(x) && AllUntriggered(x)
    ensures Copies(Run(x, ops), s) <= Copies(x, s) + BroughtAll(ops, s)
    decreases |ops|
  {
    if ops != [] {
      StepCopies(x, ops[0], s);
      StepBalanced(x, ops[0], "");
      RunFiresOnce(Step(x, ops[0]), ops[1..], s);
    }
  }
}
