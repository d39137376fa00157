/** Over runs of every call: published trades agree with the records of their orders, and trade
    lists with what was published. */
module TradeRuns {
  import opened Orders
  import opened Matching
  import opened FillLedger
  import opened Exchanges
  import opened FillRuns
  import opened UnlistedTrades
  import opened TradeRecords

  ghost predicate AllInPlace(x: Exchange) { forall name :: InPlace(x.Slice(name), name) }

  ghost predicate TradesTold(s: Start, x: Exchange) { Told(s, x.Slice("")) }

  lemma CallTells(s: Start, x: Exchange, name: string, c: Core)
    requires AllInPlace(x) && InPlace(c, name) && Told(s, c)
    ensures AllInPlace(x.With(name, c)) && TradesTold(s, x.With(name, c))
  {
    var x' := x.With(name, c);
    SliceOfWith(x, name, c);
    forall n ensures InPlace(x'.Slice(n), n) { assert InPlace(x.Slice(n), n); }
    SameTold(s, c, x'.Slice(""));
  }

  lemma ToldAnywhere(s: Start, x: Exchange, name: string)
    requires TradesTold(s, x)
    ensures Told(s, x.Slice(name))
  {
    SameTold(s, x.Slice(""), x.Slice(name));
  }

  /** Calls that move no order and no trade. */
  lemma QuietTells(s: Start, x: Exchange, x': Exchange)
    requires AllInPlace(x) && TradesTold(s, x)
    requires x'.table == x.table && x'.trades == x.trades && x'.journal.deals == x.journal.deals
    requires forall n :: FewerIn(x.BookOf(n), x'.BookOf(n))
    requires forall n, h :: h in x'.StopsOf(n) ==> h in x.StopsOf(n) || h.order.market == n
    ensures AllInPlace(x') && TradesTold(s, x')
  {
    SameTold(s, x.Slice(""), x'.Slice(""));
    forall n ensures InPlace(x'.Slice(n), n) {
      assert InPlace(x.Slice(n), n);
      assert FewerIn(x.BookOf(n), x'.BookOf(n));
    }
  }

  lemma PlaceStepTells(s: Start, x: Exchange, o: Order)
    requires ExchangeBounded(x) && AllInPlace(x) && TradesTold(s, x) && o.id == x.nextId + 1
    ensures AllInPlace(PlaceNew(x, o)) && TradesTold(s, PlaceNew(x, o))
  {
    var x1 := x.(nextId := o.id);
    QuietTells(s, x, x1);
    if o.market in x.markets {
      var c, m := x.Slice(o.market), x.markets[o.market];
      assert x1.Slice(o.market) == c.(nextId := o.id);
      ToldAnywhere(s, x, o.market);
      BoundedIsAccounted(c);
      PlaceTells(Unrecorded(c), s, c, m, o.market, o);
      CallTells(s, x1, o.market, Place(c.(nextId := o.id), m, o).0);
    }
  }

  lemma SweepStepTells(s: Start, x: Exchange, name: string, lastPrice: real)
    requires ExchangeBounded(x) && AllInPlace(x) && TradesTold(s, x)
    ensures AllInPlace(SweepMarket(x, name, lastPrice)) && TradesTold(s, SweepMarket(x, name, lastPrice))
  {
    var c := x.Slice(name);
    ToldAnywhere(s, x, name);
    if Hit(c.stops, lastPrice) == [] {
      HitAndMissedAreStops(c.stops, lastPrice);
      SliceOfWith(x, name, c.(stops := Missed(c.stops, lastPrice)));
      QuietTells(s, x, SweepMarket(x, name, lastPrice));
    } else {
      assert Bounded(c);
      if name in x.markets {
        BoundedIsAccounted(c);
        SweptTells(Unrecorded(c), s, c, x.markets[name], name, lastPrice);
      } else {
        UnlistedSweepTells(s, c, name, lastPrice);
      }
      CallTells(s, x, name, Swept(c, ListingOf(x.markets, name), lastPrice));
    }
  }

  lemma CancelStepTells(s: Start, x: Exchange, id: nat, name: string)
    requires ExchangeBounded(x) && AllInPlace(x) && TradesTold(s, x)
    ensures AllInPlace(CancelOrder(x, id, name)) && TradesTold(s, CancelOrder(x, id, name))
  {
    if name in x.books && name in x.markets {
      var c, m := x.Slice(name), x.markets[name];
      assert Bounded(c) && InPlace(c, name);
      ToldAnywhere(s, x, name);
      CancelTells(s, c, m, name, id);
      CallTells(s, x, name, Cancel(c, m, id));
    } else {
      UnlistedCancelTells(s, x, id, name);
    }
  }

  lemma UnlistedCancelTells(s: Start, x: Exchange, id: nat, name: string)
    requires AllInPlace(x) && TradesTold(s, x) && !(name in x.books && name in x.markets)
    ensures AllInPlace(CancelOrder(x, id, name)) && TradesTold(s, CancelOrder(x, id, name))
  {
    var x' := CancelOrder(x, id, name);
    forall n ensures FewerIn(x.BookOf(n), x'.BookOf(n)) {}
    QuietTells(s, x, x');
  }

  lemma CancelTells(s: Start, c: Core, m: Market, name: string, id: nat)
    requires Bounded(c) && Told(s, c) && InPlace(c, name)
    ensures Told(s, Cancel(c, m, id)) && InPlace(Cancel(c, m, id), name)
  {
    var c' := Cancel(c, m, id);
    BoundedIsAccounted(c);
    CancelAccounted(Unrecorded(c), c, m, id);
    CancelShape(c, m, id);
    SameTold(s, c, c');
    FewerInPlace(c, c', name);
  }

  lemma OtherStepTells(s: Start, x: Exchange, op: Op)
    requires AllInPlace(x) && TradesTold(s, x) && !x.halted
    requires op.AddStop? || op.CancelStop? || op.Deposit? || op.Withdraw?
    ensures AllInPlace(Step(x, op)) && TradesTold(s, Step(x, op))
  {
    if op.CancelStop? {
      WithoutStopIsPart(x.StopsOf(op.market), op.id);
      SliceOfWith(x, op.market, x.Slice(op.market).(stops := WithoutStop(x.StopsOf(op.market), op.id)));
    }
    QuietTells(s, x, Step(x, op));
  }

  lemma StepTells(s: Start, x: Exchange, op: Op)
    requires ExchangeBounded(x) && AllInPlace(x) && TradesTold(s, x)
    ensures AllInPlace(Step(x, op)) && TradesTold(s, Step(x, op))
  {
    var x' := Step(x, op);
    if x.halted {
      assert x' == x;
    } else if op.PlaceLimit? {
      var o := Order(x.nextId + 1, op.userId, op.market, op.side, op.price, op.amount);
      assert x' == PlaceNew(x, o);
      PlaceStepTells(s, x, o);
    } else if op.CancelLimit? {
      assert x' == CancelOrder(x, op.id, op.market);
      CancelStepTells(s, x, op.id, op.market);
    } else if op.SweepStops? {
      assert x' == SweepMarket(x, op.market, op.lastPrice);
      SweepStepTells(s, x, op.market, op.lastPrice);
    } else {
      OtherStepTells(s, x, op);
    }
  }

  lemma {:induction false} RunTells(s: Start, x: Exchange, ops: seq<Op>)
    requires ExchangeBounded(x) && AllInPlace(x) && TradesTold(s, x)
    ensures AllInPlace(Run(x, ops)) && TradesTold(s, Run(x, ops))
    decreases |ops|
  {
    if ops != [] {
      StepTells(s, x, ops[0]);
      StepBounded(x, ops[0]);
      RunTells(s, Step(x, ops[0]), ops[1..]);
    }
  }

  /** Over every run of any calls, each trade that is published names its taker and maker with
      their users, in the market of both, at the maker's price and within the taker's limit, with a
      thousandth of the amount as the fee of each; and the trade list of every order has grown by
      exactly the published trades of that order. */
  lemma RunTradesFit(x: Exchange, ops: seq<Op>)
    requires ExchangeBounded(x) && AllInPlace(x)
    ensures var x' := Run(x, ops);
            && |x.journal.deals| <= |x'.journal.deals|
            && (forall i :: |x.journal.deals| <= i < |x'.journal.deals| ==> Fits(x'.table, x'.journal.deals[i]))
            && (forall id :: TradesOf(x'.trades, id)
                          == TradesOf(x.trades, id) + DealsOf(x'.journal.deals[|x.journal.deals|..], id))
  {
    var s := Start(x.trades, |x.journal.deals|);
    assert x.journal.deals[|x.journal.deals|..] == [];
    assert forall id :: TradesOf(x.trades, id) + [] == TradesOf(x.trades, id);
    RunTells(s, x, ops);
  }
}
