/** The supply of every asset, and the sign of every balance, over runs of all calls. */
module SettlementRuns {
  import opened Orders
  import opened Ledgers
  import opened Matching
  import opened FillLedger
  import opened Settlement
  import opened Exchanges
  import opened FillRuns
  import opened UnlistedTrades

  ghost predicate AllListed(x: Exchange) { forall name :: Listed(x.Slice(name), name) }

  ghost function BalancedIn(x: Exchange, asset: string): real { Balanced(x.Slice(""), x.markets, asset) }

  lemma BalancedAnywhere(x: Exchange, name: string, asset: string)
    ensures Balanced(x.Slice(name), x.markets, asset) == BalancedIn(x, asset)
  {
  }

  /** What one call brings in from outside: deposits, less accepted withdrawals. */
  ghost function Inflow(x: Exchange, op: Op, asset: string): real {
    if x.halted then 0.0
    else match op
      case Deposit(_, a, amount) => if a == asset then amount else 0.0
      case Withdraw(u, a, amount) => if a == asset && Sub(x.ledger, Acct(u, a), amount).Done? then -amount else 0.0
      case _ => 0.0
  }

  ghost function Inflows(x: Exchange, ops: seq<Op>, asset: string): real
    decreases |ops|
  {
    if ops == [] then 0.0 else Inflow(x, ops[0], asset) + Inflows(Step(x, ops[0]), ops[1..], asset)
  }

  lemma ListedAfter(x: Exchange, name: string, c: Core)
    requires AllListed(x) && Listed(c, name)
    ensures AllListed(x.With(name, c))
  {
    SliceOfWith(x, name, c);
    forall n ensures Listed(x.With(name, c).Slice(n), n) { assert Listed(x.Slice(n), n); }
  }

  /** One market's call, seen from the whole engine. */
  lemma CallBalanced(x: Exchange, name: string, c: Core, asset: string)
    requires AllListed(x) && Listed(c, name) && Balanced(c, x.markets, asset) == BalancedIn(x, asset)
    ensures AllListed(x.With(name, c)) && BalancedIn(x.With(name, c), asset) == BalancedIn(x, asset)
  {
    ListedAfter(x, name, c);
    SliceOfWith(x, name, c);
    BalancedAnywhere(x.With(name, c), name, asset);
  }

  lemma PlaceStepBalanced(x: Exchange, o: Order, asset: string)
    requires AllListed(x)
    ensures AllListed(ProcessOrder(x, o).0) && BalancedIn(ProcessOrder(x, o).0, asset) == BalancedIn(x, asset)
  {
    if o.market in x.markets {
      var c := x.Slice(o.market);
      assert Listed(c, o.market);
      PlaceBalanced(c, x.markets, o, asset);
      PlaceListed(c, x.markets, o);
      var c' := Place(c, x.markets[o.market], o).0;
      CallBalanced(x, o.market, c', asset);
    }
  }

  lemma PlaceListed(c: Core, markets: Markets, o: Order)
    requires Listed(c, o.market)
    ensures Listed(Place(c, MarketIn(markets, o.market), o).0, o.market)
  {
    var m := MarketIn(markets, o.market);
    match Freeze(c.ledger, LockAcct(m, o), Need(o, o.amount))
    case Refused(_) =>
    case Done(l) => LoopBalanced(Entered(c.(ledger := l), o), markets, o, "");
  }

  lemma IdleSweepBalanced(x: Exchange, name: string, lastPrice: real, asset: string)
    requires AllListed(x) && Hit(x.StopsOf(name), lastPrice) == []
    ensures var x' := SweepMarket(x, name, lastPrice);
            AllListed(x') && BalancedIn(x', asset) == BalancedIn(x, asset)
  {
    var c := x.Slice(name);
    assert Listed(c, name);
    HitAndMissedAreStops(x.StopsOf(name), lastPrice);
    var c' := c.(stops := Missed(x.StopsOf(name), lastPrice));
    SliceOfWith(x, name, c');
    ListedAfter(x, name, c');
    forall n ensures Listed(SweepMarket(x, name, lastPrice).Slice(n), n) {
      assert Listed(x.With(name, c').Slice(n), n);
    }
  }

  lemma SweepStepBalanced(x: Exchange, name: string, lastPrice: real, asset: string)
    requires AllListed(x)
    ensures var x' := SweepMarket(x, name, lastPrice);
            AllListed(x') && BalancedIn(x', asset) == BalancedIn(x, asset)
  {
    if Hit(x.StopsOf(name), lastPrice) == [] {
      IdleSweepBalanced(x, name, lastPrice, asset);
    } else {
      var c := x.Slice(name);
      assert Listed(c, name);
      var c' := Swept(c, ListingOf(x.markets, name), lastPrice);
      if name in x.markets { SweptBalanced(c, x.markets, name, lastPrice, asset); }
      else { UnlistedBalanced(c, x.markets, name, lastPrice, asset); }
      CallBalanced(x, name, c', asset);
    }
  }

  lemma UnlistedBalanced(c: Core, markets: Markets, name: string, lastPrice: real, asset: string)
    requires Listed(c, name)
    ensures var c' := Swept(c, Unlisted, lastPrice);
            Listed(c', name) && Balanced(c', markets, asset) == Balanced(c, markets, asset)
  {
    SilentSweep(c, lastPrice);
    HitAndMissedAreStops(c.stops, lastPrice);
  }

  lemma CancelListed(c: Core, m: Market, id: nat, name: string)
    requires Listed(c, name)
    ensures Listed(Cancel(c, m, id), name)
  {
  }

  lemma CancelStepBalanced(x: Exchange, id: nat, name: string, asset: string)
    requires AllListed(x)
    ensures AllListed(CancelOrder(x, id, name)) && BalancedIn(CancelOrder(x, id, name), asset) == BalancedIn(x, asset)
  {
    assert Listed(x.Slice(name), name);
    if name in x.books && name in x.markets {
      var c' := Cancel(x.Slice(name), x.markets[name], id);
      CancelBalanced(x.Slice(name), x.markets, x.markets[name], id, asset);
      CancelListed(x.Slice(name), x.markets[name], id, name);
      CallBalanced(x, name, c', asset);
    } else {
      SameStopsListed(x, CancelOrder(x, id, name));
    }
  }

  lemma StopStepListed(x: Exchange, op: Op, asset: string)
    requires AllListed(x) && (op.AddStop? || op.CancelStop?)
    ensures AllListed(Step(x, op)) && BalancedIn(Step(x, op), asset) == BalancedIn(x, asset)
  {
    forall n ensures Listed(Step(x, op).Slice(n), n) {
      assert Listed(x.Slice(n), n);
      if op.CancelStop? { WithoutStopIsPart(x.StopsOf(n), op.id); }
    }
  }

  lemma SameStopsListed(x: Exchange, x1: Exchange)
    requires AllListed(x) && x1.stops == x.stops
    ensures AllListed(x1)
  {
    forall n ensures Listed(x1.Slice(n), n) { assert Listed(x.Slice(n), n); }
  }

  lemma OtherStepBalanced(x: Exchange, op: Op, asset: string)
    requires AllListed(x) && !x.halted && (op.AddStop? || op.CancelStop? || op.Deposit? || op.Withdraw?)
    ensures AllListed(Step(x, op))
    ensures BalancedIn(Step(x, op), asset) == BalancedIn(x, asset) + Inflow(x, op, asset)
  {
    match op
    case Deposit(userId, a, amount) =>
      AddSupply(x.ledger, Acct(userId, a), amount, asset);
      SameStopsListed(x, Step(x, op));
    case Withdraw(userId, a, amount) =>
      SubSupply(x.ledger, Acct(userId, a), amount, asset);
      SameStopsListed(x, Step(x, op));
    case _ => StopStepListed(x, op, asset);
  }

  lemma PlaceNewBalanced(x: Exchange, o: Order, asset: string)
    requires AllListed(x)
    ensures AllListed(PlaceNew(x, o)) && BalancedIn(PlaceNew(x, o), asset) == BalancedIn(x, asset)
  {
    SameStopsListed(x, x.(nextId := o.id));
    PlaceStepBalanced(x.(nextId := o.id), o, asset);
  }

  lemma StepBalanced(x: Exchange, op: Op, asset: string)
    requires AllListed(x)
    ensures AllListed(Step(x, op))
    ensures BalancedIn(Step(x, op), asset) == BalancedIn(x, asset) + Inflow(x, op, asset)
  {
    var x' := Step(x, op);
    if x.halted {
      assert x' == x;
    } else if op.PlaceLimit? {
      var o := Order(x.nextId + 1, op.userId, op.market, op.side, op.price, op.amount);
      assert x' == PlaceNew(x, o);
      PlaceNewBalanced(x, o, asset);
    } else if op.CancelLimit? {
      assert x' == CancelOrder(x, op.id, op.market);
      CancelStepBalanced(x, op.id, op.market, asset);
    } else if op.SweepStops? {
      assert x' == SweepMarket(x, op.market, op.lastPrice);
      SweepStepBalanced(x, op.market, op.lastPrice, asset);
    } else {
      OtherStepBalanced(x, op, asset);
    }
  }

  /** Over every run, the supply of an asset is what was there, plus what came in, less the
      maker fees of the deals settled in it, plus the deals whose taker could not pay. */
  lemma {:induction false} RunBalanced(x: Exchange, ops: seq<Op>, asset: string)
    requires AllListed(x)
    ensures BalancedIn(Run(x, ops), asset) == BalancedIn(x, asset) + Inflows(x, ops, asset)
    decreases |ops|
  {
    if ops != [] {
      StepBalanced(x, ops[0], asset);
      RunBalanced(Step(x, ops[0]), ops[1..], asset);
    }
  }

  // ---------- no balance below zero ----------

  /** Limit orders as their handlers let them through, asks and ask stops at or above the fee
      rate, no negative deposits. A bid stop may have any price and any stop any amount. */
  predicate FeeSafe(op: Op) {
    match op
    case PlaceLimit(_, _, side, price, amount) => price > 0.0 && amount > 0.0 && (side.Ask? ==> price >= FEE_RATE)
    case AddStop(_, _, side, price, _, _) => side.Ask? ==> price >= FEE_RATE
    case Deposit(_, _, amount) => amount >= 0.0
    case _ => true
  }

  ghost predicate AllHealthy(x: Exchange) {
    ExchangeBounded(x) && NonNegative(x.ledger) && forall name :: Priced(x.Slice(name))
  }

  lemma StillPriced(x: Exchange, x1: Exchange)
    requires x1.books == x.books && x1.stops == x.stops && forall name :: Priced(x.Slice(name))
    ensures forall name :: Priced(x1.Slice(name))
  {
    forall n ensures Priced(x1.Slice(n)) { assert Priced(x.Slice(n)); }
  }

  lemma PlaceStepHealthy(x: Exchange, o: Order)
    requires AllHealthy(x) && o.id == x.nextId + 1 && o.price >= 0.0 && o.amount >= 0.0 && OrderPriced(o)
    ensures AllHealthy(PlaceNew(x, o))
  {
    var past := UnrecordedIn(x);
    BoundedExchangeIsAccounted(x);
    PlaceStepAccounted(past, x, o);
    AccountedExchangeIsBounded(past, PlaceNew(x, o));
    var x1 := x.(nextId := o.id);
    StillPriced(x, x1);
    if o.market in x.markets {
      var c, m := x.Slice(o.market), x.markets[o.market];
      assert AllAccounted(past, c) && Priced(c) && x1.Slice(o.market) == c.(nextId := o.id);
      PlaceHealthy(past, c, m, o);
      PricedAfter(x1, o.market, Place(c.(nextId := o.id), m, o).0);
    }
  }

  lemma PricedAfter(x: Exchange, name: string, c: Core)
    requires (forall n :: n != name ==> Priced(x.Slice(n))) && Priced(c)
    ensures forall n :: Priced(x.With(name, c).Slice(n))
  {
    SliceOfWith(x, name, c);
    forall n ensures Priced(x.With(name, c).Slice(n)) { assert n != name ==> Priced(x.Slice(n)); }
  }

  lemma CancelBounded(x: Exchange, id: nat, name: string)
    requires ExchangeBounded(x)
    ensures ExchangeBounded(CancelOrder(x, id, name))
  {
    var past := UnrecordedIn(x);
    BoundedExchangeIsAccounted(x);
    CancelStepAccounted(past, x, id, name);
    AccountedExchangeIsBounded(past, CancelOrder(x, id, name));
  }

  lemma CanceledHealthy(c: Core, m: Market, id: nat)
    requires Bounded(c) && Healthy(c)
    ensures Healthy(Cancel(c, m, id))
  {
    BoundedIsAccounted(c);
    CancelHealthy(Unrecorded(c), c, m, id);
  }

  lemma CancelStepHealthy(x: Exchange, id: nat, name: string)
    requires AllHealthy(x)
    ensures AllHealthy(CancelOrder(x, id, name))
  {
    CancelBounded(x, id, name);
    var c := x.Slice(name);
    assert Bounded(c) && Priced(c);
    if name in x.books && name in x.markets {
      CanceledHealthy(c, x.markets[name], id);
      PricedAfter(x, name, Cancel(c, x.markets[name], id));
    } else {
      CanceledPriced(x, id, name);
    }
  }

  lemma CanceledPriced(x: Exchange, id: nat, name: string)
    requires name !in x.books || name !in x.markets
    requires forall n :: Priced(x.Slice(n))
    ensures var x' := CancelOrder(x, id, name); x'.ledger == x.ledger && forall n :: Priced(x'.Slice(n))
  {
    forall n ensures Priced(CancelOrder(x, id, name).Slice(n)) { assert Priced(x.Slice(n)); }
  }

  lemma SweepStepHealthy(x: Exchange, name: string, lastPrice: real)
    requires AllHealthy(x) && !x.halted
    ensures AllHealthy(SweepMarket(x, name, lastPrice))
  {
    var c := x.Slice(name);
    StepBounded(x, SweepStops(name, lastPrice));
    assert Bounded(c) && Priced(c);
    if Hit(x.StopsOf(name), lastPrice) == [] {
      CheckHealthy(x, name, lastPrice);
    } else {
      SweptStaysHealthy(c, ListingOf(x.markets, name), lastPrice);
      PricedAfter(x, name, Swept(c, ListingOf(x.markets, name), lastPrice));
    }
  }

  lemma CheckHealthy(x: Exchange, name: string, lastPrice: real)
    requires forall n :: Priced(x.Slice(n))
    requires Hit(x.StopsOf(name), lastPrice) == []
    ensures var x' := SweepMarket(x, name, lastPrice); x'.ledger == x.ledger && forall n :: Priced(x'.Slice(n))
  {
    var x' := SweepMarket(x, name, lastPrice);
    HitAndMissedAreStops(x.StopsOf(name), lastPrice);
    forall n ensures Priced(x'.Slice(n)) {
      assert Priced(x.Slice(n));
      assert x'.BookOf(n) == x.BookOf(n) && forall s :: s in x'.StopsOf(n) ==> s in x.StopsOf(n);
    }
  }

  lemma SweptStaysHealthy(c: Core, m: Listing, lastPrice: real)
    requires Bounded(c) && Healthy(c)
    ensures Healthy(Swept(c, m, lastPrice))
  {
    if m.Market? {
      BoundedIsAccounted(c);
      SweptHealthy(Unrecorded(c), c, m, lastPrice);
    } else {
      UnlistedHealthy(c, lastPrice);
    }
  }

  // ---------- markets that are not configured ----------

  lemma FewerPriced(c: Core, c': Core)
    requires Healthy(c) && FewerIn(c.book, c'.book) && c'.stops == c.stops && c'.ledger == c.ledger
    ensures Healthy(c')
  {
  }

  lemma UnlistedFiredHealthy(c: Core, s: StopOrder)
    requires Bounded(c) && Healthy(c) && OrderPriced(s.order)
    ensures Healthy(Fired(c, Unlisted, s))
  {
    var o := s.order.(id := c.nextId + 1);
    var c1 := Entered(c.(nextId := o.id), o);
    var c2 := TakerLoop(c1, Unlisted, o).core;
    EnteredBounded(c, c1, o);
    LoopBounded(c1, o);
    SilentLoop(c1, o);
    FewerPriced(c1, c2);
    if o.price < 0.0 { BelowZeroNeverTrades(c1, Unlisted, o); }
    RestedHealthy(c2, o);
    FiredEnters(c, Unlisted, s);
  }

  lemma {:induction false} UnlistedFireAllHealthy(c: Core, hit: seq<StopOrder>)
    requires Bounded(c) && Healthy(c) && forall s :: s in hit ==> OrderPriced(s.order)
    ensures Healthy(FireAll(c, Unlisted, hit))
    decreases |hit|
  {
    if hit != [] && !c.halted {
      assert hit[0] in hit && forall s :: s in hit[1..] ==> s in hit;
      UnlistedFiredHealthy(c, hit[0]);
      FiredBounded(c, hit[0]);
      UnlistedFireAllHealthy(Fired(c, Unlisted, hit[0]), hit[1..]);
    }
  }

  lemma UnlistedHealthy(c: Core, lastPrice: real)
    requires Bounded(c) && Healthy(c)
    ensures Healthy(Swept(c, Unlisted, lastPrice))
  {
    var hit := Hit(c.stops, lastPrice);
    HitAndMissedAreStops(c.stops, lastPrice);
    UnlistedFireAllHealthy(
      c.(stops := Missed(c.stops, lastPrice), journal := c.journal.(fired := c.journal.fired + hit)), hit);
  }

  lemma OtherStepHealthy(x: Exchange, op: Op)
    requires AllHealthy(x) && FeeSafe(op) && !x.halted
    requires op.AddStop? || op.CancelStop? || op.Deposit? || op.Withdraw?
    ensures AllHealthy(Step(x, op))
  {
    StepBounded(x, op);
    forall n ensures Priced(Step(x, op).Slice(n)) {
      assert Priced(x.Slice(n));
      if op.CancelStop? { WithoutStopIsPart(x.StopsOf(n), op.id); }
    }
  }

  lemma StepHealthy(x: Exchange, op: Op)
    requires AllHealthy(x) && FeeSafe(op)
    ensures AllHealthy(Step(x, op))
  {
    var x' := Step(x, op);
    if x.halted {
      assert x' == x;
    } else if op.PlaceLimit? {
      var o := Order(x.nextId + 1, op.userId, op.market, op.side, op.price, op.amount);
      assert x' == PlaceNew(x, o);
      PlaceStepHealthy(x, o);
    } else if op.CancelLimit? {
      assert x' == CancelOrder(x, op.id, op.market);
      CancelStepHealthy(x, op.id, op.market);
    } else if op.SweepStops? {
      assert x' == SweepMarket(x, op.market, op.lastPrice);
      SweepStepHealthy(x, op.market, op.lastPrice);
    } else {
      OtherStepHealthy(x, op);
    }
  }

  /** No run takes a balance below zero while every ask is priced at least at the fee rate. */
  lemma {:induction false} RunHealthy(x: Exchange, ops: seq<Op>)
    requires AllHealthy(x) && forall op :: op in ops ==> FeeSafe(op)
    ensures AllHealthy(Run(x, ops))
    decreases |ops|
  {
    if ops != [] {
      assert ops[0] in ops && forall op :: op in ops[1..] ==> op in ops;
      StepHealthy(x, ops[0]);
      RunHealthy(Step(x, ops[0]), ops[1..]);
    }
  }
}
