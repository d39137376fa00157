/** What settlement does to the supply of an asset, and to the sign of balances. */
module Settlement {
  import opened Orders
  import opened PriceQueues
  import opened Ledgers
  import opened Sums
  import opened Matching
  import opened FillLedger

  function AssetOf(markets: Markets, t: Trade): string { SettledAsset(MarketIn(markets, t.market), t.side) }

  ghost function FeeIn(markets: Markets, asset: string): Trade -> real {
    (t: Trade) => if AssetOf(markets, t) == asset then t.makerFee else 0.0
  }

  ghost function CostIn(markets: Markets, asset: string): Trade -> real {
    (t: Trade) => if AssetOf(markets, t) == asset then Cost(t) else 0.0
  }

  /** Supply, plus the maker fees of all deals, less what the unpaid deals created. */
  ghost function Balanced(c: Core, markets: Markets, asset: string): real {
    Supply(c.ledger, asset) + Total(c.journal.deals, FeeIn(markets, asset))
      - Total(c.journal.unpaid, CostIn(markets, asset))
  }

  /** Every waiting stop order names this market. */
  ghost predicate Listed(c: Core, name: string) { forall s :: s in c.stops ==> s.order.market == name }

  lemma SubSupply(l: Ledger, k: Acct, x: real, asset: string)
    ensures Supply(Sub(l, k, x).Else(l), asset)
         == Supply(l, asset) - if Sub(l, k, x).Done? && k.asset == asset then x else 0.0
  {
    if Sub(l, k, x).Done? { SupplyUpdate(l, Sub(l, k, x).ledger, k, Bal(l[k].available - x, l[k].frozen), asset); }
  }

  lemma AddSupply(l: Ledger, k: Acct, x: real, asset: string)
    ensures Supply(Add(l, k, x), asset) == Supply(l, asset) + if k.asset == asset then x else 0.0
  {
    SupplyUpdate(l, Add(l, k, x), k, Add(l, k, x)[k], asset);
  }

  lemma UnfreezeSupply(l: Ledger, k: Acct, x: real, asset: string)
    ensures Supply(Unfreeze(l, k, x).Else(l), asset) == Supply(l, asset)
  {
    if Unfreeze(l, k, x).Done? {
      SupplyUpdate(l, Unfreeze(l, k, x).ledger, k, Bal(l[k].available + x, l[k].frozen - x), asset);
    }
  }

  lemma FreezeSupply(l: Ledger, k: Acct, x: real, asset: string)
    ensures Supply(Freeze(l, k, x).Else(l), asset) == Supply(l, asset)
  {
    if Freeze(l, k, x).Done? {
      SupplyUpdate(l, Freeze(l, k, x).ledger, k, Bal(l[k].available - x, l[k].frozen + x), asset);
    }
  }

  /** Deduct, add less the fee, unlock: only the fee leaves, unless the deduction is refused. */
  lemma SettleSupply(l: Ledger, taker: Acct, maker: Acct, cost: real, fee: real, asset: string)
    requires taker.asset == maker.asset
    ensures var l1 := Add(Sub(l, taker, cost).Else(l), maker, cost - fee);
            Supply(Unfreeze(l1, taker, cost).Else(l1), asset) - Supply(l, asset)
            == if taker.asset != asset then 0.0 else if Sub(l, taker, cost).Done? then -fee else cost - fee
  {
    var l0 := Sub(l, taker, cost).Else(l);
    SubSupply(l, taker, cost, asset);
    AddSupply(l0, maker, cost - fee, asset);
    UnfreezeSupply(Add(l0, maker, cost - fee), taker, cost, asset);
  }

  lemma PaidSupply(c: Core, m: Market, t: Trade, asset: string)
    ensures Supply(Paid(c, m, t).ledger, asset) - Supply(c.ledger, asset)
         == if SettledAsset(m, t.side) != asset then 0.0
            else if Covered(c, m, t) then -t.makerFee else Cost(t) - t.makerFee
  {
    var a := SettledAsset(m, t.side);
    SettleSupply(c.ledger, Acct(t.takerUserId, a), Acct(t.makerUserId, a), Cost(t), t.makerFee, asset);
  }

  /** The taker's available balance covers the deduction. */
  predicate Covered(c: Core, m: Market, t: Trade) {
    Sub(c.ledger, Acct(t.takerUserId, SettledAsset(m, t.side)), Cost(t)).Done?
  }

  lemma PaidJournal(c: Core, m: Market, t: Trade)
    ensures var j := Paid(c, m, t).journal;
            && j.deals == c.journal.deals
            && j.unpaid == if Covered(c, m, t) then c.journal.unpaid else c.journal.unpaid + [t]
  {
  }

  lemma TradedBalanced(c: Core, markets: Markets, o: Order, asset: string)
    requires c.Makers(o) != []
    ensures Balanced(Traded(c, MarketIn(markets, o.market), o), markets, asset) == Balanced(c, markets, asset)
  {
    var t := NextTrade(c, o, c.Makers(o)[0]);
    var c1 := Recorded(Filled(c, o, c.Makers(o)[0], t), t);
    PaidSupply(c1, MarketIn(markets, o.market), t, asset);
    PaidJournal(c1, MarketIn(markets, o.market), t);
    TotalSnoc(c.journal.deals, t, FeeIn(markets, asset));
    TotalSnoc(c.journal.unpaid, t, CostIn(markets, asset));
    assert c1.journal.unpaid == c.journal.unpaid && c1.ledger == c.ledger;
  }

  // ---------- whole calls, nested sweeps included ----------

  lemma {:induction false} LoopBalanced(c: Core, markets: Markets, o: Order, asset: string)
    requires Listed(c, o.market)
    ensures var c' := TakerLoop(c, MarketIn(markets, o.market), o).core;
            Listed(c', o.market) && Balanced(c', markets, asset) == Balanced(c, markets, asset)
    decreases |c.stops|, 2, |c.Makers(o)|, if c.Left(o) > 0.0 then 1 else 0
  {
    if CanTrade(c, o) {
      IteratedBalanced(c, markets, o, asset);
      LoopBalanced(Iterated(c, MarketIn(markets, o.market), o), markets, o, asset);
    }
  }

  lemma {:induction false} IteratedBalanced(c: Core, markets: Markets, o: Order, asset: string)
    requires Listed(c, o.market) && CanTrade(c, o)
    ensures var c' := Iterated(c, MarketIn(markets, o.market), o);
            Listed(c', o.market) && Balanced(c', markets, asset) == Balanced(c, markets, asset)
    decreases |c.stops|, 1, 0, 0
  {
    var m, maker := MarketIn(markets, o.market), c.Makers(o)[0];
    TradedBalanced(c, markets, o, asset);
    SweptBalanced(Traded(c, m, o), markets, o.market, maker.price, asset);
    var c1 := Swept(Traded(c, m, o), m, maker.price);
    PoppedFunds(c1, o.side.Opposite(), maker);
    SameFunds(c1, PopIfDone(c1, o.side.Opposite(), maker), markets, asset);
  }

  lemma {:induction false} SweptBalanced(c: Core, markets: Markets, name: string, price: real, asset: string)
    requires Listed(c, name)
    ensures var c' := Swept(c, MarketIn(markets, name), price);
            Listed(c', name) && Balanced(c', markets, asset) == Balanced(c, markets, asset)
    decreases |c.stops|, 0, 0, 0
  {
    var hit := Hit(c.stops, price);
    HitAndMissedAreStops(c.stops, price);
    if hit != [] {
      var c1 := c.(stops := Missed(c.stops, price), journal := c.journal.(fired := c.journal.fired + hit));
      FireAllBalanced(c1, markets, name, hit, asset);
    }
  }

  lemma {:induction false} FireAllBalanced(c: Core, markets: Markets, name: string, hit: seq<StopOrder>, asset: string)
    requires Listed(c, name) && forall s :: s in hit ==> s.order.market == name
    ensures var c' := FireAll(c, MarketIn(markets, name), hit);
            Listed(c', name) && Balanced(c', markets, asset) == Balanced(c, markets, asset)
    decreases |c.stops|, 4, |hit|, 0
  {
    if hit == [] || c.halted {
    } else {
      assert hit[0] in hit;
      FiredBalanced(c, markets, hit[0], asset);
      assert forall s :: s in hit[1..] ==> s in hit;
      FireAllBalanced(Fired(c, MarketIn(markets, name), hit[0]), markets, name, hit[1..], asset);
    }
  }

  lemma {:induction false} FiredBalanced(c: Core, markets: Markets, s: StopOrder, asset: string)
    requires Listed(c, s.order.market)
    ensures var c' := Fired(c, MarketIn(markets, s.order.market), s);
            Listed(c', s.order.market) && Balanced(c', markets, asset) == Balanced(c, markets, asset)
    decreases |c.stops|, 3, 1, 0
  {
    var o := s.order.(id := c.nextId + 1);
    var c1 := Entered(c.(nextId := o.id), o);
    SameFunds(c, c1, markets, asset);
    assert Listed(c1, o.market);
    MatchBalanced(c1, markets, o, asset);
    FiredEnters(c, MarketIn(markets, o.market), s);
  }

  lemma {:induction false} MatchBalanced(c: Core, markets: Markets, o: Order, asset: string)
    requires Listed(c, o.market)
    ensures var c' := Rested(TakerLoop(c, MarketIn(markets, o.market), o).core, o);
            Listed(c', o.market) && Balanced(c', markets, asset) == Balanced(c, markets, asset)
    decreases |c.stops|, 3, 0, 0
  {
    var c1 := TakerLoop(c, MarketIn(markets, o.market), o).core;
    LoopBalanced(c, markets, o, asset);
    RestedFunds(c1, o);
    SameFunds(c1, Rested(c1, o), markets, asset);
  }

  lemma SameFunds(c: Core, c': Core, markets: Markets, asset: string)
    requires c'.ledger == c.ledger && c'.journal == c.journal
    ensures Balanced(c', markets, asset) == Balanced(c, markets, asset)
  {
  }

  /** The supply of an asset falls by the maker fees of the deals settled in it and rises
      by the deals the taker could not cover, and by nothing else. */
  lemma PlaceBalanced(c: Core, markets: Markets, o: Order, asset: string)
    requires Listed(c, o.market)
    ensures Balanced(Place(c, MarketIn(markets, o.market), o).0, markets, asset) == Balanced(c, markets, asset)
  {
    var m := MarketIn(markets, o.market);
    FreezeSupply(c.ledger, LockAcct(m, o), Need(o, o.amount), asset);
    match Freeze(c.ledger, LockAcct(m, o), Need(o, o.amount))
    case Refused(_) =>
    case Done(l) =>
      var c0 := c.(ledger := l);
      var c1 := Entered(c0, o);
      SameFunds(c0, c1, markets, asset);
      MatchBalanced(c1, markets, o, asset);
  }

  lemma CancelBalanced(c: Core, markets: Markets, m: Market, id: nat, asset: string)
    ensures Balanced(Cancel(c, m, id), markets, asset) == Balanced(c, markets, asset)
  {
    if id in c.book.live {
      var o := c.book.live[id];
      UnfreezeSupply(c.ledger, LockAcct(m, o), Need(o, c.Left(o)), asset);
    }
  }

  // ---------- no balance below zero ----------

  predicate OrderPriced(o: Order) { o.side.Ask? ==> o.price >= FEE_RATE }

  /** Every ask, queued or still waiting as a stop order, is priced at least at the fee rate. */
  ghost predicate Priced(c: Core) {
    && (forall a :: a in c.book.asks ==> a.price >= FEE_RATE)
    && (forall id :: id in c.book.live ==> c.book.live[id].price >= 0.0)
    && (forall s :: s in c.stops ==> OrderPriced(s.order))
  }

  ghost predicate Healthy(c: Core) { NonNegative(c.ledger) && Priced(c) }

  lemma PaidNonNegative(c: Core, m: Market, t: Trade)
    requires NonNegative(c.ledger) && 0.0 <= t.makerFee <= Cost(t)
    ensures NonNegative(Paid(c, m, t).ledger)
  {
    var a := SettledAsset(m, t.side);
    SettleNonNegative(c.ledger, Acct(t.takerUserId, a), Acct(t.makerUserId, a), Cost(t), t.makerFee);
  }

  lemma SettleNonNegative(l: Ledger, taker: Acct, maker: Acct, cost: real, fee: real)
    requires NonNegative(l) && 0.0 <= fee <= cost
    ensures var l1 := Add(Sub(l, taker, cost).Else(l), maker, cost - fee);
            NonNegative(Unfreeze(l1, taker, cost).Else(l1))
  {
    var l0 := Sub(l, taker, cost).Else(l);
    assert NonNegative(l0);
    assert NonNegative(Add(l0, maker, cost - fee));
  }

  lemma FeeWithinCost(t: Trade)
    requires t.amount >= 0.0 && t.makerFee == t.amount * FEE_RATE
    requires t.side.Bid? ==> t.price >= FEE_RATE
    ensures 0.0 <= t.makerFee <= Cost(t)
  {
    ProductNonNegative(t.amount, FEE_RATE);
    ProductNonNegative(t.amount, 1.0 - FEE_RATE);
    if t.side.Bid? { ProductGrows(t.amount, FEE_RATE, t.price); }
  }

  lemma TradedHealthy(past: Past, c: Core, m: Market, o: Order)
    requires AllAccounted(past, c) && Active(c, o) && CanTrade(c, o) && Healthy(c)
    ensures Healthy(Traded(c, m, o))
  {
    var maker := c.Makers(o)[0];
    var t := NextTrade(c, o, maker);
    assert c.book.Queued(maker) && Known(c, maker) && QueuedId(c, maker.id);
    assert Accounted(past, c, o.id) && Accounted(past, c, maker.id);
    assert o.side.Bid? ==> maker in c.book.asks;
    FeeWithinCost(t);
    PaidNonNegative(Recorded(Filled(c, o, maker, t), t), m, t);
    TradedShape(c, m, o);
  }

  lemma {:induction false} LoopHealthy(past: Past, c: Core, m: Market, o: Order)
    requires AllAccounted(past, c) && Active(c, o) && Healthy(c)
    ensures Healthy(TakerLoop(c, m, o).core)
    decreases |c.stops|, 2, |c.Makers(o)|, if c.Left(o) > 0.0 then 1 else 0
  {
    if CanTrade(c, o) {
      IteratedHealthy(past, c, m, o);
      IteratedAccounted(past, c, m, o);
      LoopHealthy(past, Iterated(c, m, o), m, o);
    }
  }

  lemma {:induction false} IteratedHealthy(past: Past, c: Core, m: Market, o: Order)
    requires AllAccounted(past, c) && Active(c, o) && CanTrade(c, o) && Healthy(c)
    ensures Healthy(Iterated(c, m, o))
    decreases |c.stops|, 1, 0, 0
  {
    var maker := c.Makers(o)[0];
    var c0 := Traded(c, m, o);
    TradedHealthy(past, c, m, o);
    TradedStaysAccounted(past, c, m, o);
    SweptHealthy(past, c0, m, maker.price);
    PoppedQueued(Swept(c0, m, maker.price), o.side.Opposite(), maker);
    PoppedAsks(Swept(c0, m, maker.price), o.side.Opposite(), maker);
  }

  lemma PoppedAsks(c: Core, side: Side, maker: Order)
    requires Healthy(c)
    ensures Healthy(PopIfDone(c, side, maker))
  {
    var q := c.book.Queue(side);
    if q != [] {
      PopContents(q);
      forall o | o in Popped(q) ensures o in q { assert o in multiset(Popped(q)); assert o in multiset(q); }
    }
  }

  lemma {:induction false} SweptHealthy(past: Past, c: Core, m: Market, price: real)
    requires AllAccounted(past, c) && Healthy(c)
    ensures Healthy(Swept(c, m, price))
    decreases |c.stops|, 0, 0, 0
  {
    var hit := Hit(c.stops, price);
    var c1 := c.(stops := Missed(c.stops, price), journal := c.journal.(fired := c.journal.fired + hit));
    HitAndMissedAreStops(c.stops, price);
    OrdersLeave(past, c, c1);
    if hit != [] {
      FireAllHealthy(past, c1, m, hit);
    }
  }

  lemma {:induction false} FireAllHealthy(past: Past, c: Core, m: Market, hit: seq<StopOrder>)
    requires AllAccounted(past, c) && Healthy(c)
    requires forall s :: s in hit ==> OrderPriced(s.order)
    ensures Healthy(FireAll(c, m, hit))
    decreases |c.stops|, 4, |hit|, 0
  {
    if hit == [] || c.halted {
    } else {
      assert hit[0] in hit;
      FiredHealthy(past, c, m, hit[0]);
      FiredAccounted(past, c, m, hit[0]);
      assert forall s :: s in hit[1..] ==> s in hit;
      FireAllHealthy(past, Fired(c, m, hit[0]), m, hit[1..]);
    }
  }

  lemma {:induction false} FiredHealthy(past: Past, c: Core, m: Market, s: StopOrder)
    requires AllAccounted(past, c) && Healthy(c)
    requires OrderPriced(s.order)
    ensures Healthy(Fired(c, m, s))
    decreases |c.stops|, 3, 0, 0
  {
    var o := s.order.(id := c.nextId + 1);
    var c1 := Entered(c.(nextId := o.id), o);
    EnteredAccounted(past, c, o);
    LoopHealthy(past, c1, m, o);
    if o.price < 0.0 { BelowZeroNeverTrades(c1, m, o); }
    RestedHealthy(TakerLoop(c1, m, o).core, o);
  }

  /** A bid below zero, which only a stop order can be, reaches no ask. */
  lemma BelowZeroNeverTrades(c: Core, m: Listing, o: Order)
    requires Priced(c) && OrderPriced(o) && o.price < 0.0
    ensures TakerLoop(c, m, o).core == c
  {
    if c.book.asks != [] { assert c.book.asks[0] in c.book.asks; }
  }

  lemma RestedHealthy(c: Core, o: Order)
    requires Healthy(c) && OrderPriced(o) && (o.price >= 0.0 || c.Left(o) == o.amount)
    ensures Healthy(Rested(c, o))
  {
    PushedQueued(c.book.Queue(o.side), o);
  }

  /** No balance goes below zero while every ask is priced at least at the fee rate. */
  lemma PlaceHealthy(past: Past, c: Core, m: Market, o: Order)
    requires AllAccounted(past, c) && Healthy(c)
    requires o.id == c.nextId + 1 && o.price >= 0.0 && o.amount >= 0.0 && OrderPriced(o)
    ensures Healthy(Place(c.(nextId := o.id), m, o).0)
  {
    match Freeze(c.ledger, LockAcct(m, o), Need(o, o.amount))
    case Refused(_) =>
    case Done(l) =>
      var c0 := c.(ledger := l);
      FrozenNonNegative(c.ledger, LockAcct(m, o), o);
      OnlyAccounts(past, c, c0);
      EnteredAccounted(past, c0, o);
      var c1 := Entered(c0.(nextId := o.id), o);
      assert Healthy(c1);
      LoopHealthy(past, c1, m, o);
      RestedHealthy(TakerLoop(c1, m, o).core, o);
      assert c1 == Entered(c.(nextId := o.id).(ledger := l), o);
  }

  lemma FrozenNonNegative(l: Ledger, k: Acct, o: Order)
    requires NonNegative(l) && o.price >= 0.0 && o.amount >= 0.0
    ensures NonNegative(Freeze(l, k, Need(o, o.amount)).Else(l))
  {
    ProductNonNegative(o.price, o.amount);
  }

  lemma CancelHealthy(past: Past, c: Core, m: Market, id: nat)
    requires AllAccounted(past, c) && Healthy(c)
    ensures Healthy(Cancel(c, m, id))
  {
    if id in c.book.live {
      var o := c.book.live[id];
      assert Known(c, o) && Accounted(past, c, id);
      UnfrozenNonNegative(c.ledger, LockAcct(m, o), o, c.Left(o));
    }
  }

  lemma UnfrozenNonNegative(l: Ledger, k: Acct, o: Order, left: real)
    requires NonNegative(l) && o.price >= 0.0 && left >= 0.0
    ensures NonNegative(Unfreeze(l, k, Need(o, left)).Else(l))
  {
    ProductNonNegative(o.price, left);
  }

  /** Settling with another user's order takes a balance below zero exactly when the maker has
      not enough to make up for a fee above what it receives. */
  lemma PaidNonNegativeIff(c: Core, m: Market, t: Trade)
    requires NonNegative(c.ledger) && t.takerUserId != t.makerUserId && Cost(t) >= 0.0
    ensures var k := Acct(t.makerUserId, SettledAsset(m, t.side));
            NonNegative(Paid(c, m, t).ledger) <==> Held(c.ledger, k).available + Cost(t) >= t.makerFee
  {
    var k := Acct(t.makerUserId, SettledAsset(m, t.side));
    assert k in Paid(c, m, t).ledger;
    assert Paid(c, m, t).ledger[k].available == Held(c.ledger, k).available + Cost(t) - t.makerFee;
  }

  /** A taker that trades with its own resting order receives what it pays, less the fee. What it
      lacked for the deduction it need not have, and what it has frozen it gets back. */
  lemma OwnPaidNonNegativeIff(c: Core, m: Market, t: Trade)
    requires NonNegative(c.ledger) && t.takerUserId == t.makerUserId && Cost(t) >= 0.0
    ensures var has := Held(c.ledger, Acct(t.makerUserId, SettledAsset(m, t.side)));
            NonNegative(Paid(c, m, t).ledger)
            <==> has.available + (if Covered(c, m, t) then 0.0 else Cost(t))
                 + (if has.frozen >= Cost(t) then Cost(t) else 0.0) >= t.makerFee
  {
    var k := Acct(t.makerUserId, SettledAsset(m, t.side));
    OwnPaid(c.ledger, k, Cost(t), t.makerFee);
    assert Paid(c, m, t).ledger == OwnSettled(c.ledger, k, Cost(t), t.makerFee);
  }

  function OwnSettled(l: Ledger, k: Acct, cost: real, fee: real): Ledger {
    var l1 := Add(Sub(l, k, cost).Else(l), k, cost - fee);
    Unfreeze(l1, k, cost).Else(l1)
  }

  lemma OwnPaid(l: Ledger, k: Acct, cost: real, fee: real)
    requires NonNegative(l) && cost >= 0.0
    ensures var has := Held(l, k);
            NonNegative(OwnSettled(l, k, cost, fee))
            <==> has.available + (if Sub(l, k, cost).Done? then 0.0 else cost)
                 + (if has.frozen >= cost then cost else 0.0) >= fee
  {
    assert k in OwnSettled(l, k, cost, fee);
  }

  /** Below the fee rate a bid's maker is charged more than it receives, and its balance has to
      cover the difference; an ask's maker is never short. */
  lemma FeeRateIsTheLimit(c: Core, m: Market, t: Trade)
    requires NonNegative(c.ledger) && t.takerUserId != t.makerUserId
    requires t.price >= 0.0 && t.amount >= 0.0 && t.makerFee == t.amount * FEE_RATE
    ensures var has := Held(c.ledger, Acct(t.makerUserId, SettledAsset(m, t.side))).available;
            && (NonNegative(Paid(c, m, t).ledger) <==> t.side.Ask? || has >= FeeGap(t))
            && (has == 0.0 && t.amount > 0.0 ==>
                  (NonNegative(Paid(c, m, t).ledger) <==> t.side.Ask? || t.price >= FEE_RATE))
  {
    CostNonNegative(t);
    PaidNonNegativeIff(c, m, t);
    FeeGapMeans(t, Held(c.ledger, Acct(t.makerUserId, SettledAsset(m, t.side))).available);
  }

  lemma CostNonNegative(t: Trade)
    requires t.price >= 0.0 && t.amount >= 0.0
    ensures Cost(t) >= 0.0
  {
    ProductNonNegative(t.price, t.amount);
  }

  /** By how much the fee on a bid's trade exceeds what the maker receives. */
  function FeeGap(t: Trade): real { t.amount * (FEE_RATE - t.price) }

  lemma FeeGapMeans(t: Trade, has: real)
    requires t.amount >= 0.0 && t.makerFee == t.amount * FEE_RATE && has >= 0.0
    ensures has + Cost(t) >= t.makerFee <==> t.side.Ask? || has >= FeeGap(t)
    ensures has == 0.0 && t.amount > 0.0 ==> (has + Cost(t) >= t.makerFee <==> t.side.Ask? || t.price >= FEE_RATE)
  {
    ProductNonNegative(t.amount, 1.0 - FEE_RATE);
    FeeSign(t.price, t.amount);
  }

  lemma FeeSign(price: real, amount: real)
    requires amount >= 0.0
    ensures amount * (FEE_RATE - price) == amount * FEE_RATE - price * amount
    ensures amount > 0.0 ==> (amount * (FEE_RATE - price) <= 0.0 <==> price >= FEE_RATE)
  {
    if amount > 0.0 {
      if price < FEE_RATE {
        ProductPositive(amount, FEE_RATE - price);
      } else {
        ProductNonNegative(amount, price - FEE_RATE);
        assert amount * (FEE_RATE - price) == -(amount * (price - FEE_RATE));
      }
    }
  }
}
