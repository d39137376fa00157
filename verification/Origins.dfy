/** Where orders come from: over every run of any calls, each order that is new in the engine is one
    that a call placed or a stop order that fired, with its user, market, side, price and amount. */
module Origins {
  import opened Orders
  import opened Ledgers
  import opened Matching
  import opened FillLedger
  import opened Acceptances
  import opened Exchanges
  import opened StopSweeps
  import opened FillRuns
  import opened UnlistedTrades

  /** The same order under an ID of its own. */
  predicate From(o: Order, source: Order) { o == source.(id := o.id) }

  /** Which orders there were, how many stop orders had fired, and what is placed from then on. */
  datatype Begin = Begin(ids: set<nat>, fired: nat, placed: set<Order>)

  ghost predicate HasSource(b: Begin, fired: seq<StopOrder>, o: Order) {
    || (exists p :: p in b.placed && From(o, p))
    || (exists i :: b.fired <= i < |fired| && From(o, fired[i].order))
  }

  ghost predicate Sourced(b: Begin, table: map<nat, Cell>, fired: seq<StopOrder>) {
    b.fired <= |fired| && forall id :: id in table && id !in b.ids ==> HasSource(b, fired, table[id].order)
  }

  ghost predicate CoreSourced(b: Begin, c: Core) { Sourced(b, c.table, c.journal.fired) }

  lemma StillHasSource(b: Begin, fired: seq<StopOrder>, fired': seq<StopOrder>, o: Order)
    requires HasSource(b, fired, o) && fired <= fired'
    ensures HasSource(b, fired', o)
  {
    if i :| b.fired <= i < |fired| && From(o, fired[i].order) { assert fired'[i] == fired[i]; }
  }

  /** The same orders, and perhaps more fired stop orders. */
  lemma SameOrdersSourced(b: Begin, c: Core, c': Core)
    requires CoreSourced(b, c) && CellsFall(c, c') && c'.table.Keys == c.table.Keys
    requires c.journal.fired <= c'.journal.fired
    ensures CoreSourced(b, c')
  {
    forall id | id in c'.table && id !in b.ids ensures HasSource(b, c'.journal.fired, c'.table[id].order) {
      StillHasSource(b, c.journal.fired, c'.journal.fired, c.table[id].order);
    }
  }

  lemma EnteredSourced(b: Begin, c: Core, c1: Core, o: Order)
    requires CoreSourced(b, c) && c1 == Entered(c.(nextId := o.id), o) && HasSource(b, c.journal.fired, o)
    ensures CoreSourced(b, c1)
  {
  }

  lemma RestedSourced(past: Past, b: Begin, c: Core, o: Order)
    requires AllAccounted(past, c) && Active(c, o) && CoreSourced(b, c)
    ensures CoreSourced(b, Rested(c, o)) && Rested(c, o).journal == c.journal
  {
    RestedAccounted(past, c, o);
    RestedFunds(c, o);
    RestedKeys(c, o);
    SameOrdersSourced(b, c, Rested(c, o));
  }

  lemma RestedKeys(c: Core, o: Order)
    requires o.id in c.table
    ensures Rested(c, o).table.Keys == c.table.Keys
  {
  }

  // ---------- the loop with its sweeps ----------

  lemma TradedSourced(past: Past, b: Begin, c: Core, m: Market, o: Order)
    requires AllAccounted(past, c) && Active(c, o) && CanTrade(c, o) && CoreSourced(b, c)
    ensures CoreSourced(b, Traded(c, m, o))
  {
    TradedFired(c, m, o);
    TradedOrders(past, c, m, o);
    SameOrdersSourced(b, c, Traded(c, m, o));
  }

  lemma TradedOrders(past: Past, c: Core, m: Market, o: Order)
    requires AllAccounted(past, c) && Active(c, o) && CanTrade(c, o)
    ensures CellsFall(c, Traded(c, m, o)) && Traded(c, m, o).table.Keys == c.table.Keys
  {
    var maker := c.Makers(o)[0];
    assert c.book.Queued(maker) && Known(c, maker) && QueuedId(c, maker.id);
    TradedStaysAccounted(past, c, m, o);
    TradedShape(c, m, o);
  }

  lemma TradedFired(c: Core, m: Market, o: Order)
    requires c.Makers(o) != []
    ensures Traded(c, m, o).journal.fired == c.journal.fired
  {
  }

  lemma {:induction false} LoopSourced(past: Past, b: Begin, c: Core, m: Market, o: Order)
    requires AllAccounted(past, c) && Active(c, o) && CoreSourced(b, c)
    ensures CoreSourced(b, TakerLoop(c, m, o).core)
    decreases |c.stops|, 2, |c.Makers(o)|, if c.Left(o) > 0.0 then 1 else 0
  {
    if CanTrade(c, o) {
      IteratedSourced(past, b, c, m, o);
      IteratedKeeps(past, c, m, o);
      LoopSourced(past, b, Iterated(c, m, o), m, o);
    }
  }

  lemma {:induction false} IteratedSourced(past: Past, b: Begin, c: Core, m: Market, o: Order)
    requires AllAccounted(past, c) && Active(c, o) && CanTrade(c, o) && CoreSourced(b, c)
    ensures CoreSourced(b, Iterated(c, m, o))
    decreases |c.stops|, 1, 0, 0
  {
    var c0, maker := Traded(c, m, o), c.Makers(o)[0];
    TradedSourced(past, b, c, m, o);
    TradedKeeps(past, c, m, o);
    SweptSourced(past, b, c0, m, maker.price);
    PoppedFunds(Swept(c0, m, maker.price), o.side.Opposite(), maker);
  }

  /** What a sweep takes off the list becomes a source. */
  lemma HitsAreSources(b: Begin, fired: seq<StopOrder>, hit: seq<StopOrder>)
    requires b.fired <= |fired|
    ensures AllSources(b, fired + hit, hit)
  {
    forall h, id: nat | h in hit ensures HasSource(b, fired + hit, h.order.(id := id)) {
      var i :| 0 <= i < |hit| && hit[i] == h;
      assert (fired + hit)[|fired| + i] == h && From(h.order.(id := id), h.order);
    }
  }

  ghost predicate AllSources(b: Begin, fired: seq<StopOrder>, hit: seq<StopOrder>) {
    forall h, id: nat :: h in hit ==> HasSource(b, fired, h.order.(id := id))
  }

  lemma {:induction false} SweptSourced(past: Past, b: Begin, c: Core, m: Market, price: real)
    requires AllAccounted(past, c) && CoreSourced(b, c)
    ensures CoreSourced(b, Swept(c, m, price))
    decreases |c.stops|, 0, 0, 0
  {
    var hit := Hit(c.stops, price);
    var c1 := c.(stops := Missed(c.stops, price), journal := c.journal.(fired := c.journal.fired + hit));
    SameOrdersSourced(b, c, c1);
    HitsAreSources(b, c.journal.fired, hit);
    OffListKeeps(past, c, c1);
    if hit != [] { FireAllSourced(past, b, c1, m, hit); }
  }

  lemma {:induction false} FireAllSourced(past: Past, b: Begin, c: Core, m: Market, hit: seq<StopOrder>)
    requires AllAccounted(past, c) && CoreSourced(b, c) && AllSources(b, c.journal.fired, hit)
    ensures CoreSourced(b, FireAll(c, m, hit))
    decreases |c.stops|, 4, |hit|, 0
  {
    if hit != [] && !c.halted {
      var c1 := Fired(c, m, hit[0]);
      FiredSourced(past, b, c, m, hit[0]);
      FiredKeeps(past, c, m, hit[0]);
      FiredPrompts(c, m, hit[0]);
      StillSources(b, c.journal.fired, c1.journal.fired, hit);
      FireAllSourced(past, b, c1, m, hit[1..]);
    }
  }

  lemma StillSources(b: Begin, fired: seq<StopOrder>, fired': seq<StopOrder>, hit: seq<StopOrder>)
    requires AllSources(b, fired, hit) && fired <= fired' && hit != []
    ensures AllSources(b, fired', hit[1..])
  {
    forall h, id: nat | h in hit[1..] ensures HasSource(b, fired', h.order.(id := id)) {
      assert h in hit;
      StillHasSource(b, fired, fired', h.order.(id := id));
    }
  }

  lemma {:induction false} FiredSourced(past: Past, b: Begin, c: Core, m: Market, h: StopOrder)
    requires AllAccounted(past, c) && CoreSourced(b, c)
    requires HasSource(b, c.journal.fired, h.order.(id := c.nextId + 1))
    ensures CoreSourced(b, Fired(c, m, h))
    decreases |c.stops|, 3, 0, 0
  {
    var o := h.order.(id := c.nextId + 1);
    var c1 := Entered(c.(nextId := o.id), o);
    EnteredSourced(b, c, c1, o);
    EnteredKeeps(past, c, o);
    LoopSourced(past, b, c1, m, o);
    LoopKeeps(past, c1, m, o);
    RestedSourced(past, b, TakerLoop(c1, m, o).core, o);
    FiredEnters(c, m, h);
  }

  lemma PlaceSourced(past: Past, b: Begin, c: Core, m: Market, o: Order)
    requires AllAccounted(past, c) && o.id == c.nextId + 1 && CoreSourced(b, c) && HasSource(b, c.journal.fired, o)
    ensures CoreSourced(b, Place(c.(nextId := o.id), m, o).0)
  {
    match Freeze(c.ledger, LockAcct(m, o), Need(o, o.amount))
    case Refused(_) =>
    case Done(l) =>
      var c0 := c.(ledger := l);
      var c1 := Entered(c0.(nextId := o.id), o);
      OnlyAccounts(past, c, c0);
      EnteredSourced(b, c0, c1, o);
      EnteredKeeps(past, c0, o);
      LoopSourced(past, b, c1, m, o);
      LoopKeeps(past, c1, m, o);
      RestedSourced(past, b, TakerLoop(c1, m, o).core, o);
      PlaceEnters(c, m, o, l);
  }

  // ---------- a market that is not configured ----------

  lemma {:induction false} UnlistedLoopKeys(c: Core, o: Order)
    requires Bounded(c) && Active(c, o)
    ensures TakerLoop(c, Unlisted, o).core.table.Keys == c.table.Keys
    decreases |c.stops|, |c.Makers(o)|, if c.Left(o) > 0.0 then 1 else 0
  {
    if CanTrade(c, o) {
      RootMaker(c, o);
      UnlistedTurn(c, o);
      TurnBounded(c, Iterated(c, Unlisted, o), o, c.Makers(o)[0]);
      UnlistedLoopKeys(Iterated(c, Unlisted, o), o);
    }
  }

  lemma UnlistedFiredSourced(b: Begin, c: Core, h: StopOrder)
    requires Bounded(c) && CoreSourced(b, c) && HasSource(b, c.journal.fired, h.order.(id := c.nextId + 1))
    ensures CoreSourced(b, Fired(c, Unlisted, h)) && Fired(c, Unlisted, h).journal.fired == c.journal.fired
  {
    var o := h.order.(id := c.nextId + 1);
    var c1 := Entered(c.(nextId := o.id), o);
    var c2 := TakerLoop(c1, Unlisted, o).core;
    EnteredSourced(b, c, c1, o);
    EnteredBounded(c, c1, o);
    LoopBounded(c1, o);
    UnlistedLoopKeys(c1, o);
    SilentLoop(c1, o);
    SameOrdersSourced(b, c1, c2);
    BoundedIsAccounted(c2);
    RestedSourced(Unrecorded(c2), b, c2, o);
    FiredEnters(c, Unlisted, h);
  }

  lemma {:induction false} UnlistedFireAllSourced(b: Begin, c: Core, hit: seq<StopOrder>)
    requires Bounded(c) && CoreSourced(b, c) && AllSources(b, c.journal.fired, hit)
    ensures CoreSourced(b, FireAll(c, Unlisted, hit))
    decreases |hit|
  {
    if hit != [] && !c.halted {
      var c1 := Fired(c, Unlisted, hit[0]);
      UnlistedFiredSourced(b, c, hit[0]);
      FiredBounded(c, hit[0]);
      StillSources(b, c.journal.fired, c1.journal.fired, hit);
      UnlistedFireAllSourced(b, c1, hit[1..]);
    }
  }

  lemma UnlistedSweepSourced(b: Begin, c: Core, price: real)
    requires Bounded(c) && CoreSourced(b, c)
    ensures CoreSourced(b, Swept(c, Unlisted, price))
  {
    var hit := Hit(c.stops, price);
    var c1 := c.(stops := Missed(c.stops, price), journal := c.journal.(fired := c.journal.fired + hit));
    SameOrdersSourced(b, c, c1);
    HitsAreSources(b, c.journal.fired, hit);
    UnlistedFireAllSourced(b, c1, hit);
  }

  // ---------- runs ----------

  ghost predicate ExchangeSourced(b: Begin, x: Exchange) { Sourced(b, x.table, x.journal.fired) }

  /** The order that a call places, before it has an ID. */
  function PlacedOrder(op: Op): Order
    requires op.PlaceLimit?
  {
    Order(0, op.userId, op.market, op.side, op.price, op.amount)
  }

  function PlacedOrders(ops: seq<Op>): set<Order> {
    set op | op in ops && op.PlaceLimit? :: PlacedOrder(op)
  }

  lemma QuietSourced(b: Begin, x: Exchange, x': Exchange)
    requires ExchangeSourced(b, x) && KeepsOrders(x, x') && x'.table.Keys == x.table.Keys
    requires x'.journal.fired == x.journal.fired
    ensures ExchangeSourced(b, x')
  {
    SameOrdersSourced(b, x.Slice(""), x'.Slice(""));
  }

  lemma PlaceStepSourced(b: Begin, x: Exchange, o: Order)
    requires ExchangeBounded(x) && ExchangeSourced(b, x) && o.id == x.nextId + 1
    requires HasSource(b, x.journal.fired, o)
    ensures ExchangeSourced(b, PlaceNew(x, o))
  {
    if o.market in x.markets {
      var c := x.Slice(o.market);
      assert Bounded(c) && x.(nextId := o.id).Slice(o.market) == c.(nextId := o.id);
      BoundedIsAccounted(c);
      PlaceSourced(Unrecorded(c), b, c, x.markets[o.market], o);
    }
  }

  lemma SweepStepSourced(b: Begin, x: Exchange, name: string, lastPrice: real)
    requires ExchangeBounded(x) && ExchangeSourced(b, x)
    ensures ExchangeSourced(b, SweepMarket(x, name, lastPrice))
  {
    var c := x.Slice(name);
    assert Bounded(c);
    if Hit(c.stops, lastPrice) == [] {
    } else if name in x.markets {
      BoundedIsAccounted(c);
      SweptSourced(Unrecorded(c), b, c, x.markets[name], lastPrice);
    } else {
      UnlistedSweepSourced(b, c, lastPrice);
    }
  }

  lemma CancelStepSourced(b: Begin, x: Exchange, id: nat, name: string)
    requires ExchangeBounded(x) && ExchangeSourced(b, x)
    ensures ExchangeSourced(b, CancelOrder(x, id, name))
  {
    if name in x.books && name in x.markets {
      var c := x.Slice(name);
      assert Bounded(c);
      CancelShape(c, x.markets[name], id);
      SameOrdersSourced(b, c, Cancel(c, x.markets[name], id));
    }
  }

  lemma StepSourced(b: Begin, x: Exchange, op: Op)
    requires ExchangeBounded(x) && ExchangeSourced(b, x) && (op.PlaceLimit? ==> PlacedOrder(op) in b.placed)
    ensures ExchangeSourced(b, Step(x, op))
  {
    var x' := Step(x, op);
    if x.halted {
      assert x' == x;
    } else if op.PlaceLimit? {
      var o := Order(x.nextId + 1, op.userId, op.market, op.side, op.price, op.amount);
      assert x' == PlaceNew(x, o) && From(o, PlacedOrder(op));
      PlaceStepSourced(b, x, o);
    } else if op.CancelLimit? {
      assert x' == CancelOrder(x, op.id, op.market);
      CancelStepSourced(b, x, op.id, op.market);
    } else if op.SweepStops? {
      assert x' == SweepMarket(x, op.market, op.lastPrice);
      SweepStepSourced(b, x, op.market, op.lastPrice);
    } else {
      QuietSourced(b, x, x');
    }
  }

  lemma {:induction false} RunSourced(b: Begin, x: Exchange, ops: seq<Op>)
    requires ExchangeBounded(x) && ExchangeSourced(b, x)
    requires forall op :: op in ops && op.PlaceLimit? ==> PlacedOrder(op) in b.placed
    ensures ExchangeSourced(b, Run(x, ops))
    decreases |ops|
  {
    if ops != [] {
      assert ops[0] in ops && forall op :: op in ops[1..] ==> op in ops;
      StepSourced(b, x, ops[0]);
      StepBounded(x, ops[0]);
      RunSourced(b, Step(x, ops[0]), ops[1..]);
    }
  }

  /** Over every run: an order that the engine did not have before has exactly the fields of an
      order that the run placed, or of a stop order that fired in it. */
  lemma RunOrigins(x: Exchange, ops: seq<Op>, id: nat)
    requires ExchangeBounded(x)
    requires id in Run(x, ops).table && id !in x.table
    ensures var o, fired := Run(x, ops).table[id].order, Run(x, ops).journal.fired;
            || (exists op :: op in ops && op.PlaceLimit? && From(o, PlacedOrder(op)))
            || (exists i :: |x.journal.fired| <= i < |fired| && From(o, fired[i].order))
  {
    var b := Begin(x.table.Keys, |x.journal.fired|, PlacedOrders(ops));
    RunSourced(b, x, ops);
    var o := Run(x, ops).table[id].order;
    assert HasSource(b, Run(x, ops).journal.fired, o);
    if p :| p in b.placed && From(o, p) {
      var op :| op in ops && op.PlaceLimit? && PlacedOrder(op) == p;
      assert From(o, PlacedOrder(op));
    }
  }

  // ---------- what a placed order needs to enter ----------

  lemma AcceptedEnters(past: Past, c: Core, m: Market, o: Order)
    requires AllAccounted(past, c) && o.id == c.nextId + 1 && Affordable(c.ledger, m, o)
    ensures o.id in Place(c.(nextId := o.id), m, o).0.table
  {
    var l := Freeze(c.ledger, LockAcct(m, o), Need(o, o.amount)).ledger;
    PlaceAcceptedIff(c, m, o);
    var c0 := c.(ledger := l);
    var c1 := Entered(c0.(nextId := o.id), o);
    OnlyAccounts(past, c, c0);
    EnteredKeeps(past, c0, o);
    LoopKeeps(past, c1, m, o);
    RestedKeys(TakerLoop(c1, m, o).core, o);
    PlaceEnters(c, m, o, l);
  }

  /** The engine after a refusal. */
  predicate OnlyDrew(x: Exchange, x': Exchange) {
    && x'.table == x.table && x'.ledger == x.ledger && x'.trades == x.trades && x'.journal == x.journal
    && x'.nextId == x.nextId + 1
  }

  lemma RefusedDrew(x: Exchange, o: Order)
    requires o.id == x.nextId + 1 && (o.market in x.markets ==> !Affordable(x.ledger, x.markets[o.market], o))
    ensures OnlyDrew(x, PlaceNew(x, o))
  {
    if o.market in x.markets {
      var c := x.(nextId := o.id).Slice(o.market);
      PlaceAcceptedIff(c, x.markets[o.market], o);
    }
  }

  lemma PlaceNewEnters(x: Exchange, o: Order)
    requires ExchangeBounded(x) && o.id == x.nextId + 1
    requires o.market in x.markets && Affordable(x.ledger, x.markets[o.market], o)
    ensures o.id in PlaceNew(x, o).table
  {
    var c := x.Slice(o.market);
    assert Bounded(c) && x.(nextId := o.id).Slice(o.market) == c.(nextId := o.id);
    BoundedIsAccounted(c);
    AcceptedEnters(Unrecorded(c), c, x.markets[o.market], o);
  }

  predicate MayEnter(x: Exchange, o: Order) {
    o.market in x.markets && Affordable(x.ledger, x.markets[o.market], o)
  }

  lemma AnyIdMayEnter(x: Exchange, o: Order, id: nat)
    ensures MayEnter(x, o.(id := id)) <==> MayEnter(x, o)
  {
  }

  lemma PlaceNewEntersIff(x: Exchange, o: Order)
    requires ExchangeBounded(x) && o.id == x.nextId + 1
    ensures (o.id in PlaceNew(x, o).table <==> MayEnter(x, o)) && (!MayEnter(x, o) ==> OnlyDrew(x, PlaceNew(x, o)))
  {
    assert Bounded(x.Slice("")) && o.id !in x.table;
    if MayEnter(x, o) { PlaceNewEnters(x, o); } else { RefusedDrew(x, o); }
  }

  /** A placed order enters exactly when its market is configured and its account can cover it;
      otherwise the call has drawn an ID and changed no order, balance or trade. */
  lemma StepEntersIff(x: Exchange, op: Op)
    requires ExchangeBounded(x) && !x.halted && op.PlaceLimit?
    ensures var x' := Step(x, op);
            && (x.nextId + 1 in x'.table <==> MayEnter(x, PlacedOrder(op)))
            && (!MayEnter(x, PlacedOrder(op)) ==> OnlyDrew(x, x'))
  {
    var o := PlacedOrder(op).(id := x.nextId + 1);
    AnyIdMayEnter(x, PlacedOrder(op), o.id);
    PlaceNewEntersIff(x, o);
    StepPlaces(x, op, o);
  }

  lemma StepPlaces(x: Exchange, op: Op, o: Order)
    requires !x.halted && op.PlaceLimit? && o == PlacedOrder(op).(id := x.nextId + 1)
    ensures Step(x, op) == PlaceNew(x, o)
  {
    var placed := Order(x.nextId + 1, op.userId, op.market, op.side, op.price, op.amount);
    assert o == placed;
    assert Step(x, op) == PlaceNew(x, placed);
  }
}
