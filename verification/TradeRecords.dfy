/** Every trade that is published agrees with the records of both its orders, and the trade lists
    are the published trades of each order, nested stop sweeps included. */
module TradeRecords {
  import opened Orders
  import opened Ledgers
  import opened Matching
  import opened FillLedger
  import opened Executions
  import opened UnlistedTrades

  /** The taker's side of the trade, and the maker's: another order of the same market and the
      other side, at its own limit price. */
  predicate Agrees(t: Trade, taker: Order, maker: Order) {
    && TakenBy(t, taker)
    && t.makerOrderId == maker.id && t.makerUserId == maker.userId && t.price == maker.price
    && maker.market == taker.market && maker.side != taker.side
  }

  predicate Fits(table: map<nat, Cell>, t: Trade) {
    && t.takerOrderId in table && t.makerOrderId in table
    && Agrees(t, table[t.takerOrderId].order, table[t.makerOrderId].order)
  }

  /** The trades of one order, in the order of publication. */
  function DealsOf(ts: seq<Trade>, id: nat): seq<Trade> {
    if ts == [] then []
    else
      var rest, t := DealsOf(ts[..|ts| - 1], id), ts[|ts| - 1];
      if t.takerOrderId == id || t.makerOrderId == id then rest + [t] else rest
  }

  /** What there was when the account begins: the trade lists, and how many deals. */
  datatype Start = Start(trades: map<nat, seq<Trade>>, deals: nat)

  /** Since then each published deal fits its orders, and each trade list has grown by the deals of
      its order. */
  ghost predicate Told(s: Start, c: Core) {
    && s.deals <= |c.journal.deals|
    && (forall i :: s.deals <= i < |c.journal.deals| ==> Fits(c.table, c.journal.deals[i]))
    && (forall id :: TradesOf(c.trades, id) == TradesOf(s.trades, id) + DealsOf(c.journal.deals[s.deals..], id))
  }

  /** The orders and stop orders of a market are its own, and each queue has one side. */
  ghost predicate InPlace(c: Core, name: string) {
    && (forall o :: o in c.book.bids ==> o.side.Bid? && o.market == name)
    && (forall o :: o in c.book.asks ==> o.side.Ask? && o.market == name)
    && (forall s :: s in c.stops ==> s.order.market == name)
  }

  // ---------- steps that publish nothing ----------

  lemma SameTold(s: Start, c: Core, c': Core)
    requires Told(s, c) && CellsFall(c, c') && c'.trades == c.trades && c'.journal.deals == c.journal.deals
    ensures Told(s, c')
  {
    forall i | s.deals <= i < |c'.journal.deals| ensures Fits(c'.table, c'.journal.deals[i]) {
      assert Fits(c.table, c.journal.deals[i]);
    }
  }

  lemma FewerInPlace(c: Core, c': Core, name: string)
    requires InPlace(c, name) && FewerIn(c.book, c'.book) && forall s :: s in c'.stops ==> s in c.stops
    ensures InPlace(c', name)
  {
  }

  lemma PoppedTells(s: Start, c: Core, name: string, side: Side, maker: Order)
    requires Told(s, c) && InPlace(c, name)
    ensures var c' := PopIfDone(c, side, maker); Told(s, c') && InPlace(c', name)
  {
    PoppedFunds(c, side, maker);
    PoppedQueued(c, side, maker);
    SameTold(s, c, PopIfDone(c, side, maker));
    FewerInPlace(c, PopIfDone(c, side, maker), name);
  }

  lemma RestedTells(past: Past, s: Start, c: Core, name: string, o: Order)
    requires AllAccounted(past, c) && Active(c, o) && Told(s, c) && InPlace(c, name) && o.market == name
    ensures var c' := Rested(c, o); Told(s, c') && InPlace(c', name)
  {
    RestedAccounted(past, c, o);
    RestedFunds(c, o);
    RestedTrades(c, o);
    SameTold(s, c, Rested(c, o));
    RestedInPlace(c, name, o);
  }

  lemma RestedTrades(c: Core, o: Order)
    ensures Rested(c, o).trades == c.trades
  {
  }

  lemma RestedInPlace(c: Core, name: string, o: Order)
    requires InPlace(c, name) && o.market == name
    ensures InPlace(Rested(c, o), name)
  {
    PushedQueued(c.book.Queue(o.side), o);
  }

  // ---------- one trade ----------

  lemma DealsOfNext(ts: seq<Trade>, t: Trade, id: nat)
    ensures DealsOf(ts + [t], id) == DealsOf(ts, id) + if t.takerOrderId == id || t.makerOrderId == id then [t] else []
  {
    assert (ts + [t])[..|ts|] == ts;
  }

  lemma OneList(trades: map<nat, seq<Trade>>, trades': map<nat, seq<Trade>>, t: Trade, id: nat)
    requires t.takerOrderId != t.makerOrderId
    requires trades' == trades[t.takerOrderId := TradesOf(trades, t.takerOrderId) + [t]]
                              [t.makerOrderId := TradesOf(trades, t.makerOrderId) + [t]]
    ensures TradesOf(trades', id)
         == TradesOf(trades, id) + if t.takerOrderId == id || t.makerOrderId == id then [t] else []
  {
  }

  lemma Associative<T>(a: seq<T>, b: seq<T>, c: seq<T>)
    ensures (a + b) + c == a + (b + c)
  {
  }

  /** The trade joins the lists of its two orders, and no other. */
  lemma JoinsLists(s: Start, trades: map<nat, seq<Trade>>, trades': map<nat, seq<Trade>>, ds: seq<Trade>, t: Trade)
    requires t.takerOrderId != t.makerOrderId
    requires trades' == trades[t.takerOrderId := TradesOf(trades, t.takerOrderId) + [t]]
                              [t.makerOrderId := TradesOf(trades, t.makerOrderId) + [t]]
    requires forall id :: TradesOf(trades, id) == TradesOf(s.trades, id) + DealsOf(ds, id)
    ensures forall id :: TradesOf(trades', id) == TradesOf(s.trades, id) + DealsOf(ds + [t], id)
  {
    forall id ensures TradesOf(trades', id) == TradesOf(s.trades, id) + DealsOf(ds + [t], id) {
      var own := if t.takerOrderId == id || t.makerOrderId == id then [t] else [];
      assert TradesOf(trades', id) == TradesOf(trades, id) + own by { OneList(trades, trades', t, id); }
      assert DealsOf(ds + [t], id) == DealsOf(ds, id) + own by { DealsOfNext(ds, t, id); }
      Associative(TradesOf(s.trades, id), DealsOf(ds, id), own);
    }
  }

  lemma NextFits(past: Past, c: Core, c': Core, name: string, o: Order)
    requires AllAccounted(past, c) && Active(c, o) && CanTrade(c, o) && InPlace(c, name) && o.market == name
    requires CellsFall(c, c')
    ensures Fits(c'.table, NextTrade(c, o, c.Makers(o)[0]))
  {
    var maker := c.Makers(o)[0];
    assert c.book.Queued(maker) && Known(c, maker);
    TradeTakes(c, o);
  }

  lemma TradedTells(past: Past, s: Start, c: Core, m: Market, name: string, o: Order)
    requires AllAccounted(past, c) && Active(c, o) && CanTrade(c, o)
    requires Told(s, c) && InPlace(c, name) && o.market == name
    ensures var c' := Traded(c, m, o); Told(s, c') && InPlace(c', name)
  {
    var maker, c' := c.Makers(o)[0], Traded(c, m, o);
    var t := NextTrade(c, o, maker);
    assert c.book.Queued(maker) && QueuedId(c, maker.id);
    TradedStaysAccounted(past, c, m, o);
    TradedShape(c, m, o);
    NextFits(past, c, c', name, o);
    DealTold(s, c, c', t);
  }

  lemma DealTold(s: Start, c: Core, c': Core, t: Trade)
    requires Told(s, c) && CellsFall(c, c') && Fits(c'.table, t) && t.takerOrderId != t.makerOrderId
    requires c'.journal.deals == c.journal.deals + [t]
    requires c'.trades == c.trades[t.takerOrderId := TradesOf(c.trades, t.takerOrderId) + [t]]
                                  [t.makerOrderId := TradesOf(c.trades, t.makerOrderId) + [t]]
    ensures Told(s, c')
  {
    forall i | s.deals <= i < |c'.journal.deals| ensures Fits(c'.table, c'.journal.deals[i]) {
      if i < |c.journal.deals| { assert Fits(c.table, c.journal.deals[i]); }
    }
    assert c'.journal.deals[s.deals..] == c.journal.deals[s.deals..] + [t];
    JoinsLists(s, c.trades, c'.trades, c.journal.deals[s.deals..], t);
  }

  // ---------- the loop with its sweeps ----------

  lemma {:induction false} LoopTells(past: Past, s: Start, c: Core, m: Market, name: string, o: Order)
    requires AllAccounted(past, c) && Active(c, o) && Told(s, c) && InPlace(c, name) && o.market == name
    ensures var c' := TakerLoop(c, m, o).core; Told(s, c') && InPlace(c', name)
    decreases |c.stops|, 2, |c.Makers(o)|, if c.Left(o) > 0.0 then 1 else 0
  {
    if CanTrade(c, o) {
      IteratedTells(past, s, c, m, name, o);
      IteratedKeeps(past, c, m, o);
      LoopTells(past, s, Iterated(c, m, o), m, name, o);
    }
  }

  lemma {:induction false} IteratedTells(past: Past, s: Start, c: Core, m: Market, name: string, o: Order)
    requires AllAccounted(past, c) && Active(c, o) && CanTrade(c, o)
    requires Told(s, c) && InPlace(c, name) && o.market == name
    ensures var c' := Iterated(c, m, o); Told(s, c') && InPlace(c', name)
    decreases |c.stops|, 1, 0, 0
  {
    var c0, maker := Traded(c, m, o), c.Makers(o)[0];
    TradedTells(past, s, c, m, name, o);
    TradedKeeps(past, c, m, o);
    SweptTells(past, s, c0, m, name, maker.price);
    PoppedTells(s, Swept(c0, m, maker.price), name, o.side.Opposite(), maker);
  }

  lemma {:induction false} SweptTells(past: Past, s: Start, c: Core, m: Market, name: string, price: real)
    requires AllAccounted(past, c) && Told(s, c) && InPlace(c, name)
    ensures var c' := Swept(c, m, price); Told(s, c') && InPlace(c', name)
    decreases |c.stops|, 0, 0, 0
  {
    var hit := Hit(c.stops, price);
    var c1 := c.(stops := Missed(c.stops, price), journal := c.journal.(fired := c.journal.fired + hit));
    HitAndMissedAreStops(c.stops, price);
    SameTold(s, c, c1);
    FewerInPlace(c, c1, name);
    OffListKeeps(past, c, c1);
    if hit != [] { FireAllTells(past, s, c1, m, name, hit); }
  }

  lemma {:induction false} FireAllTells(past: Past, s: Start, c: Core, m: Market, name: string, hit: seq<StopOrder>)
    requires AllAccounted(past, c) && Told(s, c) && InPlace(c, name)
    requires forall h :: h in hit ==> h.order.market == name
    ensures var c' := FireAll(c, m, hit); Told(s, c') && InPlace(c', name)
    decreases |c.stops|, 4, |hit|, 0
  {
    if hit != [] && !c.halted {
      assert hit[0] in hit;
      FiredTells(past, s, c, m, name, hit[0]);
      FiredKeeps(past, c, m, hit[0]);
      FireAllTells(past, s, Fired(c, m, hit[0]), m, name, hit[1..]);
    }
  }

  lemma {:induction false} FiredTells(past: Past, s: Start, c: Core, m: Market, name: string, h: StopOrder)
    requires AllAccounted(past, c) && Told(s, c) && InPlace(c, name) && h.order.market == name
    ensures var c' := Fired(c, m, h); Told(s, c') && InPlace(c', name)
    decreases |c.stops|, 3, 0, 0
  {
    var o := h.order.(id := c.nextId + 1);
    var c1 := Entered(c.(nextId := o.id), o);
    EnteredTells(past, s, c, c1, name, o);
    LoopTells(past, s, c1, m, name, o);
    LoopKeeps(past, c1, m, o);
    RestedTells(past, s, TakerLoop(c1, m, o).core, name, o);
    FiredEnters(c, m, h);
  }

  lemma EnteredTells(past: Past, s: Start, c: Core, c1: Core, name: string, o: Order)
    requires AllAccounted(past, c) && Told(s, c) && InPlace(c, name)
    requires o.id == c.nextId + 1 && c1 == Entered(c.(nextId := o.id), o)
    ensures AllAccounted(past, c1) && Active(c1, o) && Told(s, c1) && InPlace(c1, name)
  {
    EnteredAccounted(past, c, o);
    SameTold(s, c, c1);
  }

  lemma PlaceTells(past: Past, s: Start, c: Core, m: Market, name: string, o: Order)
    requires AllAccounted(past, c) && o.id == c.nextId + 1 && Told(s, c) && InPlace(c, name) && o.market == name
    ensures var c' := Place(c.(nextId := o.id), m, o).0; Told(s, c') && InPlace(c', name)
  {
    match Freeze(c.ledger, LockAcct(m, o), Need(o, o.amount))
    case Refused(_) => SameTold(s, c, c.(nextId := o.id));
    case Done(l) =>
      var c0 := c.(ledger := l);
      var c1 := Entered(c0.(nextId := o.id), o);
      OnlyAccounts(past, c, c0);
      SameTold(s, c, c0);
      EnteredTells(past, s, c0, c1, name, o);
      LoopTells(past, s, c1, m, name, o);
      LoopKeeps(past, c1, m, o);
      RestedTells(past, s, TakerLoop(c1, m, o).core, name, o);
      PlaceEnters(c, m, o, l);
  }

  // ---------- a market that is not configured ----------

  lemma UnlistedFiredInPlace(c: Core, name: string, h: StopOrder)
    requires Bounded(c) && InPlace(c, name) && h.order.market == name
    ensures InPlace(Fired(c, Unlisted, h), name)
  {
    var o := h.order.(id := c.nextId + 1);
    var c1 := Entered(c.(nextId := o.id), o);
    EnteredBounded(c, c1, o);
    LoopBounded(c1, o);
    SilentLoop(c1, o);
    FewerInPlace(c1, TakerLoop(c1, Unlisted, o).core, name);
    RestedInPlace(TakerLoop(c1, Unlisted, o).core, name, o);
    FiredEnters(c, Unlisted, h);
  }

  lemma {:induction false} UnlistedFireAllInPlace(c: Core, name: string, hit: seq<StopOrder>)
    requires Bounded(c) && InPlace(c, name) && forall h :: h in hit ==> h.order.market == name
    ensures InPlace(FireAll(c, Unlisted, hit), name)
    decreases |hit|
  {
    if hit != [] && !c.halted {
      assert hit[0] in hit;
      UnlistedFiredInPlace(c, name, hit[0]);
      FiredBounded(c, hit[0]);
      UnlistedFireAllInPlace(Fired(c, Unlisted, hit[0]), name, hit[1..]);
    }
  }

  /** Nothing is published there. */
  lemma UnlistedSweepTells(s: Start, c: Core, name: string, price: real)
    requires Bounded(c) && Told(s, c) && InPlace(c, name)
    ensures var c' := Swept(c, Unlisted, price); Told(s, c') && InPlace(c', name)
  {
    var hit := Hit(c.stops, price);
    var c1 := c.(stops := Missed(c.stops, price), journal := c.journal.(fired := c.journal.fired + hit));
    HitAndMissedAreStops(c.stops, price);
    SweepBounded(c, price);
    SilentSweep(c, price);
    SameTold(s, c, Swept(c, Unlisted, price));
    UnlistedFireAllInPlace(c1, name, hit);
  }
}
