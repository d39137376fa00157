/** `Engine` in place: its loops and calls, proved against the functions of `Matching`
    and `Exchanges`.

    Every public call runs under one lock and is one atomic step here; the lock is taken
    again inside a call by the source, which this model treats as doing nothing. A Go
    panic sets `panicked` and unwinds. */
module Engines {
  import opened Options
  import opened Orders
  import opened PriceQueues
  import opened Ledgers
  import opened Matching
  import opened FillLedger
  import opened FillRuns
  import opened Exchanges
  import opened Balances
  import opened OrderBooks
  import opened StopManagers

  /** Each book is the one made for its market; so no two books share an object. */
  ghost predicate AllOwn(books: map<string, OrderBook>) {
    forall n :: n in books ==> books[n].Valid() && books[n].market == n
  }

  class Engine {
    const balances: BalanceManager
    const stopMgr: StopManager
    const markets: Markets
    var orderBooks: map<string, OrderBook>
    /** The `Left` and `Status` fields of every order the engine has seen. */
    var cells: map<nat, Cell>
    var orderTrades: map<nat, seq<Trade>>
    var lastId: nat
    var panicked: bool
    ghost var journal: Journal

    constructor (markets: Markets)
      ensures Valid() && Abs() == Started(markets)
      ensures fresh(balances) && fresh(stopMgr)
    {
      balances := new BalanceManager();
      stopMgr := new StopManager();
      this.markets := markets;
      orderBooks, cells, orderTrades, lastId, panicked := map[], map[], map[], 0, false;
      journal := Journal([], [], 0, []);
    }

    // ---------- views ----------

    ghost predicate Valid()
      reads this, balances, stopMgr
    {
      && balances.Valid() && AllOwn(orderBooks)
      && forall n, s :: s in stopMgr.Of(n) ==> s.order.market == n
    }

    ghost function BookObjects(): set<object>
      reads this
    {
      (set n | n in orderBooks :: orderBooks[n] as object)
      + (set n | n in orderBooks :: orderBooks[n].bids as object)
      + (set n | n in orderBooks :: orderBooks[n].asks as object)
    }

    ghost function Abs(): Exchange
      reads this, balances, stopMgr, BookObjects()
    {
      Exchange(markets, map n | n in orderBooks :: orderBooks[n].View(), stopMgr.View(),
               cells, balances.ledger, orderTrades, lastId, panicked, journal)
    }

    /** What the calls on one market see. */
    ghost function Slice(name: string, ob: OrderBook): Core
      reads this, balances, stopMgr, ob, ob.bids, ob.asks
    {
      Core(ob.View(), stopMgr.Of(name), cells, balances.ledger, orderTrades, lastId, panicked, journal)
    }

    /** `ob` is the book of `name`, and the stop orders kept under `name` belong to it. */
    ghost predicate Ready(name: string, ob: OrderBook)
      reads this, balances, stopMgr
    {
      && balances.Valid() && ob.Valid() && ob.market == name
      && name in orderBooks && orderBooks[name] == ob
      && forall s :: s in stopMgr.Of(name) ==> s.order.market == name
    }

    function LeftOf(o: Order): real
      reads this
    {
      LeftIn(cells, o)
    }

    // ---------- small steps ----------

    method NextID() returns (id: nat)
      modifies this`lastId
      ensures id == lastId == old(lastId) + 1
    {
      lastId := lastId + 1;
      return lastId;
    }

    method SetLeft(o: Order, left: real)
      modifies this`cells
      ensures var was := old(cells);
              cells == was[o.id := Cell(o, left, if o.id in was then was[o.id].status else Pending)]
    {
      cells := cells[o.id := Cell(o, left, if o.id in cells then cells[o.id].status else Pending)];
    }

    method SetStatus(o: Order, status: Status)
      modifies this`cells
      ensures cells == old(cells)[o.id := Cell(o, LeftIn(old(cells), o), status)]
    {
      cells := cells[o.id := Cell(o, LeftOf(o), status)];
    }

    method AddTradeToOrder(trade: Trade)
      modifies this`orderTrades
      ensures orderTrades.Keys == old(orderTrades).Keys + {trade.takerOrderId, trade.makerOrderId}
      ensures forall id :: TradesOf(orderTrades, id) == TradesOf(old(orderTrades), id)
                                                        + (if id == trade.takerOrderId then [trade] else [])
                                                        + (if id == trade.makerOrderId then [trade] else [])
    {
      orderTrades := orderTrades[trade.takerOrderId := TradesOf(orderTrades, trade.takerOrderId) + [trade]];
      orderTrades := orderTrades[trade.makerOrderId := TradesOf(orderTrades, trade.makerOrderId) + [trade]];
    }

    method GetOrderTrades(orderId: nat, offset: nat, limit: nat) returns (trades: seq<Trade>, total: nat)
      ensures Page(trades, total) == OrderTrades(orderTrades, orderId, offset, limit)
    {
      var all := TradesOf(orderTrades, orderId);
      total := |all|;
      if offset >= total { return [], total; }
      var end := offset + limit;
      if end > total { end := total; }
      trades := all[offset..end];
    }

    method GetOrCreateOrderBook(name: string) returns (ob: OrderBook)
      modifies this`orderBooks
      ensures Abs() == old(Abs()).(books := old(Abs()).books[name := old(Abs()).BookOf(name)])
      ensures orderBooks == old(orderBooks)[name := ob]
      ensures name in old(orderBooks) ==> orderBooks == old(orderBooks) && ob == old(orderBooks)[name]
      ensures name !in old(orderBooks) ==>
                && ob.Valid() && ob.market == name && ob.View() == EMPTY_BOOK
                && fresh(ob) && fresh(ob.bids) && fresh(ob.asks)
    {
      if name !in orderBooks {
        ob := new OrderBook(name);
        orderBooks := orderBooks[name := ob];
      } else {
        ob := orderBooks[name];
      }
    }

    // ---------- matching ----------

    /** The taker loop. */
    method MatchAsTaker(incoming: Order, makerQueue: PriceQueue, ob: OrderBook, ghost name: string)
      returns (trades: seq<Trade>)
      requires Ready(name, ob) && incoming.market == name
      requires makerQueue == if incoming.side == Bid then ob.asks else ob.bids
      modifies this, balances, stopMgr, ob, ob.bids, ob.asks
      ensures Ready(name, ob) && orderBooks == old(orderBooks)
      ensures Taken(Slice(name, ob), trades) == TakerLoop(old(Slice(name, ob)), ListingOf(markets, name), incoming)
      ensures forall n :: n != name ==> stopMgr.Of(n) == old(stopMgr.Of(n))
      decreases |stopMgr.Of(name)|, 3
    {
      trades := [];
      ghost var m := ListingOf(markets, name);
      ghost var c0 := Slice(name, ob);
      LoopStart(c0, m, incoming);
      while !panicked && |makerQueue.orders| > 0 && LeftOf(incoming) > 0.0
        invariant Ready(name, ob) && orderBooks == old(orderBooks)
        invariant forall n :: n != name ==> stopMgr.Of(n) == old(stopMgr.Of(n))
        invariant Continues(c0, Slice(name, ob), m, incoming, trades)
        invariant |stopMgr.Of(name)| <= |c0.stops|
        decreases |stopMgr.Of(name)|, |makerQueue.orders|, if LeftOf(incoming) > 0.0 then 1 else 0
      {
        var maker := makerQueue.orders[0];
        if incoming.side == Bid && maker.price > incoming.price { break; }
        if incoming.side == Ask && maker.price < incoming.price { break; }
        ghost var c := Slice(name, ob);
        var trade := TradeOnce(incoming, maker, makerQueue, ob, name);
        LoopStep(c0, c, m, incoming, trade, trades);
        trades := trades + [trade];
      }
      LoopEnd(c0, Slice(name, ob), m, incoming, trades);
    }

    /** The body of the loop: fill, settle, and pop a maker that has nothing left. */
    method TradeOnce(incoming: Order, maker: Order, makerQueue: PriceQueue, ob: OrderBook, ghost name: string)
      returns (trade: Trade)
      requires Ready(name, ob) && incoming.market == name
      requires makerQueue == if incoming.side == Bid then ob.asks else ob.bids
      requires CanTrade(Slice(name, ob), incoming) && maker == makerQueue.orders[0]
      modifies this, balances, stopMgr, ob, ob.bids, ob.asks
      ensures Ready(name, ob) && orderBooks == old(orderBooks)
      ensures trade == NextTrade(old(Slice(name, ob)), incoming, maker)
      ensures Slice(name, ob) == Iterated(old(Slice(name, ob)), ListingOf(markets, name), incoming)
      ensures forall n :: n != name ==> stopMgr.Of(n) == old(stopMgr.Of(n))
      decreases |stopMgr.Of(name)|, 2
    {
      ghost var c := Slice(name, ob);
      trade := Fill(incoming, maker, ob, name);
      SettleTrade(trade, ob, name);
      ghost var c1 := Slice(name, ob);
      assert c1 == if name !in markets then Filled(c, incoming, maker, trade)
                   else Swept(Traded(c, markets[name], incoming), markets[name], maker.price);
      if !panicked && LeftOf(maker) <= 0.0 { PopMaker(makerQueue, maker, ob, name, incoming.side.Opposite()); }
      assert Slice(name, ob) == if c1.halted then c1 else PopIfDone(c1, incoming.side.Opposite(), maker);
    }

    /** Both orders shrink by what the smaller one has left. */
    method Fill(incoming: Order, maker: Order, ghost ob: OrderBook, ghost name: string) returns (trade: Trade)
      requires balances.Valid()
      modifies this`lastId, this`cells
      ensures trade == NextTrade(old(Slice(name, ob)), incoming, maker)
      ensures Slice(name, ob) == Filled(old(Slice(name, ob)), incoming, maker, trade)
    {
      var tradeAmount := Min(LeftOf(incoming), LeftOf(maker));
      var id := NextID();
      trade := Trade(id, incoming.id, maker.id, incoming.userId, maker.userId, incoming.market, incoming.side,
                     maker.price, tradeAmount, tradeAmount * FEE_RATE, tradeAmount * FEE_RATE);
      SetLeft(incoming, LeftOf(incoming) - tradeAmount);
      SetLeft(maker, LeftOf(maker) - tradeAmount);
    }

    /** `heap.Pop` panics on the queue that a nested sweep has emptied. */
    method PopMaker(makerQueue: PriceQueue, maker: Order, ob: OrderBook, ghost name: string, ghost side: Side)
      requires balances.Valid() && ob.Valid() && makerQueue == if side == Ask then ob.asks else ob.bids
      modifies this`panicked, ob, makerQueue
      ensures Slice(name, ob) == Matching.PopMaker(old(Slice(name, ob)), side, maker)
    {
      if |makerQueue.orders| == 0 {
        panicked := true;
      } else {
        var _ := makerQueue.Pop();
        ob.Remove(maker.id);
      }
    }

    /** Record and pay one trade, then look at the stop orders; nothing at all where the market
        is not configured. */
    method SettleTrade(trade: Trade, ob: OrderBook, ghost name: string)
      requires Ready(name, ob) && trade.market == name && !panicked
      modifies this, balances, stopMgr, ob, ob.bids, ob.asks
      ensures Ready(name, ob) && orderBooks == old(orderBooks)
      ensures Slice(name, ob) == if name !in markets then old(Slice(name, ob))
                                 else var m := markets[name];
                                      Swept(Paid(Recorded(old(Slice(name, ob)), trade), m, trade), m, trade.price)
      ensures forall n :: n != name ==> stopMgr.Of(n) == old(stopMgr.Of(n))
      decreases |stopMgr.Of(name)|, 1
    {
      ghost var c := Slice(name, ob);
      if trade.market !in markets { return; }
      var market := markets[trade.market];
      journal := journal.(deals := journal.deals + [trade]);
      AddTradeToOrder(trade);
      RecordedAs(c.trades, orderTrades, trade);
      assert Slice(name, ob) == Recorded(c, trade);
      Pay(trade, market, Slice(name, ob));
      assert Slice(name, ob) == Paid(Recorded(c, trade), market, trade);
      CheckStopOrdersAfterTrade(trade.market, trade.price, ob);
    }

    /** The three balance updates of a trade; their errors are dropped. */
    method Pay(trade: Trade, market: Market, ghost c: Core)
      requires balances.Valid() && c.ledger == balances.ledger && c.journal == journal
      modifies this`journal, balances
      ensures balances.Valid()
      ensures balances.ledger == Paid(c, market, trade).ledger && journal == Paid(c, market, trade).journal
    {
      var deduct, unlock;
      ghost var asset, due := SettledAsset(market, trade.side), Cost(trade);
      ghost var l0 := Sub(c.ledger, Acct(trade.takerUserId, asset), due).Else(c.ledger);
      ghost var l1 := Add(l0, Acct(trade.makerUserId, asset), due - trade.makerFee);
      if trade.side == Bid {
        var cost := trade.price * trade.amount;
        assert cost == due && market.money == asset;
        deduct := balances.Sub(trade.takerUserId, market.money, cost);
        assert balances.ledger == l0;
        balances.Add(trade.makerUserId, market.money, cost - trade.makerFee);
        assert balances.ledger == l1;
        unlock := balances.Unfreeze(trade.takerUserId, market.money, cost);
      } else {
        deduct := balances.Sub(trade.takerUserId, market.stock, trade.amount);
        assert balances.ledger == l0;
        balances.Add(trade.makerUserId, market.stock, trade.amount - trade.makerFee);
        assert balances.ledger == l1;
        unlock := balances.Unfreeze(trade.takerUserId, market.stock, trade.amount);
      }
      assert balances.ledger == Unfreeze(l1, Acct(trade.takerUserId, asset), due).Else(l1);
      assert unlock == ErrorOf(Unfreeze(l1, Acct(trade.takerUserId, asset), due));
      assert deduct == ErrorOf(Sub(c.ledger, Acct(trade.takerUserId, asset), due));
      journal := journal.(
        unpaid := if deduct.None? then journal.unpaid else journal.unpaid + [trade],
        failedUnlocks := if unlock.None? then journal.failedUnlocks else journal.failedUnlocks + 1);
    }

    /** Fire what the price triggers, one stop order after the other. */
    method CheckStopOrdersAfterTrade(name: string, lastPrice: real, ghost ob: OrderBook)
      requires Ready(name, ob) && !panicked
      modifies this, balances, stopMgr, ob, ob.bids, ob.asks
      ensures Ready(name, ob) && orderBooks == old(orderBooks)
      ensures Slice(name, ob) == Swept(old(Slice(name, ob)), ListingOf(markets, name), lastPrice)
      ensures forall n :: n != name ==> stopMgr.Of(n) == old(stopMgr.Of(n))
      decreases |stopMgr.Of(name)|, 0
    {
      ghost var c := Slice(name, ob);
      HitAndMissedAreStops(stopMgr.Of(name), lastPrice);
      ghost var hit;
      var triggered;
      triggered, hit := stopMgr.CheckStopOrders(name, lastPrice);
      journal := journal.(fired := journal.fired + hit);
      if |triggered| == 0 { return; }
      FireTriggered(triggered, hit, ob, name);
    }

    /** Fire them one after the other. */
    method FireTriggered(triggered: seq<Order>, ghost hit: seq<StopOrder>, ghost ob: OrderBook, ghost name: string)
      requires Ready(name, ob) && |triggered| == |hit|
      requires forall i :: 0 <= i < |hit| ==> triggered[i] == hit[i].order && hit[i].order.market == name
      modifies this, balances, stopMgr, ob, ob.bids, ob.asks
      ensures Ready(name, ob) && orderBooks == old(orderBooks)
      ensures Slice(name, ob) == FireAll(old(Slice(name, ob)), ListingOf(markets, name), hit)
      ensures |stopMgr.Of(name)| <= |old(stopMgr.Of(name))|
      ensures forall n :: n != name ==> stopMgr.Of(n) == old(stopMgr.Of(n))
      decreases |stopMgr.Of(name)|, 6
    {
      ghost var c1, m := Slice(name, ob), ListingOf(markets, name);
      var i := 0;
      while i < |triggered| && !panicked
        invariant 0 <= i <= |triggered| == |hit|
        invariant Ready(name, ob) && orderBooks == old(orderBooks)
        invariant forall n :: n != name ==> stopMgr.Of(n) == old(stopMgr.Of(n))
        invariant |stopMgr.Of(name)| <= |c1.stops|
        invariant FireAll(c1, m, hit) == FireAll(Slice(name, ob), m, hit[i..])
        decreases |triggered| - i
      {
        FireOne(triggered[i], hit[i], ob, name);
        assert hit[i..][1..] == hit[i + 1..];
        i := i + 1;
      }
      assert FireAll(Slice(name, ob), m, hit[i..]) == Slice(name, ob);
    }

    /** A copy of a triggered stop order enters under a new ID. */
    method FireOne(stop: Order, ghost s: StopOrder, ghost ob: OrderBook, ghost name: string)
      requires Ready(name, ob) && stop.market == name && stop == s.order
      modifies this, balances, stopMgr, ob, ob.bids, ob.asks
      ensures Ready(name, ob) && orderBooks == old(orderBooks)
      ensures Slice(name, ob) == Fired(old(Slice(name, ob)), ListingOf(markets, name), s)
      ensures forall n :: n != name ==> stopMgr.Of(n) == old(stopMgr.Of(n))
      decreases |stopMgr.Of(name)|, 5
    {
      ghost var c := Slice(name, ob);
      var book := GetOrCreateOrderBook(stop.market);
      var o := Renew(stop, ob, name);
      FiredAs(c, Slice(name, ob), ListingOf(markets, name), s, o);
      var _ := MatchAndSettle(book, o, name);
    }

    /** The copy of a stop order takes a new ID and starts with its whole amount. */
    method Renew(stop: Order, ghost ob: OrderBook, ghost name: string) returns (o: Order)
      requires balances.Valid()
      modifies this`lastId, this`cells
      ensures o == stop.(id := old(lastId) + 1) && LeftOf(o) == o.amount
      ensures Slice(name, ob) == Entered(old(Slice(name, ob)).(nextId := o.id), o)
    {
      var id := NextID();
      o := stop.(id := id);
      cells := cells[o.id := Cell(o, o.amount, Pending)];
    }

    /** The taker loop, then rest or finish. */
    method MatchAndSettle(ob: OrderBook, incoming: Order, ghost name: string) returns (trades: seq<Trade>)
      requires Ready(name, ob) && incoming.market == name
      modifies this, balances, stopMgr, ob, ob.bids, ob.asks
      ensures Ready(name, ob) && orderBooks == old(orderBooks)
      ensures var r := TakerLoop(old(Slice(name, ob)), ListingOf(markets, name), incoming);
              Slice(name, ob) == Rested(r.core, incoming) && trades == r.trades
      ensures forall n :: n != name ==> stopMgr.Of(n) == old(stopMgr.Of(n))
      decreases |stopMgr.Of(name)|, 4
    {
      if incoming.side == Bid {
        trades := MatchAsTaker(incoming, ob.asks, ob, name);
      } else {
        trades := MatchAsTaker(incoming, ob.bids, ob, name);
      }
      RestOrFinish(ob, incoming, name);
    }

    /** An order rests only when it has traded and still has something left. */
    method RestOrFinish(ob: OrderBook, incoming: Order, ghost name: string)
      requires balances.Valid() && ob.Valid()
      modifies this`cells, ob, ob.bids, ob.asks
      ensures Slice(name, ob) == Rested(old(Slice(name, ob)), incoming)
    {
      if panicked { return; }
      if LeftOf(incoming) < incoming.amount && LeftOf(incoming) > 0.0 {
        SetStatus(incoming, Partial);
        if LeftOf(incoming) == incoming.amount { SetStatus(incoming, Pending); }
        ob.Add(incoming);
      } else {
        SetStatus(incoming, Finished);
      }
    }

    // ---------- public calls ----------

    lemma SliceIsAbs(name: string, ob: OrderBook)
      requires name in orderBooks && orderBooks[name] == ob
      ensures Slice(name, ob) == Abs().Slice(name)
    {
      stopMgr.OfView(name);
    }

    /** What a call on one market does to the whole engine. */
    twostate lemma AbsAfter(name: string, new ob: OrderBook)
      requires orderBooks == old(orderBooks)[name := ob]
      requires forall n :: n in old(orderBooks) && n != name ==> orderBooks[n].View() == old(orderBooks[n].View())
      requires forall n :: n != name ==> stopMgr.Of(n) == old(stopMgr.Of(n))
      ensures Abs() == old(Abs()).With(name, Slice(name, ob))
    {
      assert Abs().books == old(Abs()).books[name := ob.View()];
      ghost var was := old(stopMgr.View());
      forall n | n != name
        ensures stopMgr.Of(n) == if n in was then was[n] else []
      {
        assert old(stopMgr.Of(n)) == if n in was then was[n] else [];
      }
      stopMgr.ViewAfter(was, name);
    }

    /** What a check of the stop orders does to it. */
    twostate lemma AbsAfterCheck(name: string)
      requires orderBooks == old(orderBooks) && balances.ledger == old(balances.ledger)
      requires cells == old(cells) && orderTrades == old(orderTrades) && lastId == old(lastId)
          && panicked == old(panicked)
      requires forall n :: n in orderBooks ==> orderBooks[n].View() == old(orderBooks[n].View())
      requires forall n :: n != name ==> stopMgr.Of(n) == old(stopMgr.Of(n))
      ensures var x := old(Abs());
              Abs() == x.With(name, x.Slice(name).(stops := stopMgr.Of(name), journal := journal)).(books := x.books)
    {
      ghost var was := old(stopMgr.View());
      forall n | n != name
        ensures stopMgr.Of(n) == if n in was then was[n] else []
      {
        assert old(stopMgr.Of(n)) == if n in was then was[n] else [];
      }
      stopMgr.ViewAfter(was, name);
    }

    method ProcessOrder(incoming: Order) returns (response: Response)
      requires Valid()
      modifies this, balances, stopMgr, BookObjects()
      ensures Valid()
      ensures (Abs(), response) == Exchanges.ProcessOrder(old(Abs()), incoming)
    {
      ghost var x := Abs();
      if incoming.market !in markets {
        response := NoMarket;
      } else {
        var ob := GetOrCreateOrderBook(incoming.market);
        OnDemand(x, incoming);
        response := ProcessInBook(incoming, ob);
      }
    }

    /** The rest of `ProcessOrder`, once the market's book exists. */
    method ProcessInBook(incoming: Order, ob: OrderBook) returns (response: Response)
      requires Valid() && Ready(incoming.market, ob) && incoming.market in markets
      modifies this, balances, stopMgr, ob, ob.bids, ob.asks
      ensures Valid()
      ensures (Abs(), response) == Exchanges.ProcessOrder(old(Abs()), incoming)
      ensures orderBooks == old(orderBooks)
    {
      ghost var name := incoming.market;
      SliceIsAbs(name, ob);
      var _, reply := LockAndMatch(incoming, ob, name);
      AbsAfter(name, ob);
      response := Replied(reply);
    }

    /** Lock what the order may need, then match it. */
    method LockAndMatch(incoming: Order, ob: OrderBook, ghost name: string) returns (trades: seq<Trade>, reply: Reply)
      requires Ready(name, ob) && incoming.market == name && name in markets
      modifies this, balances, stopMgr, ob, ob.bids, ob.asks
      ensures Ready(name, ob) && orderBooks == old(orderBooks)
      ensures (Slice(name, ob), reply) == Place(old(Slice(name, ob)), markets[name], incoming)
      ensures reply == if reply.Rejected? then reply else Accepted(trades)
      ensures forall n :: n != name ==> stopMgr.Of(n) == old(stopMgr.Of(n))
    {
      ghost var c := Slice(name, ob);
      var market := markets[incoming.market];
      var error := Lock(incoming, market);
      if error.Some? { return [], Rejected(error.value); }
      cells := cells[incoming.id := Cell(incoming, incoming.amount, Pending)];
      assert Slice(name, ob) == Entered(c.(ledger := balances.ledger), incoming);
      trades := MatchAndSettle(ob, incoming, name);
      reply := Accepted(trades);
    }

    method Lock(incoming: Order, market: Market) returns (error: Option<Error>)
      requires balances.Valid()
      modifies balances
      ensures balances.Valid()
      ensures var r := Freeze(old(balances.ledger), LockAcct(market, incoming), Need(incoming, incoming.amount));
              error == ErrorOf(r) && balances.ledger == r.Else(old(balances.ledger))
    {
      if incoming.side == Bid {
        var cost := incoming.price * incoming.amount;
        assert cost == Need(incoming, incoming.amount);
        error := balances.Freeze(incoming.userId, market.money, cost);
      } else {
        error := balances.Freeze(incoming.userId, market.stock, incoming.amount);
      }
    }

    method Unlock(ord: Order, market: Market, remaining: real) returns (error: Option<Error>)
      requires balances.Valid()
      modifies balances
      ensures balances.Valid()
      ensures var r := Unfreeze(old(balances.ledger), LockAcct(market, ord), Need(ord, remaining));
              error == ErrorOf(r) && balances.ledger == r.Else(old(balances.ledger))
    {
      if ord.side == Bid {
        var cost := ord.price * remaining;
        assert cost == Need(ord, remaining);
        error := balances.Unfreeze(ord.userId, market.money, cost);
      } else {
        error := balances.Unfreeze(ord.userId, market.stock, remaining);
      }
    }

    method CancelOrder(orderId: nat, name: string)
      requires Valid()
      modifies this, balances, BookObjects()
      ensures Valid()
      ensures Abs() == Exchanges.CancelOrder(old(Abs()), orderId, name)
    {
      if name in orderBooks { CancelIn(orderId, orderBooks[name], name); }
    }

    method CancelIn(orderId: nat, ob: OrderBook, name: string)
      requires Valid() && name in orderBooks && orderBooks[name] == ob
      modifies this, balances, ob
      ensures Valid()
      ensures Abs() == Exchanges.CancelOrder(old(Abs()), orderId, name)
    {
      SliceIsAbs(name, ob);
      if name in markets {
        CancelListed(orderId, ob, name, markets[name]);
      } else {
        CancelUnlisted(orderId, ob, name);
        AbsAfter(name, ob);
      }
    }

    method CancelListed(orderId: nat, ob: OrderBook, ghost name: string, market: Market)
      requires Valid() && name in orderBooks && orderBooks[name] == ob
      modifies this, balances, ob
      ensures Valid()
      ensures Abs() == old(Abs()).With(name, Cancel(old(Slice(name, ob)), market, orderId))
    {
      CancelInBook(orderId, ob, name, market);
      AbsAfter(name, ob);
    }

    /** Without a market configuration the order leaves the map and nothing is unlocked. */
    method CancelUnlisted(orderId: nat, ob: OrderBook, ghost name: string)
      modifies ob
      ensures var c := old(Slice(name, ob));
              Slice(name, ob) == if orderId in c.book.live
                                    && (|| c.Status(c.book.live[orderId]) == Pending
                                        || c.Status(c.book.live[orderId]) == Partial)
                                 then c.(book := c.book.(live := c.book.live - {orderId})) else c
    {
      if orderId !in ob.orders { return; }
      var ord := ob.orders[orderId];
      var status := if ord.id in cells then cells[ord.id].status else Pending;
      if status != Pending && status != Partial { return; }
      ob.Remove(orderId);
    }

    /** Take the order out of the map and give back what it still had locked. It stays in
        its heap. */
    method CancelInBook(orderId: nat, ob: OrderBook, ghost name: string, market: Market)
      requires balances.Valid() && ob.Valid()
      modifies this`cells, this`journal, balances, ob
      ensures balances.Valid()
      ensures Slice(name, ob) == Cancel(old(Slice(name, ob)), market, orderId)
    {
      if orderId !in ob.orders { return; }
      var ord := ob.orders[orderId];
      var status := if ord.id in cells then cells[ord.id].status else Pending;
      if status != Pending && status != Partial { return; }
      ob.Remove(orderId);
      var error := Unlock(ord, market, LeftOf(ord));
      if error.Some? { journal := journal.(failedUnlocks := journal.failedUnlocks + 1); }
      SetStatus(ord, Canceled);
    }

    method AddStopOrder(o: Order, triggerPrice: real)
      requires Valid()
      modifies stopMgr
      ensures Valid()
      ensures var x := old(Abs());
              Abs() == x.(stops := x.stops[o.market := x.StopsOf(o.market) + [StopOrder(o, triggerPrice, false)]])
    {
      stopMgr.OfView(o.market);
      stopMgr.AddStopOrder(o, triggerPrice);
    }

    method CancelStopOrder(name: string, orderId: nat) returns (found: bool)
      requires Valid() && !panicked
      modifies stopMgr
      ensures Valid()
      ensures Abs() == Step(old(Abs()), CancelStop(name, orderId))
      ensures found <==> exists s :: s in old(stopMgr.Of(name)) && s.order.id == orderId
    {
      stopMgr.OfView(name);
      WithoutStopIsPart(stopMgr.Of(name), orderId);
      found := stopMgr.RemoveStopOrder(name, orderId);
    }

    /** What the periodic sweep runs for a market at its last price. */
    method ProcessTriggeredStopOrders(name: string, lastPrice: real)
      requires Valid() && !panicked
      modifies this, balances, stopMgr, BookObjects()
      ensures Valid()
      ensures Abs() == SweepMarket(old(Abs()), name, lastPrice)
    {
      ghost var x := Abs();
      var triggered, hit := TakeTriggered(name, lastPrice);
      SweepInSteps(x, name, lastPrice);
      if |triggered| == 0 { return; }
      FireFor(name, triggered, hit);
    }

    /** The check: what the price triggers is off the list. */
    method TakeTriggered(name: string, lastPrice: real) returns (triggered: seq<Order>, ghost hit: seq<StopOrder>)
      requires Valid()
      modifies this`journal, stopMgr
      ensures Valid() && hit == Hit(old(Abs()).StopsOf(name), lastPrice) && |triggered| == |hit|
      ensures forall i :: 0 <= i < |hit| ==> triggered[i] == hit[i].order && hit[i].order.market == name
      ensures Abs() == Checked(old(Abs()), name, lastPrice)
    {
      stopMgr.OfView(name);
      HitAndMissedAreStops(stopMgr.Of(name), lastPrice);
      triggered, hit := stopMgr.CheckStopOrders(name, lastPrice);
      journal := journal.(fired := journal.fired + hit);
      AbsAfterCheck(name);
    }

    /** The loop over what was triggered; the book is created when the first one fires. */
    method FireFor(name: string, triggered: seq<Order>, ghost hit: seq<StopOrder>)
      requires Valid() && |triggered| == |hit| > 0
      requires forall i :: 0 <= i < |hit| ==> triggered[i] == hit[i].order && hit[i].order.market == name
      modifies this, balances, stopMgr, BookObjects()
      ensures Valid()
      ensures Abs() == old(Abs()).With(name, FireAll(old(Abs()).Slice(name), ListingOf(markets, name), hit))
    {
      ghost var x := Abs();
      var ob := GetOrCreateOrderBook(name);
      BookAtHand(x, name);
      SliceIsAbs(name, ob);
      FireIn(name, triggered, hit, ob);
    }

    method FireIn(name: string, triggered: seq<Order>, ghost hit: seq<StopOrder>, ghost ob: OrderBook)
      requires Valid() && Ready(name, ob) && |triggered| == |hit|
      requires forall i :: 0 <= i < |hit| ==> triggered[i] == hit[i].order && hit[i].order.market == name
      modifies this, balances, stopMgr, ob, ob.bids, ob.asks
      ensures Valid()
      ensures Abs() == old(Abs()).With(name, FireAll(old(Slice(name, ob)), ListingOf(markets, name), hit))
    {
      FireTriggered(triggered, hit, ob, name);
      AbsAfter(name, ob);
    }
  }

  lemma BookAtHand(x: Exchange, name: string)
    ensures var x1 := x.(books := x.books[name := x.BookOf(name)]);
            x1.Slice(name) == x.Slice(name) && forall c: Core :: x1.With(name, c) == x.With(name, c)
  {
    var x1 := x.(books := x.books[name := x.BookOf(name)]);
    forall c: Core ensures x1.With(name, c) == x.With(name, c) {
      assert x1.books[name := c.book] == x.books[name := c.book];
    }
  }

  /** The engine once the eligible stop orders are off the list. */
  function Checked(x: Exchange, name: string, lastPrice: real): Exchange {
    x.With(name, SweptStart(x.Slice(name), lastPrice)).(books := x.books)
  }

  lemma SweepInSteps(x: Exchange, name: string, lastPrice: real)
    ensures var x1, hit := Checked(x, name, lastPrice), Hit(x.StopsOf(name), lastPrice);
            SweepMarket(x, name, lastPrice)
            == if hit == [] then x1 else x1.With(name, FireAll(x1.Slice(name), ListingOf(x.markets, name), hit))
  {
    var c, c1, m := x.Slice(name), SweptStart(x.Slice(name), lastPrice), ListingOf(x.markets, name);
    assert x.journal.fired + [] == x.journal.fired;
    CheckedThenCall(x, name, c1, FireAll(c1, m, Hit(c.stops, lastPrice)));
  }

  lemma CheckedThenCall(x: Exchange, name: string, c: Core, d: Core)
    requires c.book == x.BookOf(name)
    ensures var x1 := x.With(name, c).(books := x.books); x1.Slice(name) == c && x1.With(name, d) == x.With(name, d)
  {
  }

  /** Where a sweep stands once the eligible stop orders are off the list. */
  function SweptStart(c: Core, lastPrice: real): Core {
    c.(stops := Missed(c.stops, lastPrice), journal := c.journal.(fired := c.journal.fired + Hit(c.stops, lastPrice)))
  }

  /** Creating the book first changes nothing. */
  lemma OnDemand(x: Exchange, o: Order)
    ensures o.market in x.markets ==>
              Exchanges.ProcessOrder(x.(books := x.books[o.market := x.BookOf(o.market)]), o)
                == Exchanges.ProcessOrder(x, o)
  {
    BookAtHand(x, o.market);
  }

  lemma RecordedAs(m: map<nat, seq<Trade>>, after: map<nat, seq<Trade>>, t: Trade)
    requires after.Keys == m.Keys + {t.takerOrderId, t.makerOrderId}
    requires forall id :: TradesOf(after, id) == TradesOf(m, id) + (if id == t.takerOrderId then [t] else [])
                                                                + (if id == t.makerOrderId then [t] else [])
    ensures var m1 := m[t.takerOrderId := TradesOf(m, t.takerOrderId) + [t]];
            after == m1[t.makerOrderId := TradesOf(m1, t.makerOrderId) + [t]]
  {
    var m1 := m[t.takerOrderId := TradesOf(m, t.takerOrderId) + [t]];
    var m2 := m1[t.makerOrderId := TradesOf(m1, t.makerOrderId) + [t]];
    forall id | id in after ensures after[id] == m2[id] { assert TradesOf(after, id) == after[id]; }
  }

  lemma FiredAs(c: Core, c1: Core, m: Listing, s: StopOrder, o: Order)
    requires o == s.order.(id := c.nextId + 1) && c1 == Entered(c.(nextId := o.id), o)
    ensures Fired(c, m, s) == Rested(TakerLoop(c1, m, o).core, o)
  {
  }

  /** The loop that began at `c0` has made `trades` and stands at `c`. */
  ghost predicate Continues(c0: Core, c: Core, m: Listing, o: Order, trades: seq<Trade>) {
    var r := TakerLoop(c, m, o);
    TakerLoop(c0, m, o) == Taken(r.core, trades + r.trades)
  }

  lemma LoopStart(c: Core, m: Listing, o: Order)
    ensures Continues(c, c, m, o, [])
  {
    var r := TakerLoop(c, m, o);
    assert [] + r.trades == r.trades;
  }

  lemma LoopStep(c0: Core, c: Core, m: Listing, o: Order, t: Trade, trades: seq<Trade>)
    requires Continues(c0, c, m, o, trades) && CanTrade(c, o) && t == NextTrade(c, o, c.Makers(o)[0])
    ensures Continues(c0, Iterated(c, m, o), m, o, trades + [t])
  {
    var r, r' := TakerLoop(c, m, o), TakerLoop(Iterated(c, m, o), m, o);
    assert r.core == r'.core && r.trades == [t] + r'.trades;
    assert trades + ([t] + r'.trades) == (trades + [t]) + r'.trades;
  }

  lemma LoopEnd(c0: Core, c: Core, m: Listing, o: Order, trades: seq<Trade>)
    requires Continues(c0, c, m, o, trades) && !CanTrade(c, o)
    ensures TakerLoop(c0, m, o) == Taken(c, trades)
  {
    assert trades + [] == trades;
  }
}
