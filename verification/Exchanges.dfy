/** The engine over all its markets, its public calls as steps, and runs of them. */
module Exchanges {
  import opened Orders
  import opened Ledgers
  import opened Matching

  datatype Exchange = Exchange(
    markets: Markets,
    books: map<string, Book>, stops: map<string, seq<StopOrder>>,
    table: map<nat, Cell>, ledger: Ledger, trades: map<nat, seq<Trade>>, nextId: nat,
    halted: bool, journal: Journal)
  {
    function BookOf(name: string): Book { if name in books then books[name] else EMPTY_BOOK }

    function StopsOf(name: string): seq<StopOrder> { if name in stops then stops[name] else [] }

    /** What a call on one market sees. */
    function Slice(name: string): Core {
      Core(BookOf(name), StopsOf(name), table, ledger, trades, nextId, halted, journal)
    }

    /** The engine after a call on one market. A market without stop orders has no entry. */
    function With(name: string, c: Core): Exchange {
      Exchange(markets, books[name := c.book],
               if c.stops == [] then stops - {name} else stops[name := c.stops],
               c.table, c.ledger, c.trades, c.nextId, c.halted, c.journal)
    }
  }

  datatype Op =
    | PlaceLimit(userId: nat, market: string, side: Side, price: real, amount: real)
    | CancelLimit(id: nat, market: string)
    | AddStop(userId: nat, market: string, side: Side, price: real, amount: real, triggerPrice: real)
    | CancelStop(market: string, id: nat)
    | SweepStops(market: string, lastPrice: real)
    | Deposit(userId: nat, asset: string, amount: real)
    | Withdraw(userId: nat, asset: string, amount: real)

  datatype Response = Replied(reply: Reply) | NoMarket

  /** `ProcessOrder`: the market must be configured; its book is created on demand, even
      when the lock is then refused. */
  function ProcessOrder(x: Exchange, o: Order): (Exchange, Response) {
    if o.market !in x.markets then (x, NoMarket)
    else
      var (c, reply) := Place(x.Slice(o.market), x.markets[o.market], o);
      (x.With(o.market, c), Replied(reply))
  }

  /** An order handler takes an ID for the order, then places it. */
  function PlaceNew(x: Exchange, o: Order): Exchange { ProcessOrder(x.(nextId := o.id), o).0 }

  /** `CancelOrder`: silent on anything it does not find. */
  function CancelOrder(x: Exchange, id: nat, name: string): Exchange {
    if name !in x.books then x
    else if name in x.markets then x.With(name, Cancel(x.Slice(name), x.markets[name], id))
    else
      var b := x.books[name];
      if id in b.live && (x.Slice(name).Status(b.live[id]) == Pending || x.Slice(name).Status(b.live[id]) == Partial)
      then x.(books := x.books[name := b.(live := b.live - {id})])
      else x
  }

  function StopOf(op: Op): StopOrder
    requires op.AddStop?
  {
    StopOrder(Order(0, op.userId, op.market, op.side, op.price, op.amount), op.triggerPrice, false)
  }

  /** The list without its first stop order that carries `id`. */
  function WithoutStop(stops: seq<StopOrder>, id: nat): seq<StopOrder> {
    if stops == [] then []
    else if stops[0].order.id == id then stops[1..]
    else [stops[0]] + WithoutStop(stops[1..], id)
  }

  /** `ProcessTriggeredStopOrders`. It creates the book only when a stop order fires. */
  function SweepMarket(x: Exchange, name: string, lastPrice: real): Exchange {
    if Hit(x.StopsOf(name), lastPrice) == []
    then x.With(name, x.Slice(name).(stops := Missed(x.StopsOf(name), lastPrice))).(books := x.books)
    else x.With(name, Swept(x.Slice(name), ListingOf(x.markets, name), lastPrice))
  }

  /** One public call. After a panic nothing runs. */
  function Step(x: Exchange, op: Op): Exchange {
    if x.halted then x
    else match op
      case PlaceLimit(userId, market, side, price, amount) =>
        PlaceNew(x, Order(x.nextId + 1, userId, market, side, price, amount))
      case CancelLimit(id, market) => CancelOrder(x, id, market)
      case AddStop(_, market, _, _, _, _) =>
        x.(stops := x.stops[market := x.StopsOf(market) + [StopOf(op)]])
      case CancelStop(market, id) =>
        x.With(market, x.Slice(market).(stops := WithoutStop(x.StopsOf(market), id))).(books := x.books)
      case SweepStops(market, lastPrice) => SweepMarket(x, market, lastPrice)
      case Deposit(userId, asset, amount) => x.(ledger := Add(x.ledger, Acct(userId, asset), amount))
      case Withdraw(userId, asset, amount) => x.(ledger := Sub(x.ledger, Acct(userId, asset), amount).Else(x.ledger))
  }

  function Run(x: Exchange, ops: seq<Op>): Exchange
    decreases |ops|
  {
    if ops == [] then x else Run(Step(x, ops[0]), ops[1..])
  }

  /** The handlers of limit orders refuse a price or an amount that is not positive; the
      handler of stop orders checks the sign of neither. */
  predicate Admitted(op: Op) { op.PlaceLimit? ==> op.price > 0.0 && op.amount > 0.0 }

  predicate AllAdmitted(ops: seq<Op>) { forall op :: op in ops ==> Admitted(op) }

  predicate NoStops(ops: seq<Op>) { forall op :: op in ops ==> !op.AddStop? }

  function Started(markets: Markets): Exchange {
    Exchange(markets, map[], map[], map[], map[], map[], 0, false, Journal([], [], 0, []))
  }
}
