/** The matching engine as a function on values, for one market.

    `Core` is what one engine call can see of the engine: the market's book and stop
    list, and the shared cells, balances, trade lists and ID counter. The journal holds
    what the engine sends out or drops on the way and never reads back. */
module Matching {
  import opened Orders
  import opened PriceQueues
  import opened Ledgers

  datatype Book = Book(bids: seq<Order>, asks: seq<Order>, live: map<nat, Order>) {
    /** The queue in which orders of `side` rest. */
    function Queue(side: Side): seq<Order> { if side.Ask? then asks else bids }

    function WithQueue(side: Side, q: seq<Order>): Book {
      if side.Ask? then this.(asks := q) else this.(bids := q)
    }

    predicate Queued(o: Order) { o in bids || o in asks }
  }

  const EMPTY_BOOK := Book([], [], map[])

  /** `deals`: every trade, in the order it is published. `unpaid`: the trades whose
      deduction was refused. `failedUnlocks`: refused unlocks. `fired`: stop orders taken
      off the list. */
  datatype Journal = Journal(deals: seq<Trade>, unpaid: seq<Trade>, failedUnlocks: nat, fired: seq<StopOrder>)

  datatype Core = Core(
    book: Book, stops: seq<StopOrder>,
    table: map<nat, Cell>, ledger: Ledger, trades: map<nat, seq<Trade>>, nextId: nat,
    halted: bool, journal: Journal)
  {
    function Left(o: Order): real { LeftIn(table, o) }

    function Status(o: Order): Status { if o.id in table then table[o.id].status else Pending }

    function WithLeft(o: Order, x: real): Core {
      this.(table := table[o.id := Cell(o, x, Status(o))])
    }

    function WithStatus(o: Order, s: Status): Core {
      this.(table := table[o.id := Cell(o, Left(o), s)])
    }

    function Makers(o: Order): seq<Order> { book.Queue(o.side.Opposite()) }
  }

  function LeftIn(table: map<nat, Cell>, o: Order): real { if o.id in table then table[o.id].left else 0.0 }

  function TradesOf(m: map<nat, seq<Trade>>, id: nat): seq<Trade> { if id in m then m[id] else [] }

  // ---------- one trade ----------

  /** The limit price excludes this maker. */
  predicate OutOfReach(o: Order, maker: Order) {
    if o.side.Bid? then maker.price > o.price else maker.price < o.price
  }

  predicate CanTrade(c: Core, o: Order) {
    !c.halted && c.Makers(o) != [] && c.Left(o) > 0.0 && !OutOfReach(o, c.Makers(o)[0])
  }

  function NextTrade(c: Core, o: Order, maker: Order): Trade {
    var amount := Min(c.Left(o), c.Left(maker));
    Trade(c.nextId + 1, o.id, maker.id, o.userId, maker.userId, o.market, o.side,
          maker.price, amount, amount * FEE_RATE, amount * FEE_RATE)
  }

  /** Both orders shrink by the traded amount. */
  function Filled(c: Core, o: Order, maker: Order, t: Trade): Core {
    var c1 := c.(nextId := t.id).WithLeft(o, c.Left(o) - t.amount);
    c1.WithLeft(maker, c1.Left(maker) - t.amount)
  }

  /** `AddTradeToOrder`, and the deal event. */
  function Recorded(c: Core, t: Trade): Core {
    var m1 := c.trades[t.takerOrderId := TradesOf(c.trades, t.takerOrderId) + [t]];
    var m2 := m1[t.makerOrderId := TradesOf(m1, t.makerOrderId) + [t]];
    c.(trades := m2, journal := c.journal.(deals := c.journal.deals + [t]))
  }

  /** The one asset a trade moves. */
  function SettledAsset(m: Market, side: Side): string { if side.Bid? then m.money else m.stock }

  function Cost(t: Trade): real { if t.side.Bid? then t.price * t.amount else t.amount }

  /** Deduct from the taker, add to the maker less the fee, unlock for the taker. */
  function Paid(c: Core, m: Market, t: Trade): Core {
    var asset, cost := SettledAsset(m, t.side), Cost(t);
    var taker, maker := Acct(t.takerUserId, asset), Acct(t.makerUserId, asset);
    var deduct := Sub(c.ledger, taker, cost);
    var l1 := Add(deduct.Else(c.ledger), maker, cost - t.makerFee);
    var unlock := Unfreeze(l1, taker, cost);
    c.(ledger := unlock.Else(l1),
       journal := c.journal.(
         unpaid := if deduct.Done? then c.journal.unpaid else c.journal.unpaid + [t],
         failedUnlocks := if unlock.Done? then c.journal.failedUnlocks else c.journal.failedUnlocks + 1))
  }

  /** One trade with the root maker, up to the stop check. */
  function Traded(c: Core, m: Market, o: Order): Core
    requires c.Makers(o) != []
  {
    var maker := c.Makers(o)[0];
    var t := NextTrade(c, o, maker);
    Paid(Recorded(Filled(c, o, maker, t), t), m, t)
  }

  /** `heap.Pop` on the queue of `side`, which panics when a nested sweep emptied it,
      then the removal of `maker` from the map. */
  function PopMaker(c: Core, side: Side, maker: Order): Core {
    var q := c.book.Queue(side);
    if q == [] then c.(halted := true)
    else c.(book := c.book.WithQueue(side, Popped(q)).(live := c.book.live - {maker.id}))
  }

  function PopIfDone(c: Core, side: Side, maker: Order): Core {
    if c.Left(maker) <= 0.0 then PopMaker(c, side, maker) else c
  }

  // ---------- stop orders ----------

  predicate Eligible(s: StopOrder, price: real) {
    if s.order.side.Bid? then price <= s.triggerPrice else price >= s.triggerPrice
  }

  function Hit(stops: seq<StopOrder>, price: real): (r: seq<StopOrder>)
    ensures |r| <= |stops|
  {
    if stops == [] then []
    else (if !stops[0].triggered && Eligible(stops[0], price) then [stops[0]] else []) + Hit(stops[1..], price)
  }

  function Missed(stops: seq<StopOrder>, price: real): (r: seq<StopOrder>)
    ensures |r| + |Hit(stops, price)| <= |stops|
  {
    if stops == [] then []
    else (if !stops[0].triggered && !Eligible(stops[0], price) then [stops[0]] else []) + Missed(stops[1..], price)
  }

  // ---------- the taker loop ----------

  datatype Taken = Taken(core: Core, trades: seq<Trade>)

  /** `matchAsTaker`. The measure: stop orders left, then makers queued, then whether the
      taker still wants anything. */
  function TakerLoop(c: Core, m: Listing, o: Order): (r: Taken)
    ensures |r.core.stops| <= |c.stops|
    decreases |c.stops|, 2, |c.Makers(o)|, if c.Left(o) > 0.0 then 1 else 0
  {
    if !CanTrade(c, o) then Taken(c, [])
    else
      var rest := TakerLoop(Iterated(c, m, o), m, o);
      Taken(rest.core, [NextTrade(c, o, c.Makers(o)[0])] + rest.trades)
  }

  /** One turn of the loop: trade, sweep the stops, pop the maker when it is done. Where the
      market is not configured, `settleTrade` returns at once: the orders shrink, and the trade is
      neither recorded nor paid nor answered by a sweep. */
  function Iterated(c: Core, m: Listing, o: Order): (r: Core)
    requires CanTrade(c, o)
    ensures || |r.stops| < |c.stops|
            || (|r.stops| == |c.stops| && |r.Makers(o)| < |c.Makers(o)|)
            || (|r.stops| == |c.stops| && |r.Makers(o)| == |c.Makers(o)| && r.Left(o) <= 0.0)
    decreases |c.stops|, 1, 0, 0
  {
    var maker := c.Makers(o)[0];
    var c1 := if m.Unlisted? then Filled(c, o, maker, NextTrade(c, o, maker))
              else Swept(Traded(c, m, o), m, maker.price);
    PopShrinks(c1.book.Queue(o.side.Opposite()));
    if c1.halted then c1 else PopIfDone(c1, o.side.Opposite(), maker)
  }

  /** `checkStopOrdersAfterTrade`. */
  function Swept(c: Core, m: Listing, price: real): (r: Core)
    ensures |r.stops| <= |c.stops|
    ensures |r.stops| == |c.stops| ==> r.book == c.book && r.table == c.table
    decreases |c.stops|, 0, 0, 0
  {
    var hit := Hit(c.stops, price);
    var c1 := c.(stops := Missed(c.stops, price), journal := c.journal.(fired := c.journal.fired + hit));
    if hit == [] then c1 else FireAll(c1, m, hit)
  }

  function FireAll(c: Core, m: Listing, hit: seq<StopOrder>): (r: Core)
    ensures |r.stops| <= |c.stops|
    decreases |c.stops|, 4, |hit|, 0
  {
    if hit == [] || c.halted then c else FireAll(Fired(c, m, hit[0]), m, hit[1..])
  }

  /** A triggered stop order enters under a fresh ID, with no balance locked. */
  function Fired(c: Core, m: Listing, s: StopOrder): (r: Core)
    ensures |r.stops| <= |c.stops|
    decreases |c.stops|, 3, 0, 0
  {
    var o := s.order.(id := c.nextId + 1);
    Rested(TakerLoop(Entered(c.(nextId := o.id), o), m, o).core, o)
  }

  lemma PopShrinks(q: seq<Order>)
    ensures q != [] ==> |Popped(q)| == |q| - 1
  {
    if q != [] { PopContents(q); }
  }

  /** The cell of an order that enters with `Left = Amount`. */
  function Entered(c: Core, o: Order): Core {
    c.(table := c.table[o.id := Cell(o, o.amount, Pending)])
  }

  function AddedToBook(c: Core, o: Order): Core {
    c.(book := c.book.WithQueue(o.side, Pushed(c.book.Queue(o.side), o)).(live := c.book.live[o.id := o]))
  }

  /** What follows the loop: an order rests only when it traded and something is left. */
  function Rested(c: Core, o: Order): Core {
    if c.halted then c
    else if 0.0 < c.Left(o) < o.amount then AddedToBook(c.WithStatus(o, Partial), o)
    else c.WithStatus(o, Finished)
  }

  // ---------- calls ----------

  function LockAcct(m: Market, o: Order): Acct { Acct(o.userId, SettledAsset(m, o.side)) }

  /** What an order needs frozen while `left` of it is open. */
  function Need(o: Order, left: real): real { if o.side.Bid? then o.price * left else left }

  datatype Reply = Accepted(trades: seq<Trade>) | Rejected(error: Error)

  /** `ProcessOrder` once the market and its book are at hand. */
  function Place(c: Core, m: Market, o: Order): (Core, Reply) {
    match Freeze(c.ledger, LockAcct(m, o), Need(o, o.amount))
    case Refused(e) => (c, Rejected(e))
    case Done(l) =>
      var r := TakerLoop(Entered(c.(ledger := l), o), m, o);
      (Rested(r.core, o), Accepted(r.trades))
  }

  /** `CancelOrder` once the book is at hand. */
  function Cancel(c: Core, m: Market, id: nat): Core {
    if id !in c.book.live then c
    else
      var o := c.book.live[id];
      if c.Status(o) != Pending && c.Status(o) != Partial then c
      else
        var c1 := c.(book := c.book.(live := c.book.live - {id}));
        var unlock := Unfreeze(c1.ledger, LockAcct(m, o), Need(o, c1.Left(o)));
        c1.(ledger := unlock.Else(c1.ledger),
            journal := c1.journal.(
              failedUnlocks := if unlock.Done? then c1.journal.failedUnlocks else c1.journal.failedUnlocks + 1))
          .WithStatus(o, Canceled)
  }
}
