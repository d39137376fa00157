/** The ID counter over runs: each trade takes a new ID, and on an engine whose counter starts
    at 0 beside loaded orders, when an ID is drawn that one of them already has. */
module Counters {
  import opened Orders
  import opened Ledgers
  import opened Matching
  import opened FillLedger
  import opened UnlistedTrades
  import opened Exchanges
  import opened Snapshots
  import opened Loads

  /** The counter, and the deals so far. */
  datatype Mark = Mark(next: nat, deals: seq<Trade>)

  ghost function MarkOf(c: Core): Mark { Mark(c.nextId, c.journal.deals) }

  ghost function MarkIn(x: Exchange): Mark { Mark(x.nextId, x.journal.deals) }

  /** `b` lies after `a`: the counter moved on, and each deal in between carries an ID drawn in
      between, larger than that of the deal before. */
  ghost predicate Later(a: Mark, b: Mark) {
    && a.next <= b.next && a.deals <= b.deals
    && (forall i :: |a.deals| <= i < |b.deals| ==> a.next < b.deals[i].id <= b.next)
    && (forall i, j :: |a.deals| <= i < j < |b.deals| ==> b.deals[i].id < b.deals[j].id)
  }

  lemma LaterTrans(a: Mark, b: Mark, c: Mark)
    requires Later(a, b) && Later(b, c)
    ensures Later(a, c)
  {
    forall i | |a.deals| <= i < |b.deals| ensures c.deals[i] == b.deals[i] {}
  }

  ghost predicate Drew(c: Core, c': Core) { Later(MarkOf(c), MarkOf(c')) }

  ghost predicate RunDrew(x: Exchange, x': Exchange) { Later(MarkIn(x), MarkIn(x')) }

  lemma DrewTrans(a: Core, b: Core, c: Core)
    requires Drew(a, b) && Drew(b, c)
    ensures Drew(a, c)
  {
    LaterTrans(MarkOf(a), MarkOf(b), MarkOf(c));
  }

  lemma {:induction false} LoopDraws(c: Core, m: Market, o: Order)
    ensures Drew(c, TakerLoop(c, m, o).core)
    decreases |c.stops|, 2, |c.Makers(o)|, if c.Left(o) > 0.0 then 1 else 0
  {
    if CanTrade(c, o) {
      IteratedDraws(c, m, o);
      LoopDraws(Iterated(c, m, o), m, o);
      DrewTrans(c, Iterated(c, m, o), TakerLoop(c, m, o).core);
    }
  }

  lemma TradedDraws(c: Core, m: Market, o: Order)
    requires c.Makers(o) != []
    ensures Drew(c, Traded(c, m, o)) && Traded(c, m, o).stops == c.stops
  {
  }

  lemma {:induction false} IteratedDraws(c: Core, m: Market, o: Order)
    requires CanTrade(c, o)
    ensures Drew(c, Iterated(c, m, o))
    decreases |c.stops|, 1, 0, 0
  {
    var c0, maker := Traded(c, m, o), c.Makers(o)[0];
    TradedDraws(c, m, o);
    SweptDraws(c0, m, maker.price);
    DrewTrans(c, c0, Swept(c0, m, maker.price));
    PoppedFunds(Swept(c0, m, maker.price), o.side.Opposite(), maker);
  }

  lemma {:induction false} SweptDraws(c: Core, m: Market, price: real)
    ensures Drew(c, Swept(c, m, price))
    decreases |c.stops|, 0, 0, 0
  {
    var hit := Hit(c.stops, price);
    var c1 := c.(stops := Missed(c.stops, price), journal := c.journal.(fired := c.journal.fired + hit));
    if hit != [] { FireAllDraws(c1, m, hit); }
  }

  lemma {:induction false} FireAllDraws(c: Core, m: Market, hit: seq<StopOrder>)
    ensures Drew(c, FireAll(c, m, hit))
    decreases |c.stops|, 4, |hit|, 0
  {
    if hit == [] || c.halted {
    } else {
      FiredDraws(c, m, hit[0]);
      FireAllDraws(Fired(c, m, hit[0]), m, hit[1..]);
      DrewTrans(c, Fired(c, m, hit[0]), FireAll(c, m, hit));
    }
  }

  lemma {:induction false} FiredDraws(c: Core, m: Market, s: StopOrder)
    ensures Drew(c, Fired(c, m, s)) && c.nextId < Fired(c, m, s).nextId
    decreases |c.stops|, 3, 0, 0
  {
    var o := s.order.(id := c.nextId + 1);
    var c1 := Entered(c.(nextId := o.id), o);
    LoopDraws(c1, m, o);
    RestedFunds(TakerLoop(c1, m, o).core, o);
  }

  lemma PlaceDraws(c: Core, m: Market, o: Order)
    ensures Drew(c, Place(c, m, o).0)
  {
    match Freeze(c.ledger, LockAcct(m, o), Need(o, o.amount))
    case Refused(_) =>
    case Done(l) =>
      var c1 := Entered(c.(ledger := l), o);
      LoopDraws(c1, m, o);
      RestedFunds(TakerLoop(c1, m, o).core, o);
  }

  // ---------- runs ----------

  lemma CallDraws(x: Exchange, name: string, c: Core)
    requires Drew(x.Slice(name), c)
    ensures RunDrew(x, x.With(name, c))
  {
  }

  lemma PlaceNewDraws(x: Exchange, o: Order)
    requires o.id == x.nextId + 1
    ensures RunDrew(x, PlaceNew(x, o)) && o.id <= PlaceNew(x, o).nextId
  {
    var x1 := x.(nextId := o.id);
    if o.market in x.markets {
      var c := Place(x1.Slice(o.market), x.markets[o.market], o).0;
      PlaceDraws(x1.Slice(o.market), x.markets[o.market], o);
      CallDraws(x1, o.market, c);
      LaterTrans(MarkIn(x), MarkIn(x1), MarkIn(x1.With(o.market, c)));
    }
  }

  lemma SweepDraws(x: Exchange, name: string, lastPrice: real)
    ensures RunDrew(x, SweepMarket(x, name, lastPrice))
  {
    if Hit(x.StopsOf(name), lastPrice) != [] {
      if name in x.markets { SweptDraws(x.Slice(name), x.markets[name], lastPrice); }
      else { SilentSweep(x.Slice(name), lastPrice); }
      CallDraws(x, name, Swept(x.Slice(name), ListingOf(x.markets, name), lastPrice));
    }
  }

  lemma CancelDraws(x: Exchange, id: nat, name: string)
    ensures RunDrew(x, CancelOrder(x, id, name))
  {
    if name in x.books && name in x.markets { CancelCounts(x.Slice(name), x.markets[name], id); }
  }

  lemma CancelCounts(c: Core, m: Market, id: nat)
    ensures Cancel(c, m, id).nextId == c.nextId && Cancel(c, m, id).journal.deals == c.journal.deals
  {
  }

  lemma StepDraws(x: Exchange, op: Op)
    ensures RunDrew(x, Step(x, op))
  {
    var x' := Step(x, op);
    if x.halted {
      assert x' == x;
    } else if op.PlaceLimit? {
      var o := Order(x.nextId + 1, op.userId, op.market, op.side, op.price, op.amount);
      assert x' == PlaceNew(x, o);
      PlaceNewDraws(x, o);
    } else if op.SweepStops? {
      assert x' == SweepMarket(x, op.market, op.lastPrice);
      SweepDraws(x, op.market, op.lastPrice);
    } else if op.CancelLimit? {
      assert x' == CancelOrder(x, op.id, op.market);
      CancelDraws(x, op.id, op.market);
    }
  }

  /** Over every run the counter never goes back and no two trades get the same ID. */
  lemma {:induction false} RunDraws(x: Exchange, ops: seq<Op>)
    ensures RunDrew(x, Run(x, ops))
    decreases |ops|
  {
    if ops != [] {
      StepDraws(x, ops[0]);
      RunDraws(Step(x, ops[0]), ops[1..]);
      LaterTrans(MarkIn(x), MarkIn(Step(x, ops[0])), MarkIn(Run(x, ops)));
    }
  }

  // ---------- a counter that starts at 0 beside loaded orders ----------

  /** Some call of the run draws `id` from the counter, for an order or for a trade. */
  ghost predicate Draws(x: Exchange, ops: seq<Op>, id: nat)
    decreases |ops|
  {
    ops != [] && (x.nextId < id <= Step(x, ops[0]).nextId || Draws(Step(x, ops[0]), ops[1..], id))
  }

  /** It draws one of `ids`. */
  ghost predicate Redraws(x: Exchange, ops: seq<Op>, ids: set<nat>) { exists id :: id in ids && Draws(x, ops, id) }

  lemma {:induction false} DrawsIff(x: Exchange, ops: seq<Op>, id: nat)
    ensures Draws(x, ops, id) <==> x.nextId < id <= Run(x, ops).nextId
    decreases |ops|
  {
    if ops != [] {
      StepDraws(x, ops[0]);
      RunDraws(Step(x, ops[0]), ops[1..]);
      DrawsIff(Step(x, ops[0]), ops[1..], id);
    }
  }

  // A run that does nothing but draw: limit orders for a market that is not configured.

  lemma {:induction false} LongestName(names: set<string>) returns (n: nat)
    ensures forall name :: name in names ==> |name| <= n
    decreases names
  {
    n := 0;
    if names != {} {
      var name :| name in names;
      var m := LongestName(names - {name});
      n := if m < |name| then |name| else m;
    }
  }

  lemma OtherName(markets: Markets) returns (name: string)
    ensures name !in markets
  {
    var n := LongestName(markets.Keys);
    name := seq(n + 1, _ => 'x');
  }

  function RefusedOrders(name: string, k: nat): seq<Op> {
    if k == 0 then [] else [PlaceLimit(0, name, Ask, 1.0, 1.0)] + RefusedOrders(name, k - 1)
  }

  lemma {:induction false} OrdersDraw(x: Exchange, name: string, k: nat)
    requires name !in x.markets && !x.halted
    ensures var ops := RefusedOrders(name, k);
            Run(x, ops).nextId == x.nextId + k && AllAdmitted(ops) && NoStops(ops)
    decreases k
  {
    if k > 0 {
      var op := PlaceLimit(0, name, Ask, 1.0, 1.0);
      assert RefusedOrders(name, k)[0] == op && RefusedOrders(name, k)[1..] == RefusedOrders(name, k - 1);
      OrdersDraw(Step(x, op), name, k - 1);
    }
  }

  /** With the counter at `n` beside loaded orders, no run ever draws an ID that one of them has
      exactly when the counter has passed them all. */
  lemma LoadedIdsAreFreeIff(markets: Markets, file: seq<Row>, ledger: Ledger, n: nat)
    ensures var x := Restored(markets, file, ledger, n);
            (forall ops :: !Redraws(x, ops, CellsIn(file).Keys))
            <==> forall id :: id in CellsIn(file) ==> id <= n
  {
    var x := Restored(markets, file, ledger, n);
    if forall id :: id in CellsIn(file) ==> id <= n {
      forall ops ensures !Redraws(x, ops, CellsIn(file).Keys) {
        forall id: nat | id in CellsIn(file) ensures !Draws(x, ops, id) { DrawsIff(x, ops, id); }
      }
    } else {
      var id :| id in CellsIn(file) && id > n;
      var ops := LoadedIdIsDrawn(markets, file, ledger, n, id);
      assert Redraws(x, ops, CellsIn(file).Keys);
    }
  }

  /** Any ID that the counter has not passed is drawn again by some limit orders. */
  lemma LoadedIdIsDrawn(markets: Markets, file: seq<Row>, ledger: Ledger, n: nat, id: nat) returns (ops: seq<Op>)
    requires id > n
    ensures Draws(Restored(markets, file, ledger, n), ops, id) && AllAdmitted(ops) && NoStops(ops)
  {
    var x := Restored(markets, file, ledger, n);
    var name := OtherName(markets);
    ops := RefusedOrders(name, id - n);
    OrdersDraw(x, name, id - n);
    DrawsIff(x, ops, id);
  }

  /** The program starts the counter at 0 whatever it loads: it is safe only where nothing is. */
  lemma FreshCounterIsFreeIff(markets: Markets, file: seq<Row>, ledger: Ledger)
    ensures var x := Restored(markets, file, ledger, 0);
            (forall ops :: !Redraws(x, ops, CellsIn(file).Keys))
            <==> forall id :: id in CellsIn(file) ==> id == 0
  {
    LoadedIdsAreFreeIff(markets, file, ledger, 0);
  }

  lemma FirstDraw(x: Exchange, op: Op)
    requires op.PlaceLimit? && x.nextId == 0 && !x.halted
    ensures Draws(x, [op], 1)
  {
    PlaceNewDraws(x, Order(1, op.userId, op.market, op.side, op.price, op.amount));
  }

  /** With the order of ID 1 in the file, the first limit order that anybody places draws 1. */
  lemma FirstOrderCollides(markets: Markets, ledger: Ledger, op: Op)
    requires op.PlaceLimit?
    ensures var file := [Row("BTCUSDT", OrderData(1, 7, "BTCUSDT", 1, 20.0, 2.0, 1.0, 2))];
            1 in CellsIn(file) && Draws(Restored(markets, file, ledger, 0), [op], 1)
  {
    var file := [Row("BTCUSDT", OrderData(1, 7, "BTCUSDT", 1, 20.0, 2.0, 1.0, 2))];
    var x := Restored(markets, file, ledger, 0);
    assert file[..0] == [];
    assert CellsIn(file) == CellsIn(file[..0])[1 := CellOf(file[0].data)];
    FirstDraw(x, op);
  }
}
