/** Runs that start from a loaded orders file: what its orders need, what they had filled, and
    what becomes of the ID counter that starts at 0 beside them. */
module LoadedRuns {
  import opened Orders
  import opened PriceQueues
  import opened Ledgers
  import opened Sums
  import opened Matching
  import opened FillLedger
  import opened SoundBooks
  import opened Solvency
  import opened Exchanges
  import opened UnlistedTrades
  import opened FillRuns
  import opened UnlistedRuns
  import opened StopSweeps
  import opened OrderlyRuns
  import opened Settlement
  import opened SettlementRuns
  import opened Snapshots
  import opened Loads
  import opened TradeRecords
  import opened TradeRuns

  // ---------- the funds ----------

  /** What the order of an active row may still have to pay from account `k`. */
  ghost function RowNeed(markets: Markets, k: Acct): Row -> real {
    (row: Row) =>
      if IsActive(row.data) && LockAcct(MarketIn(markets, row.market), OrderOf(row.data)) == k
      then Need(OrderOf(row.data), row.data.left) else 0.0
  }

  ghost function FileNeed(markets: Markets, file: seq<Row>, k: Acct): real { Total(file, RowNeed(markets, k)) }

  ghost function NeedIn(table: map<nat, Cell>, u: nat): Order -> real {
    (o: Order) => if o.userId == u then Need(o, LeftIn(table, o)) else 0.0
  }

  /** What the rows of one market add to an account. */
  ghost function MarketNeed(file: seq<Row>, table: map<nat, Cell>, markets: Markets, k: Acct, name: string): real {
    (if k.asset == MarketIn(markets, name).money then SideNeed(file, table, k, name, Bid) else 0.0)
    + (if k.asset == MarketIn(markets, name).stock then SideNeed(file, table, k, name, Ask) else 0.0)
  }

  ghost function SideNeed(file: seq<Row>, table: map<nat, Cell>, k: Acct, name: string, side: Side): real {
    Total(OrdersIn(file, name, side), NeedIn(table, k.userId))
  }

  ghost function ByMarket(file: seq<Row>, table: map<nat, Cell>, markets: Markets, k: Acct): string -> real {
    (name: string) => MarketNeed(file, table, markets, k, name)
  }

  ghost function RowNeedIn(table: map<nat, Cell>, markets: Markets, k: Acct): Row -> real {
    (row: Row) =>
      if IsActive(row.data) && k.asset == SettledAsset(MarketIn(markets, row.market), SideOf(row.data.side))
      then NeedIn(table, k.userId)(OrderOf(row.data)) else 0.0
  }

  lemma {:induction false} SetTotalZero(s: set<string>, f: string -> real)
    requires forall n :: n in s ==> f(n) == 0.0
    ensures SetTotal(s, f) == 0.0
    decreases s
  {
    if s != {} {
      var n :| n in s;
      SetTotalRemove(s, n, f);
      SetTotalZero(s - {n}, f);
    }
  }

  lemma SideRowMore(rest: seq<Row>, row: Row, table: map<nat, Cell>, k: Acct, name: string, side: Side)
    ensures SideNeed(rest + [row], table, k, name, side)
         == SideNeed(rest, table, k, name, side)
            + if Enters(row, name, side) then NeedIn(table, k.userId)(OrderOf(row.data)) else 0.0
  {
    assert (rest + [row])[..|rest|] == rest;
    TotalSnoc(OrdersIn(rest, name, side), OrderOf(row.data), NeedIn(table, k.userId));
  }

  lemma OneRowMore(rest: seq<Row>, row: Row, table: map<nat, Cell>, markets: Markets, k: Acct, name: string)
    ensures MarketNeed(rest + [row], table, markets, k, name)
         == MarketNeed(rest, table, markets, k, name)
            + if name == row.market then RowNeedIn(table, markets, k)(row) else 0.0
  {
    SideRowMore(rest, row, table, k, name, Bid);
    SideRowMore(rest, row, table, k, name, Ask);
  }

  lemma AddRow(s: set<string>, rest: seq<Row>, row: Row, table: map<nat, Cell>, markets: Markets, k: Acct)
    requires row.market in s
    ensures SetTotal(s, ByMarket(rest + [row], table, markets, k))
         == SetTotal(s, ByMarket(rest, table, markets, k)) + RowNeedIn(table, markets, k)(row)
  {
    var f, g := ByMarket(rest, table, markets, k), ByMarket(rest + [row], table, markets, k);
    forall name ensures g(name) == f(name) + if name == row.market then RowNeedIn(table, markets, k)(row) else 0.0 {
      OneRowMore(rest, row, table, markets, k, name);
    }
    SetTotalReweigh(s, row.market, f, g);
  }

  /** Adding up by market or by row comes to the same. */
  lemma {:induction false} NeedByRow(s: set<string>, file: seq<Row>, table: map<nat, Cell>, markets: Markets, k: Acct)
    requires forall i :: 0 <= i < |file| ==> file[i].market in s
    ensures SetTotal(s, ByMarket(file, table, markets, k)) == Total(file, RowNeedIn(table, markets, k))
  {
    if file == [] {
      SetTotalZero(s, ByMarket(file, table, markets, k));
    } else {
      var rest, row := file[..|file| - 1], file[|file| - 1];
      assert file == rest + [row];
      NeedByRow(s, rest, table, markets, k);
      TotalSnoc(rest, row, RowNeedIn(table, markets, k));
      AddRow(s, rest, row, table, markets, k);
    }
  }

  lemma LoadedClaim(markets: Markets, file: seq<Row>, ledger: Ledger, n: nat, name: string, side: Side, u: nat)
    requires Loadable(markets, file, n)
    ensures SideClaim(Restored(markets, file, ledger, n).Slice(name), side, u)
         == Total(OrdersIn(file, name, side), NeedIn(CellsIn(file), u))
  {
    var c := Restored(markets, file, ledger, n).Slice(name);
    var q := c.book.Queue(side);
    BookOfRestored(markets, file, ledger, n, name);
    forall o | o in q ensures ClaimOf(c, u)(o) == NeedIn(CellsIn(file), u)(o) {
      var _ := RowOfQueued(file, name, side, o);
    }
    TotalSame(q, ClaimOf(c, u), NeedIn(CellsIn(file), u));
    QueueContents(file, name, side);
    TotalPermutation(q, OrdersIn(file, name, side), NeedIn(CellsIn(file), u));
  }

  lemma LoadedMarketClaim(markets: Markets, file: seq<Row>, ledger: Ledger, n: nat, k: Acct, name: string)
    requires Loadable(markets, file, n)
    ensures MarketClaim(Restored(markets, file, ledger, n), k, name)
            == MarketNeed(file, CellsIn(file), markets, k, name)
  {
    LoadedClaim(markets, file, ledger, n, name, Bid, k.userId);
    LoadedClaim(markets, file, ledger, n, name, Ask, k.userId);
  }

  lemma RowSaysLeft(table: map<nat, Cell>, markets: Markets, k: Acct, row: Row)
    requires IsActive(row.data) ==> LeftIn(table, OrderOf(row.data)) == row.data.left
    ensures RowNeedIn(table, markets, k)(row) == RowNeed(markets, k)(row)
  {
    var o := OrderOf(row.data);
    assert LockAcct(MarketIn(markets, row.market), o) == k
      <==> o.userId == k.userId && SettledAsset(MarketIn(markets, row.market), o.side) == k.asset;
    if IsActive(row.data) {
      assert NeedIn(table, k.userId)(o) == if o.userId == k.userId then Need(o, row.data.left) else 0.0;
    }
  }

  lemma RowsSayLeft(markets: Markets, file: seq<Row>, k: Acct)
    requires DistinctActive(file)
    ensures Total(file, RowNeedIn(CellsIn(file), markets, k)) == FileNeed(markets, file, k)
  {
    CellsInMeans(file);
    forall row | row in file ensures RowNeedIn(CellsIn(file), markets, k)(row) == RowNeed(markets, k)(row) {
      var i :| 0 <= i < |file| && file[i] == row;
      assert IsActive(file[i].data) ==> LeftIn(CellsIn(file), OrderOf(row.data)) == row.data.left;
      RowSaysLeft(CellsIn(file), markets, k, row);
    }
    TotalSame(file, RowNeedIn(CellsIn(file), markets, k), RowNeed(markets, k));
  }

  /** What the loaded orders may still need from an account is what the rows say. */
  lemma LoadedTotalClaim(markets: Markets, file: seq<Row>, ledger: Ledger, n: nat, k: Acct)
    requires Loadable(markets, file, n)
    ensures TotalClaim(Restored(markets, file, ledger, n), k) == FileNeed(markets, file, k)
  {
    var x, f := Restored(markets, file, ledger, n), ByMarket(file, CellsIn(file), markets, k);
    forall name ensures ClaimIn(x, k)(name) == f(name) { LoadedMarketClaim(markets, file, ledger, n, k, name); }
    SetTotalSame(x.books.Keys, ClaimIn(x, k), f);
    forall i | 0 <= i < |file| ensures file[i].market in x.books.Keys { assert file[i] in file; }
    NeedByRow(x.books.Keys, file, CellsIn(file), markets, k);
    RowsSayLeft(markets, file, k);
  }

  /** The frozen funds cover what the active rows may still need. */
  ghost predicate Covers(markets: Markets, file: seq<Row>, ledger: Ledger) {
    forall k: Acct :: Held(ledger, k).frozen >= FileNeed(markets, file, k)
  }

  /** Which files and balances put an engine into the invariants of the stop-free runs. */
  lemma LoadedIsSolventIff(markets: Markets, file: seq<Row>, ledger: Ledger, n: nat)
    ensures var x := Restored(markets, file, ledger, n);
            Orderly(x) && Solvent(x) && SidesKnown(file)
            <==> Loadable(markets, file, n) && Covers(markets, file, ledger)
  {
    RestoredIsOrderlyIff(markets, file, ledger, n);
    if Loadable(markets, file, n) {
      forall k: Acct ensures TotalClaim(Restored(markets, file, ledger, n), k) == FileNeed(markets, file, k) {
        LoadedTotalClaim(markets, file, ledger, n, k);
      }
    }
  }

  /** So every stop-free run from such a file stays orderly and solvent, and no unlock fails. */
  lemma LoadedRunIsOrderly(markets: Markets, file: seq<Row>, ledger: Ledger, n: nat, ops: seq<Op>)
    requires Loadable(markets, file, n) && Covers(markets, file, ledger)
    requires AllAdmitted(ops) && NoStops(ops)
    ensures var x := Run(Restored(markets, file, ledger, n), ops);
            Orderly(x) && Solvent(x) && x.journal.failedUnlocks == 0
  {
    LoadedIsSolventIff(markets, file, ledger, n);
    RunIsOrderlyAndSolvent(Restored(markets, file, ledger, n), ops);
  }

  // ---------- the fill ledger ----------

  /** What the loaded orders had filled when they were saved. */
  function PastOf(file: seq<Row>): Past {
    var table := CellsIn(file);
    map id | id in table :: table[id].order.amount - table[id].left
  }

  lemma LoadedBookKnown(markets: Markets, file: seq<Row>, ledger: Ledger, n: nat, name: string)
    requires Loadable(markets, file, n)
    ensures BookKnown(Restored(markets, file, ledger, n).Slice(name))
  {
    var c := Restored(markets, file, ledger, n).Slice(name);
    LoadedMarket(markets, file, ledger, n, name);
    forall o | c.book.Queued(o) ensures Known(c, o) && o.amount >= 0.0 {
      assert Resting(c, o, Bid) || Resting(c, o, Ask);
    }
    forall id | id in c.book.live ensures Known(c, c.book.live[id]) && c.book.live[id].amount >= 0.0 {
      assert c.book.Queued(c.book.live[id]);
    }
  }

  lemma LoadedCell(markets: Markets, file: seq<Row>, n: nat, id: nat)
    requires Loadable(markets, file, n) && id in CellsIn(file)
    ensures id <= n && CellsIn(file)[id].order.id == id && InBounds(CellsIn(file)[id])
    ensures exists i ::
              && 0 <= i < |file| && IsActive(file[i].data) && file[i].data.id == id
              && CellsIn(file)[id] == CellOf(file[i].data)
  {
    CellsInMeans(file);
    var i :| 0 <= i < |file| && IsActive(file[i].data) && file[i].data.id == id;
    assert RowFits(file[i], n);
  }

  /** Trade lists are not saved: they account for the loaded orders beside what these had filled
      before, and by themselves only if no loaded order had filled anything. */
  lemma LoadedIsAccountedIff(markets: Markets, file: seq<Row>, ledger: Ledger, n: nat)
    requires Loadable(markets, file, n)
    ensures ExchangeAccounted(PastOf(file), Restored(markets, file, ledger, n))
    ensures ExchangeAccounted(map[], Restored(markets, file, ledger, n))
            <==> forall i :: 0 <= i < |file| && IsActive(file[i].data) ==> file[i].data.left == file[i].data.amount
  {
    var x, table := Restored(markets, file, ledger, n), CellsIn(file);
    var untouched := forall i :: 0 <= i < |file| && IsActive(file[i].data) ==> file[i].data.left == file[i].data.amount;
    forall id | id in table
      ensures id <= n && table[id].order.id == id && InBounds(table[id])
      ensures untouched ==> table[id].left == table[id].order.amount
    {
      LoadedCell(markets, file, n, id);
    }
    forall name ensures AllAccounted(PastOf(file), x.Slice(name))
      && (untouched ==> AllAccounted(map[], x.Slice(name))) {
      LoadedBookKnown(markets, file, ledger, n, name);
      NoTrades(x.Slice(name), PastOf(file));
      if untouched { NoTrades(x.Slice(name), map[]); }
    }
    if ExchangeAccounted(map[], x) {
      CellsInMeans(file);
      forall i | 0 <= i < |file| && IsActive(file[i].data) ensures file[i].data.left == file[i].data.amount {
        assert AllAccounted(map[], x.Slice("")) && Accounted(map[], x.Slice(""), file[i].data.id);
      }
    }
  }

  lemma NoTrades(c: Core, past: Past)
    requires c.trades == map[] && past.Keys <= c.table.Keys
    requires forall id :: id in c.table ==>
               id <= c.nextId && c.table[id].order.id == id && InBounds(c.table[id])
               && c.table[id].order.amount - c.table[id].left == Before(past, id)
    ensures CellsAccounted(past, c)
  {
    forall id | id in c.table ensures Accounted(past, c, id) { assert TradesOf(c.trades, id) == []; }
  }

  /** The markets of the file are configured, so no other market has a book. */
  lemma LoadedUnlistedSpent(markets: Markets, file: seq<Row>, ledger: Ledger, n: nat)
    requires Loadable(markets, file, n)
    ensures UnlistedSpent(Restored(markets, file, ledger, n))
  {
    var x := Restored(markets, file, ledger, n);
    forall name | name in x.books ensures name in markets {
      var row :| row in file && row.market == name;
    }
  }

  /** Over every run from a loaded file, stop orders included: what an order has left is what it
      was loaded with, less the volume of the trades since. */
  lemma LoadedRunAccounted(markets: Markets, file: seq<Row>, ledger: Ledger, n: nat, ops: seq<Op>, i: nat)
    requires Loadable(markets, file, n) && i < |file| && IsActive(file[i].data)
    ensures var x, d := Run(Restored(markets, file, ledger, n), ops), file[i].data;
            && d.id in x.table && x.table[d.id].order == OrderOf(d)
            && x.table[d.id].left == d.left - Volume(TradesOf(x.trades, d.id))
  {
    var x, d := Restored(markets, file, ledger, n), file[i].data;
    LoadedIsAccountedIff(markets, file, ledger, n);
    CellsInMeans(file);
    LoadedUnlistedSpent(markets, file, ledger, n);
    RunAccounted(PastOf(file), x, ops);
    assert AllAccounted(PastOf(file), Run(x, ops).Slice("")) && Accounted(PastOf(file), Run(x, ops).Slice(""), d.id);
  }

  lemma LoadedInPlace(markets: Markets, file: seq<Row>, ledger: Ledger, n: nat)
    requires Loadable(markets, file, n)
    ensures AllInPlace(Restored(markets, file, ledger, n))
  {
    var x := Restored(markets, file, ledger, n);
    forall name ensures InPlace(x.Slice(name), name) {
      BookOfRestored(markets, file, ledger, n, name);
      forall side: Side, o | o in x.BookOf(name).Queue(side) ensures o.side == side && o.market == name {
        var i := RowOfQueued(file, name, side, o);
        assert RowFits(file[i], n);
      }
      assert x.BookOf(name).Queue(Bid) == x.BookOf(name).bids && x.BookOf(name).Queue(Ask) == x.BookOf(name).asks;
    }
  }

  /** Over every run from a loaded file each published trade agrees with the records of its orders,
      and each trade list is exactly the published trades of its order. */
  lemma LoadedTradesFit(markets: Markets, file: seq<Row>, ledger: Ledger, n: nat, ops: seq<Op>)
    requires Loadable(markets, file, n)
    ensures var x := Run(Restored(markets, file, ledger, n), ops);
            && (forall t :: t in x.journal.deals ==> Fits(x.table, t))
            && (forall id :: TradesOf(x.trades, id) == DealsOf(x.journal.deals, id))
  {
    var x := Restored(markets, file, ledger, n);
    var x' := Run(x, ops);
    LoadedIsAccountedIff(markets, file, ledger, n);
    AccountedExchangeIsBounded(PastOf(file), x);
    LoadedInPlace(markets, file, ledger, n);
    RunTradesFit(x, ops);
    assert x'.journal.deals[0..] == x'.journal.deals;
    forall id ensures TradesOf(x'.trades, id) == DealsOf(x'.journal.deals, id) {
      assert TradesOf(x.trades, id) == [];
    }
  }

  // ---------- a loaded book of a market that is not configured ----------

  /** One untouched bid for 2 at 20. */
  const LONE_BID := Order(1, 7, "M", Bid, 20.0, 2.0)

  const LONE_FILE: seq<Row> := [Row("M", SerializeOrder(LONE_BID, 2.0, Pending))]

  lemma LoneBook()
    ensures var c := Restored(map[], LONE_FILE, map[], 1).Slice("M");
            && c.book.bids == [LONE_BID] && c.book.asks == [] && c.stops == [] && !c.halted
            && c.table == map[1 := Cell(LONE_BID, 2.0, Pending)] && c.trades == map[] && c.nextId == 1
  {
    var row := LONE_FILE[0];
    assert LONE_FILE[..0] == [];
    assert ListIn(LONE_FILE, "M") == ListIn([], "M") + [row.data] == [row.data];
    assert [row.data][..0] == [];
    assert RestoredBook([row.data]).bids == Pushed([], LONE_BID);
    assert CellsIn(LONE_FILE) == map[][1 := CellOf(row.data)];
    assert row in LONE_FILE;
  }

  /** Where "M" is not configured, an ask stop order for 1 that fires there takes 1 of the bid
      without a trade in any list, though the accounts were right when the file was loaded. */
  lemma UnlistedFillIsUnrecorded()
    ensures var x := Restored(map[], LONE_FILE, map[], 1);
            var y := Run(x, [AddStop(8, "M", Ask, 20.0, 1.0, 20.0), SweepStops("M", 20.0)]);
            && ExchangeAccounted(map[], x) && !ExchangeAccounted(map[], y)
            && 1 in y.table && y.table[1].left == 1.0 && y.trades == map[] && y.ledger == map[]
  {
    var x := Restored(map[], LONE_FILE, map[], 1);
    var add, sweep := AddStop(8, "M", Ask, 20.0, 1.0, 20.0), SweepStops("M", 20.0);
    var x1, s := Step(x, add), StopOf(add);
    LoneBook();
    assert x1.StopsOf("M") == [s] by { assert [] + [s] == [s]; }
    RunTwo(x, add, sweep);
    OneStop(s, 20.0);
    LoneFill(x1.Slice("M"), s);
    var c' := Swept(x1.Slice("M"), Unlisted, 20.0);
    assert Step(x1, sweep) == x1.With("M", c');
    LoneAccounted(x);
    assert !Accounted(map[], x1.With("M", c').Slice(""), 1);
    assert !AllAccounted(map[], x1.With("M", c').Slice(""));
  }

  lemma LoneFill(c: Core, s: StopOrder)
    requires c.stops == [s] && s == StopOrder(Order(0, 8, "M", Ask, 20.0, 1.0), 20.0, false) && !c.halted
    requires c.book.bids == [LONE_BID] && c.table == map[1 := Cell(LONE_BID, 2.0, Pending)] && c.nextId == 1
    ensures var c' := Swept(c, Unlisted, 20.0);
            1 in c'.table && c'.table[1].order == LONE_BID && c'.table[1].left == 1.0
            && c'.trades == c.trades && c'.ledger == c.ledger
  {
    var c0 := c.(stops := [], journal := c.journal.(fired := c.journal.fired + [s]));
    var o := s.order.(id := 2);
    var c1 := Entered(c0.(nextId := o.id), o);
    SilentSweep(c, 20.0);
    SweptByOne(c, Unlisted, 20.0, s);
    FiredEnters(c0, Unlisted, s);
    assert CanTrade(c1, o);
    UnlistedTurn(c1, o);
    var c2 := Iterated(c1, Unlisted, o);
    assert c2.Left(o) == 0.0 && TakerLoop(c1, Unlisted, o).core == TakerLoop(c2, Unlisted, o).core == c2;
  }

  lemma LoneAccounted(x: Exchange)
    requires x == Restored(map[], LONE_FILE, map[], 1)
    ensures ExchangeAccounted(map[], x)
  {
    forall name ensures AllAccounted(map[], x.Slice(name)) { LoneSlice(x, name); }
  }

  lemma LoneSlice(x: Exchange, name: string)
    requires x == Restored(map[], LONE_FILE, map[], 1)
    ensures AllAccounted(map[], x.Slice(name))
  {
    LoneBook();
    BookOfRestored(map[], LONE_FILE, map[], 1, name);
    if name != "M" { NoneListed(LONE_FILE, name); }
    var c := x.Slice(name);
    assert c.table == map[1 := Cell(LONE_BID, 2.0, Pending)] && c.trades == map[] && c.nextId == 1;
    NoTrades(c, map[]);
    LoneBookKnown(c);
  }

  lemma LoneBookKnown(c: Core)
    requires c.table == map[1 := Cell(LONE_BID, 2.0, Pending)]
    requires c.book == EMPTY_BOOK || c.book == Book([LONE_BID], [], map[1 := LONE_BID])
    ensures BookKnown(c)
  {
  }

  // ---------- no balance below zero ----------

  predicate AskRowsPriced(file: seq<Row>) {
    forall i :: 0 <= i < |file| && IsActive(file[i].data) && SideOf(file[i].data.side) == Ask ==>
      file[i].data.price >= FEE_RATE
  }

  lemma LoadedPricedIff(markets: Markets, file: seq<Row>, ledger: Ledger, n: nat)
    requires Loadable(markets, file, n)
    ensures (forall name :: Priced(Restored(markets, file, ledger, n).Slice(name))) <==> AskRowsPriced(file)
  {
    var x := Restored(markets, file, ledger, n);
    if AskRowsPriced(file) {
      forall name ensures Priced(x.Slice(name)) {
        BookOfRestored(markets, file, ledger, n, name);
        LoadedMarket(markets, file, ledger, n, name);
        forall a | a in x.BookOf(name).asks ensures a.price >= FEE_RATE { var _ := RowOfQueued(file, name, Ask, a); }
        forall id | id in x.BookOf(name).live ensures x.BookOf(name).live[id].price >= 0.0 {
          var o := x.BookOf(name).live[id];
          assert Resting(x.Slice(name), o, Bid) || Resting(x.Slice(name), o, Ask);
        }
      }
    }
    if forall name :: Priced(x.Slice(name)) {
      forall i | 0 <= i < |file| && IsActive(file[i].data) && SideOf(file[i].data.side) == Ask
        ensures file[i].data.price >= FEE_RATE
      {
        RowIsQueued(file, i);
        BookOfRestored(markets, file, ledger, n, file[i].market);
        assert Priced(x.Slice(file[i].market));
      }
    }
  }

  /** A loaded engine meets the invariant of the runs without negative balances exactly when no
      loaded balance is negative and no loaded ask is priced below the fee rate. */
  lemma LoadedIsHealthyIff(markets: Markets, file: seq<Row>, ledger: Ledger, n: nat)
    requires Loadable(markets, file, n)
    ensures AllHealthy(Restored(markets, file, ledger, n)) <==> NonNegative(ledger) && AskRowsPriced(file)
  {
    LoadedIsAccountedIff(markets, file, ledger, n);
    AccountedExchangeIsBounded(PastOf(file), Restored(markets, file, ledger, n));
    LoadedPricedIff(markets, file, ledger, n);
  }
}
