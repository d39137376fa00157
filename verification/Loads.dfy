/** An orders file, whatever it holds, loaded into a fresh engine. */
module Loads {
  import opened Orders
  import opened PriceQueues
  import opened Ledgers
  import opened Matching
  import opened SoundBooks
  import opened Exchanges
  import opened OrderlyRuns
  import opened Snapshots

  // ---------- loading ----------

  /** `LoadOrdersFromFile`, seen from one market. */
  function ListIn(file: seq<Row>, market: string): seq<OrderData> {
    if file == [] then []
    else
      var rest, row := ListIn(file[..|file| - 1], market), file[|file| - 1];
      if row.market == market then rest + [row.data] else rest
  }

  function CellsIn(file: seq<Row>): map<nat, Cell> {
    if file == [] then map[]
    else
      var rest, d := CellsIn(file[..|file| - 1]), file[|file| - 1].data;
      if IsActive(d) then rest[d.id := CellOf(d)] else rest
  }

  /** The loaded engine. Neither the trades, nor the stop orders, nor the ID counter are saved:
      `nextId` is what the counter stands at. */
  function Restored(markets: Markets, file: seq<Row>, ledger: Ledger, nextId: nat): Exchange {
    Exchange(markets, map name | name in set row <- file :: row.market :: RestoredBook(ListIn(file, name)), map[],
             CellsIn(file), ledger, map[], nextId, false, Journal([], [], 0, []))
  }

  predicate DistinctActive(file: seq<Row>) {
    forall i, j :: 0 <= i < j < |file| && IsActive(file[i].data) && IsActive(file[j].data) ==>
      file[i].data.id != file[j].data.id
  }

  predicate Occurs(file: seq<Row>, market: string, d: OrderData) {
    exists i :: 0 <= i < |file| && file[i] == Row(market, d)
  }

  lemma {:induction false} ListInMeans(file: seq<Row>, market: string)
    requires DistinctActive(file)
    ensures DistinctIds(ListIn(file, market))
    ensures forall d :: d in ListIn(file, market) <==> Occurs(file, market, d)
  {
    if file != [] {
      var n := |file| - 1;
      var rest, row := file[..n], file[n];
      ListInMeans(rest, market);
      forall d
        ensures Occurs(file, market, d) <==> Occurs(rest, market, d) || row == Row(market, d)
      {
      }
      forall d | d in ListIn(rest, market) && IsActive(d) && IsActive(row.data) ensures d.id != row.data.id {
        var i :| 0 <= i < n && rest[i] == Row(market, d);
        assert file[i] == rest[i];
      }
    }
  }

  lemma {:induction false} CellsInMeans(file: seq<Row>)
    requires DistinctActive(file)
    ensures forall i :: 0 <= i < |file| && IsActive(file[i].data) ==>
              file[i].data.id in CellsIn(file) && CellsIn(file)[file[i].data.id] == CellOf(file[i].data)
    ensures forall id :: id in CellsIn(file) ==>
        exists i :: 0 <= i < |file| && IsActive(file[i].data) && file[i].data.id == id
  {
    if file != [] {
      var n := |file| - 1;
      CellsInMeans(file[..n]);
      forall i | 0 <= i < n && IsActive(file[i].data)
        ensures file[i].data.id in CellsIn(file) && CellsIn(file)[file[i].data.id] == CellOf(file[i].data)
      {
        assert file[..n][i] == file[i];
      }
      forall id | id in CellsIn(file)
        ensures exists i :: 0 <= i < |file| && IsActive(file[i].data) && file[i].data.id == id
      {
        if id in CellsIn(file[..n]) {
          var i :| 0 <= i < n && IsActive(file[..n][i].data) && file[..n][i].data.id == id;
          assert IsActive(file[i].data) && file[i].data.id == id;
        } else {
          assert IsActive(file[n].data) && file[n].data.id == id;
        }
      }
    }
  }

  lemma {:induction false} NoneListed(file: seq<Row>, name: string)
    requires forall i :: 0 <= i < |file| ==> file[i].market != name
    ensures ListIn(file, name) == []
  {
    if file != [] { NoneListed(file[..|file| - 1], name); }
  }

  lemma BookOfRestored(markets: Markets, file: seq<Row>, ledger: Ledger, n: nat, name: string)
    ensures Restored(markets, file, ledger, n).BookOf(name) == RestoredBook(ListIn(file, name))
  {
    if name !in (set row <- file :: row.market) {
      forall i | 0 <= i < |file| ensures file[i].market != name { assert file[i] in file; }
      NoneListed(file, name);
    }
  }

  // ---------- which files give an orderly engine ----------

  /** The side codes of asks and bids. An active row with another code is queued with the bids,
      while a cancel of it unlocks stock. */
  predicate SideKnown(row: Row) { IsActive(row.data) ==> row.data.side == 1 || row.data.side == 2 }

  predicate SidesKnown(file: seq<Row>) { forall i :: 0 <= i < |file| ==> SideKnown(file[i]) }

  /** An active row is an ask or a bid, names its own market, carries an ID that the counter has
      passed and a positive price, and has something left, but no more than its amount. */
  predicate RowFits(row: Row, n: nat) {
    var d := row.data;
    && SideKnown(row)
    && (IsActive(d) ==> d.market == row.market && d.id <= n && d.price > 0.0 && 0.0 < d.left <= d.amount)
  }

  /** An active bid is below an active ask of its market. */
  predicate RowsApart(a: Row, b: Row) {
    IsActive(a.data) && IsActive(b.data) && a.market == b.market && OrderOf(a.data).side == Bid
      && OrderOf(b.data).side == Ask
    ==> a.data.price < b.data.price
  }

  ghost predicate Loadable(markets: Markets, file: seq<Row>, n: nat) {
    && (forall i :: 0 <= i < |file| ==> file[i].market in markets && RowFits(file[i], n))
    && DistinctActive(file)
    && forall i, j :: 0 <= i < |file| && 0 <= j < |file| ==> RowsApart(file[i], file[j])
  }

  /** The row of an order in the loaded book. */
  lemma RowOfQueued(file: seq<Row>, name: string, side: Side, o: Order) returns (i: nat)
    requires DistinctActive(file) && o in RestoredBook(ListIn(file, name)).Queue(side)
    ensures i < |file| && file[i].market == name && IsActive(file[i].data) && OrderOf(file[i].data) == o
        && o.side == side
    ensures o.id in CellsIn(file) && CellsIn(file)[o.id] == CellOf(file[i].data)
    ensures var b := RestoredBook(ListIn(file, name)); o.id in b.live && b.live[o.id] == o
  {
    var list := ListIn(file, name);
    ListInMeans(file, name);
    RestoredHoldsList(list);
    assert InList(list, o);
    var j :| 0 <= j < |list| && IsActive(list[j]) && OrderOf(list[j]) == o;
    assert Occurs(file, name, list[j]);
    i :| 0 <= i < |file| && file[i] == Row(name, list[j]);
    CellOfRow(file, i);
  }

  lemma CellOfRow(file: seq<Row>, i: nat)
    requires DistinctActive(file) && i < |file| && IsActive(file[i].data)
    ensures file[i].data.id in CellsIn(file) && CellsIn(file)[file[i].data.id] == CellOf(file[i].data)
  {
    CellsInMeans(file);
  }

  lemma LoadedRests(markets: Markets, file: seq<Row>, ledger: Ledger, n: nat, name: string, side: Side, o: Order)
    requires Loadable(markets, file, n) && o in RestoredBook(ListIn(file, name)).Queue(side)
    ensures Resting(Restored(markets, file, ledger, n).Slice(name), o, side) && o.market == name
  {
    BookOfRestored(markets, file, ledger, n, name);
    var i := RowOfQueued(file, name, side, o);
    assert RowFits(file[i], n);
  }

  lemma LoadedUncrossed(markets: Markets, file: seq<Row>, n: nat, name: string)
    requires Loadable(markets, file, n)
    ensures Uncrossed(RestoredBook(ListIn(file, name)))
  {
    var b := RestoredBook(ListIn(file, name));
    forall x, y | x in b.bids && y in b.asks ensures x.price < y.price {
      var i := RowOfQueued(file, name, Bid, x);
      var j := RowOfQueued(file, name, Ask, y);
      assert RowsApart(file[i], file[j]);
    }
  }

  lemma LiveIsQueued(b: Book, list: seq<OrderData>)
    requires HoldsList(b, list)
    ensures forall id :: id in b.live ==> b.live[id].id == id && b.Queued(b.live[id])
  {
    forall id | id in b.live ensures b.Queued(b.live[id]) { assert InList(list, b.live[id]); }
  }

  lemma SoundFrom(c: Core)
    requires c.stops == [] && !c.halted && LiveSound(c) && forall id :: id in c.table ==> id <= c.nextId
    requires forall side: Side :: IsHeap(c.book.Queue(side)) && Once(c.book.Queue(side))
    requires forall o, side: Side :: o in c.book.Queue(side) ==> Resting(c, o, side)
    ensures Sound(c)
  {
  }

  lemma LoadedMarket(markets: Markets, file: seq<Row>, ledger: Ledger, n: nat, name: string)
    requires Loadable(markets, file, n)
    ensures MarketSound(Restored(markets, file, ledger, n), name)
  {
    var x, b := Restored(markets, file, ledger, n), RestoredBook(ListIn(file, name));
    BookOfRestored(markets, file, ledger, n, name);
    ListInMeans(file, name);
    RestoredHoldsList(ListIn(file, name));
    forall o, side: Side | o in b.Queue(side) ensures Resting(x.Slice(name), o, side) && o.market == name {
      LoadedRests(markets, file, ledger, n, name, side, o);
    }
    LiveIsQueued(b, ListIn(file, name));
    CellsInMeans(file);
    SoundFrom(x.Slice(name));
    LoadedUncrossed(markets, file, n, name);
    BothSides(b, name);
  }

  lemma BothSides(b: Book, name: string)
    requires forall side: Side, o :: o in b.Queue(side) ==> o.market == name
    ensures forall o :: b.Queued(o) ==> o.market == name
  {
    assert forall o :: o in b.bids ==> o in b.Queue(Bid);
    assert forall o :: o in b.asks ==> o in b.Queue(Ask);
  }

  // ---------- the orders of a loaded queue, from the file ----------

  predicate Enters(row: Row, market: string, side: Side) {
    row.market == market && IsActive(row.data) && SideOf(row.data.side) == side
  }

  function OrdersIn(file: seq<Row>, market: string, side: Side): seq<Order> {
    if file == [] then []
    else
      var rest, row := OrdersIn(file[..|file| - 1], market, side), file[|file| - 1];
      if Enters(row, market, side) then rest + [OrderOf(row.data)] else rest
  }

  lemma PutContents(list: seq<OrderData>, d: OrderData, side: Side)
    ensures var q, o := RestoredBook(list).Queue(side), OrderOf(d);
            multiset(RestoredBook(list + [d]).Queue(side))
            == multiset(if IsActive(d) && SideOf(d.side) == side then q + [o] else q)
  {
    var q, o := RestoredBook(list).Queue(side), OrderOf(d);
    assert (list + [d])[..|list|] == list;
    SiftUpContents(q + [o], |q|);
    assert RestoredBook(list + [d]).Queue(side) == if IsActive(d) && SideOf(d.side) == side then Pushed(q, o) else q;
  }

  lemma SameAfter(p: seq<Order>, q: seq<Order>, o: Order)
    requires multiset(p) == multiset(q)
    ensures multiset(p + [o]) == multiset(q + [o])
  {
  }

  lemma {:induction false} QueueContents(file: seq<Row>, market: string, side: Side)
    ensures multiset(RestoredBook(ListIn(file, market)).Queue(side)) == multiset(OrdersIn(file, market, side))
  {
    if file != [] {
      var rest, row := file[..|file| - 1], file[|file| - 1];
      QueueContents(rest, market, side);
      if row.market == market {
        PutContents(ListIn(rest, market), row.data, side);
        SameAfter(RestoredBook(ListIn(rest, market)).Queue(side), OrdersIn(rest, market, side), OrderOf(row.data));
      }
    }
  }

  lemma {:induction false} RowIsCounted(file: seq<Row>, market: string, side: Side, i: nat)
    requires i < |file| && Enters(file[i], market, side)
    ensures OrderOf(file[i].data) in OrdersIn(file, market, side)
  {
    var n := |file| - 1;
    if i < n {
      assert file[..n][i] == file[i];
      RowIsCounted(file[..n], market, side, i);
    }
  }

  lemma {:induction false} RowsAreCounted(file: seq<Row>, market: string, side: Side, i: nat, j: nat)
    requires i < j < |file| && Enters(file[i], market, side) && Enters(file[j], market, side)
    requires OrderOf(file[i].data) == OrderOf(file[j].data)
    ensures multiset(OrdersIn(file, market, side))[OrderOf(file[i].data)] >= 2
  {
    var n := |file| - 1;
    assert file[..n][i] == file[i];
    if j < n {
      assert file[..n][j] == file[j];
      RowsAreCounted(file[..n], market, side, i, j);
    } else {
      RowIsCounted(file[..n], market, side, i);
    }
  }

  // ---------- and back ----------

  lemma RowIsQueued(file: seq<Row>, i: nat)
    requires i < |file| && IsActive(file[i].data)
    ensures var o, side := OrderOf(file[i].data), SideOf(file[i].data.side);
            Enters(file[i], file[i].market, side) && o in RestoredBook(ListIn(file, file[i].market)).Queue(side)
  {
    var o, side := OrderOf(file[i].data), SideOf(file[i].data.side);
    var q := RestoredBook(ListIn(file, file[i].market)).Queue(side);
    RowIsCounted(file, file[i].market, side, i);
    QueueContents(file, file[i].market, side);
    assert o in multiset(q);
  }

  lemma RowRests(markets: Markets, file: seq<Row>, ledger: Ledger, n: nat, i: nat)
    requires Orderly(Restored(markets, file, ledger, n)) && i < |file| && IsActive(file[i].data)
    ensures var x, o := Restored(markets, file, ledger, n), OrderOf(file[i].data);
            Resting(x.Slice(file[i].market), o, o.side) && o.market == file[i].market
  {
    var x := Restored(markets, file, ledger, n);
    BookOfRestored(markets, file, ledger, n, file[i].market);
    RowIsQueued(file, i);
    assert MarketSound(x, file[i].market);
  }

  lemma ActiveAreDistinct(markets: Markets, file: seq<Row>, ledger: Ledger, n: nat)
    requires Orderly(Restored(markets, file, ledger, n))
    ensures DistinctActive(file)
  {
    var x := Restored(markets, file, ledger, n);
    forall i, j | 0 <= i < j < |file| && IsActive(file[i].data) && IsActive(file[j].data)
      ensures file[i].data.id != file[j].data.id
    {
      RowRests(markets, file, ledger, n, i);
      RowRests(markets, file, ledger, n, j);
      if file[i].data.id == file[j].data.id {
        var o, name := OrderOf(file[i].data), file[i].market;
        assert o == OrderOf(file[j].data);
        RowsAreCounted(file, name, o.side, i, j);
        QueueContents(file, name, o.side);
        BookOfRestored(markets, file, ledger, n, name);
        RowIsQueued(file, i);
        OnceIn(x, name, o.side);
        assert false;
      }
    }
  }

  lemma OnceIn(x: Exchange, name: string, side: Side)
    requires Orderly(x)
    ensures Once(x.BookOf(name).Queue(side))
  {
    assert MarketSound(x, name);
    assert QueueSound(x.Slice(name), side);
  }

  lemma OrderlyIsLoadable(markets: Markets, file: seq<Row>, ledger: Ledger, n: nat)
    requires Orderly(Restored(markets, file, ledger, n)) && SidesKnown(file)
    ensures Loadable(markets, file, n)
  {
    var x := Restored(markets, file, ledger, n);
    ActiveAreDistinct(markets, file, ledger, n);
    CellsInMeans(file);
    forall i | 0 <= i < |file| ensures file[i].market in markets && RowFits(file[i], n) {
      assert file[i] in file && file[i].market in x.books;
      if IsActive(file[i].data) { RowRests(markets, file, ledger, n, i); }
    }
    forall i, j | 0 <= i < |file| && 0 <= j < |file| ensures RowsApart(file[i], file[j]) {
      if IsActive(file[i].data) && IsActive(file[j].data) {
        RowIsQueued(file, i);
        RowIsQueued(file, j);
        BookOfRestored(markets, file, ledger, n, file[i].market);
        assert MarketSound(x, file[i].market);
      }
    }
  }

  /** Loading any file gives an engine that is ready for further runs, from rows that are asks and
      bids, exactly when its markets are configured, its active rows fit and carry distinct IDs, and
      no active bid reaches an active ask. Rows of finished or canceled orders may hold anything. */
  lemma RestoredIsOrderlyIff(markets: Markets, file: seq<Row>, ledger: Ledger, n: nat)
    ensures Orderly(Restored(markets, file, ledger, n)) && SidesKnown(file) <==> Loadable(markets, file, n)
  {
    var x := Restored(markets, file, ledger, n);
    if Loadable(markets, file, n) {
      forall name ensures MarketSound(x, name) { LoadedMarket(markets, file, ledger, n, name); }
      forall name | name in x.books ensures name in markets {
        var row :| row in file && row.market == name;
      }
    }
    if Orderly(x) && SidesKnown(file) { OrderlyIsLoadable(markets, file, ledger, n); }
  }
}
