/** The loops that write and read a snapshot. */
module SnapshotFiles {
  import opened Orders
  import opened Ledgers
  import opened Matching
  import opened Exchanges
  import opened OrderlyRuns
  import opened SoundBooks
  import opened Balances
  import opened OrderBooks
  import opened Snapshots
  import opened Loads
  import opened Restores
  import opened Splits
  import opened Text

  // ---------- orders ----------

  function SavedRow(cells: map<nat, Cell>, market: string, o: Order): Row {
    Row(market, SerializeOrder(o, LeftIn(cells, o), if o.id in cells then cells[o.id].status else Pending))
  }

  /** The rows of one market: each order of the map that is not in `todo`, once. */
  ghost predicate RowsOf(rows: seq<Row>, market: string, live: map<nat, Order>, todo: set<nat>, cells: map<nat, Cell>) {
    && (forall i :: 0 <= i < |rows| ==> RowOf(rows[i], market, live, cells) && rows[i].data.id !in todo)
    && (forall i, j :: 0 <= i < j < |rows| ==> rows[i].data.id != rows[j].data.id)
    && (forall id :: id in live && id !in todo ==> HasRow(rows, id))
  }

  predicate RowOf(row: Row, market: string, live: map<nat, Order>, cells: map<nat, Cell>) {
    row.data.id in live && row == SavedRow(cells, market, live[row.data.id])
  }

  predicate HasRow(rows: seq<Row>, id: nat) { exists i :: 0 <= i < |rows| && rows[i].data.id == id }

  /** The inner loop of `DumpOrdersToFile`; the orders come in any order. */
  method DumpMarket(market: string, live: map<nat, Order>, cells: map<nat, Cell>) returns (rows: seq<Row>)
    requires forall id :: id in live ==> live[id].id == id
    ensures RowsOf(rows, market, live, {}, cells)
  {
    rows := [];
    var todo := live.Keys;
    while todo != {}
      invariant todo <= live.Keys && RowsOf(rows, market, live, todo, cells)
      decreases todo
    {
      var id: nat :| id in todo;
      RowsNext(rows, market, live, todo, cells, id);
      rows := rows + [SavedRow(cells, market, live[id])];
      todo := todo - {id};
    }
  }

  lemma RowsNext(rows: seq<Row>, market: string, live: map<nat, Order>, todo: set<nat>, cells: map<nat, Cell>, id: nat)
    requires RowsOf(rows, market, live, todo, cells) && id in todo && id in live && live[id].id == id
    ensures RowsOf(rows + [SavedRow(cells, market, live[id])], market, live, todo - {id}, cells)
  {
    var next := rows + [SavedRow(cells, market, live[id])];
    assert next[|rows|].data.id == id;
    forall other | other in live && other !in todo - {id}
      ensures HasRow(next, other)
    {
      if other != id {
        assert HasRow(rows, other);
        var i :| 0 <= i < |rows| && rows[i].data.id == other;
        assert next[i].data.id == other;
      }
    }
  }

  /** The file holds the rows of every market that is not in `todo`. */
  ghost predicate Dumped(file: seq<Row>, x: Exchange, todo: set<string>) {
    && (forall i :: 0 <= i < |file| ==> RowOfLive(file[i], x) && file[i].market !in todo)
    && (forall i, j :: 0 <= i < j < |file| ==> file[i].data.id != file[j].data.id)
    && (forall name, id :: name !in todo && id in x.BookOf(name).live ==> HasRowIn(file, name, id))
  }

  predicate HasRowIn(file: seq<Row>, name: string, id: nat) {
    exists i :: 0 <= i < |file| && file[i].market == name && file[i].data.id == id
  }

  /** The order maps name each order by its own ID, and no ID is in two of them. */
  ghost predicate MapsApart(x: Exchange) {
    && (forall name, id :: id in x.BookOf(name).live ==> x.BookOf(name).live[id].id == id)
    && (forall a, b, id :: id in x.BookOf(a).live && id in x.BookOf(b).live ==> a == b)
  }

  lemma OrderlyMapsApart(x: Exchange)
    requires Orderly(x)
    ensures MapsApart(x)
  {
    forall name, id | id in x.BookOf(name).live ensures x.BookOf(name).live[id].id == id {
      assert MarketSound(x, name);
    }
    forall a, b, id | id in x.BookOf(a).live && id in x.BookOf(b).live ensures a == b {
      if a != b { IdsApart(x, a, b, id); }
    }
  }

  /** An order rests in one market only. */
  lemma IdsApart(x: Exchange, a: string, b: string, id: nat)
    requires Orderly(x) && a != b && id in x.BookOf(a).live
    ensures id !in x.BookOf(b).live
  {
    assert MarketSound(x, a) && MarketSound(x, b);
    var o := x.BookOf(a).live[id];
    LiveIsUncanceled(x.Slice(a), o);
    QueuedElsewhere(x, b, a, o);
    if id in x.BookOf(b).live { LiveIsUncanceled(x.Slice(b), x.BookOf(b).live[id]); }
  }

  lemma DumpedNext(file: seq<Row>, x: Exchange, todo: set<string>, name: string, rows: seq<Row>)
    requires MapsApart(x) && Dumped(file, x, todo) && name in todo
    requires RowsOf(rows, name, x.BookOf(name).live, {}, x.table)
    ensures Dumped(file + rows, x, todo - {name})
  {
    var next := file + rows;
    forall i | 0 <= i < |next| ensures RowOfLive(next[i], x) && next[i].market !in todo - {name} {
      if i >= |file| { assert RowOf(rows[i - |file|], name, x.BookOf(name).live, x.table); }
    }
    forall i, j | 0 <= i < j < |next| ensures next[i].data.id != next[j].data.id {
      if i < |file| <= j {
        assert RowOfLive(next[i], x) && RowOfLive(next[j], x);
      }
    }
    forall n, id | n !in todo - {name} && id in x.BookOf(n).live ensures HasRowIn(next, n, id) {
      if n == name {
        assert HasRow(rows, id);
        var i :| 0 <= i < |rows| && rows[i].data.id == id;
        assert RowOf(rows[i], name, x.BookOf(name).live, x.table);
        assert next[|file| + i] == rows[i];
      } else {
        assert HasRowIn(file, n, id);
        var i :| 0 <= i < |file| && file[i].market == n && file[i].data.id == id;
        assert next[i] == file[i];
      }
    }
  }

  /** The outer loop; the markets come in any order. */
  method DumpOrdersToFile(lives: map<string, map<nat, Order>>, cells: map<nat, Cell>, ghost x: Exchange)
    returns (file: seq<Row>)
    requires MapsApart(x) && cells == x.table
    requires lives.Keys == x.books.Keys && forall n :: n in lives ==> lives[n] == x.books[n].live
    ensures IsDump(file, x)
  {
    file := [];
    var todo := lives.Keys;
    while todo != {}
      invariant todo <= lives.Keys && Dumped(file, x, todo)
      decreases todo
    {
      var market: string :| market in todo;
      assert lives[market] == x.BookOf(market).live;
      var rows := DumpMarket(market, lives[market], cells);
      DumpedNext(file, x, todo, market, rows);
      file := file + rows;
      todo := todo - {market};
    }
    forall name, id | id in x.BookOf(name).live
      ensures exists i :: 0 <= i < |file| && file[i].market == name && file[i].data.id == id
    {
      assert HasRowIn(file, name, id);
    }
  }

  /** `LoadOrdersFromFile` groups the rows by market. */
  method LoadOrdersFromFile(file: seq<Row>) returns (result: map<string, seq<OrderData>>)
    ensures forall m :: (if m in result then result[m] else []) == ListIn(file, m)
  {
    result := map[];
    for i := 0 to |file|
      invariant forall m :: (if m in result then result[m] else []) == ListIn(file[..i], m)
    {
      var market := file[i].market;
      assert file[..i + 1][..i] == file[..i];
      result := result[market := (if market in result then result[market] else []) + [file[i].data]];
    }
    assert file[..|file|] == file;
  }

  /** `LoadOrdersToEngine`, one market: each active order is put into the book. */
  method LoadBook(ob: OrderBook, list: seq<OrderData>)
    requires ob.Valid() && ob.View() == EMPTY_BOOK
    modifies ob, ob.bids, ob.asks
    ensures ob.View() == RestoredBook(list)
  {
    for i := 0 to |list|
      invariant ob.View() == RestoredBook(list[..i])
    {
      assert list[..i + 1][..i] == list[..i];
      if IsActive(list[i]) { ob.Add(OrderOf(list[i])); }
    }
    assert list[..|list|] == list;
  }

  // ---------- balances ----------

  lemma OnePartIff(s: string, c: char, start: nat)
    requires start <= |s|
    ensures |Parts(s, [c], start)| == 1 <==> c !in s[start..]
  {
    var k := First(s, [c], start);
    FirstMeans(s, [c], start);
    if k < |s| {
      AtChar(s, c, k);
      JoinParts(s, [c], k + 1);
      assert s[start..][k - start] == c;
    } else {
      forall j | start <= j < |s| ensures s[j] != c {
        assert !At(s, [c], j);
        AtChar(s, c, j);
      }
    }
  }

  /** A balance key has two parts exactly when the asset name has no colon, and the first
      part is then the user. */
  lemma KeyHasTwoPartsIff(u: nat, a: string)
    ensures var parts := Split(Key(u, a), ":");
            && (|parts| == 2 <==> ':' !in a)
            && |parts| >= 2 && StringToNat(parts[0]) == u
  {
    var s, p := Key(u, a), NatToString(u);
    DigitsHaveNoColon(u);
    NatRoundTrip(u);
    assert s[0..|p|] == p && s[|p|] == ':';
    LeadingPart(s, 0, p, ':');
    OnePartIff(s, ':', |p| + 1);
    assert s[|p| + 1..] == a;
    JoinParts(s, ":", |p| + 1);
  }

  /** The accounts that come back. */
  function Kept(l: Ledger): Ledger { map k | k in l && ':' !in k.asset :: l[k] }

  lemma KeptIsAllIff(l: Ledger)
    ensures Kept(l) == l <==> forall k :: k in l ==> ':' !in k.asset
  {
    if Kept(l) == l {
      forall k | k in l ensures ':' !in k.asset { assert k in Kept(l); }
    }
  }

  /** The part of the ledger whose keys are done. */
  ghost function KeptBut(l: Ledger, todo: set<string>): Ledger {
    map k | k in l && ':' !in k.asset && Key(k.userId, k.asset) !in todo :: l[k]
  }

  lemma KeptNext(l: Ledger, todo: set<string>, k: Acct)
    requires k in l && Key(k.userId, k.asset) in todo
    ensures var key := Key(k.userId, k.asset);
            KeptBut(l, todo - {key}) == if ':' in k.asset then KeptBut(l, todo) else KeptBut(l, todo)[k := l[k]]
  {
    forall other | other in l && Key(other.userId, other.asset) == Key(k.userId, k.asset) ensures other == k {
      KeyInjective(other.userId, other.asset, k.userId, k.asset);
    }
  }

  /** `LoadBalancesToEngine`: a key that does not split in two is skipped. */
  method LoadBalances(bm: BalanceManager, balances: map<string, Balance>, ghost l: Ledger)
    requires bm.Valid() && bm.ledger == map[] && Represents(balances, l)
    modifies bm
    ensures bm.Valid() && bm.ledger == Kept(l)
  {
    var todo := balances.Keys;
    while todo != {}
      invariant todo <= balances.Keys && bm.Valid() && bm.ledger == KeptBut(l, todo)
      decreases todo
    {
      var key: string :| key in todo;
      var bal := balances[key];
      var parts := SplitString(key, ":");
      BalanceOfKey(balances, l, key);
      KeptNext(l, todo, Acct(bal.userId, bal.asset));
      todo := todo - {key};
      if |parts| == 2 {
        var userId := StringToNat(parts[0]);
        bm.SetBalance(userId, bal.asset, bal.available, bal.frozen);
      }
    }
    assert KeptBut(l, {}) == Kept(l);
  }

  lemma BalanceOfKey(m: map<string, Balance>, l: Ledger, key: string)
    requires Represents(m, l) && key in m
    ensures var b := m[key]; var k := Acct(b.userId, b.asset);
            && key == Key(b.userId, b.asset) && k in l && l[k] == Bal(b.available, b.frozen)
            && (|Split(key, ":")| == 2 <==> ':' !in b.asset) && |Split(key, ":")| >= 2
               && StringToNat(Split(key, ":")[0]) == b.userId
  {
    KeyHasTwoPartsIff(m[key].userId, m[key].asset);
  }

}
