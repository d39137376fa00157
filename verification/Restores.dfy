/** An orderly engine saved to a file and loaded into a fresh one. */
module Restores {
  import opened Orders
  import opened PriceQueues
  import opened Ledgers
  import opened Sums
  import opened Matching
  import opened SoundBooks
  import opened Solvency
  import opened Exchanges
  import opened OrderlyRuns
  import opened Snapshots
  import opened Loads

  // ---------- the orders file ----------

  /** One line for each live order, in whatever order. */
  ghost predicate IsDump(file: seq<Row>, x: Exchange) {
    && (forall i :: 0 <= i < |file| ==> RowOfLive(file[i], x))
    && (forall i, j :: 0 <= i < j < |file| ==> file[i].data.id != file[j].data.id)
    && (forall name, id :: id in x.BookOf(name).live ==>
       exists i :: 0 <= i < |file| && file[i].market == name && file[i].data.id == id)
  }

  predicate RowOfLive(row: Row, x: Exchange) {
    var c := x.Slice(row.market);
    row.data.id in c.book.live && row.data == SavedOrder(c, c.book.live[row.data.id])
  }

  lemma DumpLists(file: seq<Row>, x: Exchange, name: string)
    requires IsDump(file, x)
    ensures Lists(ListIn(file, name), x.Slice(name))
  {
    var list, c := ListIn(file, name), x.Slice(name);
    ListInMeans(file, name);
    forall i | 0 <= i < |list|
      ensures list[i].id in c.book.live && list[i] == SavedOrder(c, c.book.live[list[i].id])
    {
      assert list[i] in list;
      var j :| 0 <= j < |file| && file[j] == Row(name, list[i]);
      assert RowOfLive(file[j], x);
    }
    forall id | id in c.book.live
      ensures exists i :: 0 <= i < |list| && list[i].id == id
    {
      var j :| 0 <= j < |file| && file[j].market == name && file[j].data.id == id;
      assert Occurs(file, name, file[j].data);
      assert file[j].data in list;
    }
  }

  // ---------- the loaded engine ----------

  lemma LiveCell(file: seq<Row>, x: Exchange, name: string, o: Order)
    requires Orderly(x) && IsDump(file, x) && o.id in x.BookOf(name).live && x.BookOf(name).live[o.id] == o
    ensures var c := x.Slice(name); o.id in CellsIn(file) && CellsIn(file)[o.id] == Cell(o, c.Left(o), c.Status(o))
  {
    var c := x.Slice(name);
    assert MarketSound(x, name);
    CellsInMeans(file);
    var i :| 0 <= i < |file| && file[i].market == name && file[i].data.id == o.id;
    assert RowOfLive(file[i], x);
    LiveIsActive(c, o);
    CellRoundTrip(o, c.Left(o), c.Status(o));
  }

  ghost predicate IdsUpTo(file: seq<Row>, n: nat) { forall i :: 0 <= i < |file| ==> file[i].data.id <= n }

  /** The loaded book of a market: its order map and its heaps. */
  ghost predicate BookBack(c: Core, b: Book) {
    && b.live == c.book.live
    && forall side: Side :: IsHeap(b.Queue(side)) && Once(b.Queue(side))
         && forall o :: o in b.Queue(side) <==> o in c.book.Queue(side) && c.Status(o) != Canceled
  }

  lemma BooksBack(file: seq<Row>, x: Exchange, ledger: Ledger, n: nat, name: string)
    requires Orderly(x) && IsDump(file, x)
    ensures BookBack(x.Slice(name), Restored(x.markets, file, ledger, n).BookOf(name))
  {
    assert MarketSound(x, name);
    DumpLists(file, x, name);
    BookRestored(ListIn(file, name), x.Slice(name));
    BookOfRestored(x.markets, file, ledger, n, name);
  }

  lemma QueuedIsLive(c: Core, b: Book, o: Order, side: Side)
    requires Sound(c) && BookBack(c, b) && o in b.Queue(side)
    ensures o in c.book.Queue(side) && o.id in c.book.live && c.book.live[o.id] == o
  {
    assert c.book.Queued(o);
    LiveIsUncanceled(c, o);
  }

  /** A dumped row: the live order it stands for, resting in the engine that was dumped. */
  lemma RowStandsFor(file: seq<Row>, x: Exchange, i: nat)
    requires Orderly(x) && IsDump(file, x) && i < |file|
    ensures var c, o := x.Slice(file[i].market), OrderOf(file[i].data);
            && file[i].market in x.books && IsActive(file[i].data) && file[i].data.left == c.Left(o)
            && Resting(c, o, o.side) && o in c.book.Queue(o.side) && o.market == file[i].market
  {
    var c := x.Slice(file[i].market);
    assert MarketSound(x, file[i].market) && RowOfLive(file[i], x);
    var o := c.book.live[file[i].data.id];
    assert c.book.Queued(o);
    LiveIsActive(c, o);
    if o in c.book.bids { assert Resting(c, o, Bid); } else { assert Resting(c, o, Ask); }
  }

  /** A dump of an orderly engine can be loaded whole exactly when the ID counter has passed the
      dumped orders. The program starts it at 0, so that is when there are none. */
  lemma DumpIsLoadableIff(file: seq<Row>, x: Exchange, n: nat)
    requires Orderly(x) && IsDump(file, x)
    ensures Loadable(x.markets, file, n) <==> IdsUpTo(file, n)
  {
    forall i | 0 <= i < |file|
      ensures file[i].market in x.markets && IsActive(file[i].data) && (RowFits(file[i], n) <==> file[i].data.id <= n)
    {
      RowStandsFor(file, x, i);
    }
    forall i, j | 0 <= i < |file| && 0 <= j < |file| ensures RowsApart(file[i], file[j]) {
      RowStandsFor(file, x, i);
      RowStandsFor(file, x, j);
      assert MarketSound(x, file[i].market);
    }
  }

  // ---------- the funds ----------

  lemma {:induction false} TotalWithout(q: seq<Order>, r: seq<Order>, f: Order -> real)
    requires Once(q) && Once(r)
    requires forall o :: o in r ==> o in q
    requires forall o :: o in q && o !in r ==> f(o) == 0.0
    ensures Total(q, f) == Total(r, f)
  {
    assert r != [] ==> r[0] in r;
    if q != [] {
      var x := q[0];
      var rest := q[1..];
      assert q == [x] + rest;
      OnceTail(q);
      if x in r {
        var i :| 0 <= i < |r| && r[i] == x;
        OnceWithout(r, i);
        TotalExtract(r, i, f);
        TotalWithout(rest, r[..i] + r[i + 1..], f);
      } else {
        TotalWithout(rest, r, f);
      }
    }
  }

  lemma OnceTail(q: seq<Order>)
    requires Once(q) && q != []
    ensures Once(q[1..]) && q[0] !in q[1..] && forall o :: o in q <==> o == q[0] || o in q[1..]
  {
    assert q == [q[0]] + q[1..];
    assert multiset(q) == multiset{q[0]} + multiset(q[1..]);
    assert q[0] in q;
    forall o | o in q[1..] ensures multiset(q[1..])[o] == 1 {
      assert o in q && o in multiset(q[1..]);
    }
    assert q[0] !in multiset(q[1..]);
  }

  lemma OnceWithout(q: seq<Order>, i: nat)
    requires Once(q) && i < |q|
    ensures var r := q[..i] + q[i + 1..]; Once(r) && forall o :: o in r <==> o in q && o != q[i]
  {
    var r := q[..i] + q[i + 1..];
    assert q == q[..i] + [q[i]] + q[i + 1..];
    assert multiset(q) == multiset(r) + multiset{q[i]};
    assert q[i] in q;
    forall o ensures o in r <==> o in q && o != q[i] {
      assert o in r <==> o in multiset(r);
      assert o in q <==> o in multiset(q);
      if o in q { assert multiset(q)[o] == 1; }
    }
    forall o | o in r ensures multiset(r)[o] == 1 {
      assert o in q;
    }
  }

  /** What the resting orders of a market may still need is the same again. */
  lemma ClaimBack(c: Core, c': Core, m: Market, k: Acct)
    requires Sound(c) && BookBack(c, c'.book)
    requires forall o: Order :: o.id in c.book.live && c.book.live[o.id] == o ==> c'.Left(o) == c.Left(o)
    ensures Claim(c', m, k) == Claim(c, m, k)
  {
    var f, g := ClaimOf(c, k.userId), ClaimOf(c', k.userId);
    forall side: Side ensures SideClaim(c', side, k.userId) == SideClaim(c, side, k.userId) {
      var q, r := c.book.Queue(side), c'.book.Queue(side);
      assert QueueSound(c, side);
      forall o | o in q && o !in r ensures f(o) == 0.0 { assert Resting(c, o, side); }
      TotalWithout(q, r, f);
      forall o | o in r ensures f(o) == g(o) { QueuedIsLive(c, c'.book, o, side); }
      TotalSame(r, f, g);
    }
  }

  lemma MarketClaimBack(file: seq<Row>, x: Exchange, ledger: Ledger, n: nat, k: Acct, name: string)
    requires Orderly(x) && IsDump(file, x)
    ensures ClaimIn(Restored(x.markets, file, ledger, n), k)(name) == ClaimIn(x, k)(name)
  {
    var c, c' := x.Slice(name), Restored(x.markets, file, ledger, n).Slice(name);
    assert MarketSound(x, name);
    BooksBack(file, x, ledger, n, name);
    forall o: Order | o.id in c.book.live && c.book.live[o.id] == o ensures c'.Left(o) == c.Left(o) {
      LiveCell(file, x, name, o);
    }
    ClaimBack(c, c', MarketIn(x.markets, name), k);
  }

  lemma {:induction false} SetTotalSubset(s: set<string>, t: set<string>, f: string -> real)
    requires s <= t && forall n :: n in t && n !in s ==> f(n) == 0.0
    ensures SetTotal(s, f) == SetTotal(t, f)
    decreases |t|
  {
    if n :| n in t && n !in s {
      SetTotalRemove(t, n, f);
      SetTotalSubset(s, t - {n}, f);
    } else {
      assert s == t;
    }
  }

  lemma BooksRestored(file: seq<Row>, x: Exchange, ledger: Ledger, n: nat)
    requires IsDump(file, x)
    ensures Restored(x.markets, file, ledger, n).books.Keys <= x.books.Keys
  {
    forall name | name in Restored(x.markets, file, ledger, n).books ensures name in x.books {
      var row :| row in file && row.market == name;
      var i :| 0 <= i < |file| && file[i] == row;
      assert RowOfLive(file[i], x);
    }
  }

  lemma SameTotal(s: set<string>, t: set<string>, f: string -> real, g: string -> real)
    requires s <= t && (forall n :: f(n) == g(n)) && forall n :: n !in s ==> g(n) == 0.0
    ensures SetTotal(s, g) == SetTotal(t, f)
  {
    SetTotalSubset(s, t, f);
    SetTotalSame(s, f, g);
  }

  lemma TotalClaimBack(file: seq<Row>, x: Exchange, ledger: Ledger, n: nat, k: Acct)
    requires Orderly(x) && IsDump(file, x)
    ensures TotalClaim(Restored(x.markets, file, ledger, n), k) == TotalClaim(x, k)
  {
    var x' := Restored(x.markets, file, ledger, n);
    forall name ensures ClaimIn(x', k)(name) == ClaimIn(x, k)(name) { MarketClaimBack(file, x, ledger, n, k, name); }
    forall name | name !in x'.books ensures ClaimIn(x', k)(name) == 0.0 {
    }
    BooksRestored(file, x, ledger, n);
    SameTotal(x'.books.Keys, x.books.Keys, ClaimIn(x, k), ClaimIn(x', k));
  }

  /** With the ledger restored, frozen funds cover the loaded orders as they did before. */
  lemma RestoredIsSolvent(file: seq<Row>, x: Exchange, n: nat)
    requires Orderly(x) && Solvent(x) && IsDump(file, x)
    ensures Solvent(Restored(x.markets, file, x.ledger, n))
  {
    forall k: Acct ensures Held(x.ledger, k).frozen >= TotalClaim(Restored(x.markets, file, x.ledger, n), k) {
      TotalClaimBack(file, x, x.ledger, n, k);
    }
  }

  /** A run, a restart from its dump with the counter at or past the dumped IDs, and any further
      run: the books are sound and uncrossed, and the funds still cover all orders. */
  lemma RestartedRunIsOrderly(x: Exchange, before: seq<Op>, file: seq<Row>, n: nat, after: seq<Op>)
    requires Orderly(x) && Solvent(x)
    requires AllAdmitted(before) && NoStops(before) && AllAdmitted(after) && NoStops(after)
    requires IsDump(file, Run(x, before)) && IdsUpTo(file, n)
    ensures var y := Run(x, before);
            var z := Run(Restored(y.markets, file, y.ledger, n), after);
            Orderly(z) && Solvent(z)
  {
    var y := Run(x, before);
    RunIsOrderlyAndSolvent(x, before);
    DumpIsLoadableIff(file, y, n);
    RestoredIsOrderlyIff(y.markets, file, y.ledger, n);
    RestoredIsSolvent(file, y, n);
    RunIsOrderlyAndSolvent(Restored(y.markets, file, y.ledger, n), after);
  }
}
