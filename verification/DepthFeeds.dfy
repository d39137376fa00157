/** The depth feed: full broadcasts at first and at every clean interval, differences between. */
module DepthFeeds {
  import opened Options

  /** One side of a book: amounts by price, both as the strings that are sent. */
  type Levels = map<string, string>
  type Row = seq<string>

  datatype Snapshot = Snapshot(bids: Levels, asks: Levels)

  /** What the order book query answers. */
  datatype Reply = Failed | Depth(bids: seq<Row>, asks: seq<Row>)

  /** What subscribers get. `refresh` is known to the server alone: it is not sent. */
  datatype Update = Update(refresh: bool, bids: seq<Row>, asks: seq<Row>)

  // ---------- rows and levels ----------

  /** The levels of a full answer; a later row replaces an earlier one. */
  function Built(rows: seq<Row>): Levels {
    if rows == [] then map[]
    else
      var row := rows[|rows| - 1];
      var m := Built(rows[..|rows| - 1]);
      if |row| >= 2 then m[row[0] := row[1]] else m
  }

  /** What a client does with rows it takes as changes: "0" removes a level. */
  function Merged(m: Levels, rows: seq<Row>): Levels {
    if rows == [] then m
    else
      var row := rows[|rows| - 1];
      var n := Merged(m, rows[..|rows| - 1]);
      if |row| < 2 then n else if row[1] == "0" then n - {row[0]} else n[row[0] := row[1]]
  }

  predicate Changed(old_: Levels, new_: Levels, p: string) {
    p in new_ && (p !in old_ || old_[p] != new_[p])
  }

  predicate Gone(old_: Levels, new_: Levels, p: string) {
    p in old_ && p !in new_
  }

  /** `rows` has one row for each changed and each vanished price, in whatever order. */
  ghost predicate IsDiff(rows: seq<Row>, old_: Levels, new_: Levels) {
    && (forall i :: 0 <= i < |rows| ==> RowOfDiff(rows[i], old_, new_))
    && (forall i, j :: 0 <= i < j < |rows| ==> rows[i][0] != rows[j][0])
    && (forall p :: Changed(old_, new_, p) || Gone(old_, new_, p) ==> Listed(rows, p))
  }

  predicate RowOfDiff(row: Row, old_: Levels, new_: Levels) {
    && |row| == 2
    && (Changed(old_, new_, row[0]) || Gone(old_, new_, row[0]))
    && row[1] == if row[0] in new_ then new_[row[0]] else "0"
  }

  ghost predicate Listed(rows: seq<Row>, p: string)
    requires forall i :: 0 <= i < |rows| ==> |rows[i]| == 2
  {
    exists i :: 0 <= i < |rows| && rows[i][0] == p
  }

  // ---------- a difference does what it should ----------

  lemma {:induction false} MergedAt(m: Levels, rows: seq<Row>, p: string, i: nat)
    requires forall k :: 0 <= k < |rows| ==> |rows[k]| == 2
    requires forall k, l :: 0 <= k < l < |rows| ==> rows[k][0] != rows[l][0]
    requires i <= |rows|
    requires forall k :: 0 <= k < |rows| ==> (rows[k][0] == p <==> k == i)
    ensures var r := Merged(m, rows);
            if i < |rows| then (if rows[i][1] == "0" then p !in r else p in r && r[p] == rows[i][1])
            else (p in r <==> p in m) && (p in m ==> r[p] == m[p])
  {
    if rows != [] {
      var n := |rows| - 1;
      MergedAt(m, rows[..n], p, if i >= n then n else i);
    }
  }

  /** The client that had the old levels has the new ones after the difference, exactly when
      no price changed to the amount "0", which the client takes for a removal. */
  lemma DiffAppliesIff(rows: seq<Row>, old_: Levels, new_: Levels)
    requires IsDiff(rows, old_, new_)
    ensures Merged(old_, rows) == new_ <==> forall p :: Changed(old_, new_, p) ==> new_[p] != "0"
  {
    var r := Merged(old_, rows);
    forall p
      ensures Changed(old_, new_, p) ==> if new_[p] == "0" then p !in r else p in r && r[p] == new_[p]
      ensures Gone(old_, new_, p) ==> p !in r
      ensures !Changed(old_, new_, p) && !Gone(old_, new_, p) ==>
          (p in r <==> p in new_) && (p in r ==> r[p] == new_[p])
    {
      if Changed(old_, new_, p) || Gone(old_, new_, p) {
        assert Listed(rows, p);
        var i :| 0 <= i < |rows| && rows[i][0] == p;
        MergedAt(old_, rows, p, i);
      } else {
        MergedAt(old_, rows, p, |rows|);
      }
    }
    if r == new_ {
      forall p | Changed(old_, new_, p) ensures new_[p] != "0" { assert p in r; }
    }
  }

  // ---------- refreshes are not marked ----------

  predicate NoZero(rows: seq<Row>) {
    forall row :: row in rows && |row| >= 2 ==> row[1] != "0"
  }

  lemma {:induction false} MergedOverBuilt(m: Levels, rows: seq<Row>, p: string)
    requires NoZero(rows)
    ensures var r, b := Merged(m, rows), Built(rows);
            if p in b then p in r && r[p] == b[p] else (p in r <==> p in m) && (p in m ==> r[p] == m[p])
  {
    if rows != [] { MergedOverBuilt(m, rows[..|rows| - 1], p); }
  }

  /** A client cannot tell a refresh from a difference. Taking one for a difference is right
      exactly when no level it holds has vanished. */
  lemma RefreshMergesIff(m: Levels, rows: seq<Row>)
    requires NoZero(rows)
    ensures Merged(m, rows) == Built(rows) <==> forall p :: p in m ==> p in Built(rows)
  {
    var r, b := Merged(m, rows), Built(rows);
    forall p
      ensures if p in b then p in r && r[p] == b[p] else (p in r <==> p in m) && (p in m ==> r[p] == m[p])
    {
      MergedOverBuilt(m, rows, p);
    }
  }

  // ---------- one poll of one key ----------

  /** What the server keeps for a key. */
  datatype Feed = Feed(snapshot: Option<Snapshot>, lastClean: int)

  /** A poll at time `now` may take `f` to `g` and send `sent`. The order of the rows in a
      difference is left open. */
  ghost predicate Polled(f: Feed, now: int, interval: int, reply: Reply, g: Feed, sent: Option<Update>) {
    match reply
    case Failed => g == f && sent == None
    case Depth(bids, asks) =>
      var needClean := interval > 0 && now - f.lastClean >= interval;
      && g.snapshot == Some(Snapshot(Built(bids), Built(asks)))
      && if f.snapshot.None? || needClean
         then sent == Some(Update(true, bids, asks)) && g.lastClean == now
         else && g.lastClean == f.lastClean
              && sent.Some? && !sent.value.refresh
              && IsDiff(sent.value.bids, f.snapshot.value.bids, Built(bids))
              && IsDiff(sent.value.asks, f.snapshot.value.asks, Built(asks))
  }

  // ---------- the client, over whole runs ----------

  datatype Event = Event(now: int, reply: Reply, sent: Option<Update>)

  /** The client that starts afresh at a refresh. */
  function Seen(view: Snapshot, sent: Option<Update>): Snapshot {
    match sent
    case None => view
    case Some(u) =>
      if u.refresh then Snapshot(Built(u.bids), Built(u.asks))
      else Snapshot(Merged(view.bids, u.bids), Merged(view.asks, u.asks))
  }

  /** The client that takes every update for a difference. */
  function SeenAsDiff(view: Snapshot, sent: Option<Update>): Snapshot {
    match sent
    case None => view
    case Some(u) => Snapshot(Merged(view.bids, u.bids), Merged(view.asks, u.asks))
  }

  function View(view: Snapshot, events: seq<Event>, n: nat): Snapshot
    requires n <= |events|
  {
    if n == 0 then view else Seen(View(view, events, n - 1), events[n - 1].sent)
  }

  function ViewAsDiffs(view: Snapshot, events: seq<Event>, n: nat): Snapshot
    requires n <= |events|
  {
    if n == 0 then view else SeenAsDiff(ViewAsDiffs(view, events, n - 1), events[n - 1].sent)
  }

  /** `feeds` is what the server holds before, between and after the polls. */
  ghost predicate IsRun(feeds: seq<Feed>, interval: int, events: seq<Event>) {
    && |feeds| == |events| + 1
    && forall i :: 0 <= i < |events| ==> RunStep(feeds, interval, events, i)
  }

  ghost predicate RunStep(feeds: seq<Feed>, interval: int, events: seq<Event>, i: nat)
    requires |feeds| == |events| + 1 && i < |events|
  {
    Polled(feeds[i], events[i].now, interval, events[i].reply, feeds[i + 1], events[i].sent)
  }

  predicate NoZeroAmounts(events: seq<Event>) {
    forall e :: e in events && e.reply.Depth? ==> NoZero(e.reply.bids) && NoZero(e.reply.asks)
  }

  lemma {:induction false} BuiltNoZero(rows: seq<Row>)
    requires NoZero(rows)
    ensures forall p :: p in Built(rows) ==> Built(rows)[p] != "0"
  {
    if rows != [] { BuiltNoZero(rows[..|rows| - 1]); }
  }

  lemma SeenInStep(view: Snapshot, f: Feed, now: int, interval: int, reply: Reply, g: Feed, sent: Option<Update>)
    requires Polled(f, now, interval, reply, g, sent)
    requires reply.Depth? ==> NoZero(reply.bids) && NoZero(reply.asks)
    requires f.snapshot == Some(view) || (sent.Some? && sent.value.refresh)
    ensures g.snapshot == Some(Seen(view, sent))
  {
    if reply.Depth? && !sent.value.refresh {
      BuiltNoZero(reply.bids);
      BuiltNoZero(reply.asks);
      DiffAppliesIff(sent.value.bids, view.bids, Built(reply.bids));
      DiffAppliesIff(sent.value.asks, view.asks, Built(reply.asks));
    }
  }

  /** From a full broadcast on, the client holds the server's snapshot after every poll. */
  lemma {:induction false} ClientInStep(feeds: seq<Feed>, interval: int, events: seq<Event>, view: Snapshot, k: nat,
                                        n: nat)
    requires IsRun(feeds, interval, events) && NoZeroAmounts(events)
    requires k < n <= |events| && events[k].sent.Some? && events[k].sent.value.refresh
    ensures feeds[n].snapshot == Some(View(view, events, n))
    decreases n
  {
    assert RunStep(feeds, interval, events, n - 1);
    if k < n - 1 { ClientInStep(feeds, interval, events, view, k, n - 1); }
    assert events[n - 1] in events;
    var e := events[n - 1];
    SeenInStep(View(view, events, n - 1), feeds[n - 1], e.now, interval, e.reply, feeds[n], e.sent);
  }

  predicate Within(a: Levels, b: Levels) {
    forall p :: p in a ==> p in b && b[p] == a[p]
  }

  lemma MergedWithin(a: Levels, b: Levels, rows: seq<Row>, c: Levels)
    requires Within(a, b) && IsDiff(rows, a, c)
    requires forall p :: p in c ==> c[p] != "0"
    ensures Within(c, Merged(b, rows))
  {
    forall p | p in c
      ensures p in Merged(b, rows) && Merged(b, rows)[p] == c[p]
    {
      if Changed(a, c, p) {
        assert Listed(rows, p);
        var i :| 0 <= i < |rows| && rows[i][0] == p;
        MergedAt(b, rows, p, i);
      } else {
        MergedAt(b, rows, p, |rows|);
      }
    }
  }

  lemma RefreshWithin(b: Levels, rows: seq<Row>)
    requires NoZero(rows)
    ensures Within(Built(rows), Merged(b, rows))
  {
    forall p | p in Built(rows)
      ensures p in Merged(b, rows) && Merged(b, rows)[p] == Built(rows)[p]
    {
      MergedOverBuilt(b, rows, p);
    }
  }

  lemma SeenAsDiffInStep(view: Snapshot, f: Feed, now: int, interval: int, reply: Reply, g: Feed, sent: Option<Update>)
    requires Polled(f, now, interval, reply, g, sent)
    requires reply.Depth? ==> NoZero(reply.bids) && NoZero(reply.asks)
    requires f.snapshot.Some? ==> Within(f.snapshot.value.bids, view.bids) && Within(f.snapshot.value.asks, view.asks)
    ensures g.snapshot.Some? ==> Within(g.snapshot.value.bids, SeenAsDiff(view, sent).bids)
                                 && Within(g.snapshot.value.asks, SeenAsDiff(view, sent).asks)
  {
    if reply.Depth? {
      if sent.value.refresh {
        RefreshWithin(view.bids, reply.bids);
        RefreshWithin(view.asks, reply.asks);
      } else {
        BuiltNoZero(reply.bids);
        BuiltNoZero(reply.asks);
        MergedWithin(f.snapshot.value.bids, view.bids, sent.value.bids, Built(reply.bids));
        MergedWithin(f.snapshot.value.asks, view.asks, sent.value.asks, Built(reply.asks));
      }
    }
  }

  /** A client that takes every update for a difference has every level right and can only
      hold levels too many. */
  lemma {:induction false} DiffClientHoldsAll(feeds: seq<Feed>, interval: int, events: seq<Event>, view: Snapshot,
                                              n: nat)
    requires IsRun(feeds, interval, events) && NoZeroAmounts(events)
    requires feeds[0].snapshot.None? && n <= |events|
    ensures feeds[n].snapshot.Some? ==> Within(feeds[n].snapshot.value.bids, ViewAsDiffs(view, events, n).bids)
                                        && Within(feeds[n].snapshot.value.asks, ViewAsDiffs(view, events, n).asks)
  {
    if n > 0 {
      DiffClientHoldsAll(feeds, interval, events, view, n - 1);
      assert RunStep(feeds, interval, events, n - 1);
      assert events[n - 1] in events;
      var e := events[n - 1];
      SeenAsDiffInStep(ViewAsDiffs(view, events, n - 1), feeds[n - 1], e.now, interval, e.reply, feeds[n], e.sent);
    }
  }

  // ---------- when a broadcast is whole ----------

  predicate IsRefresh(e: Event) { e.sent.Some? && e.sent.value.refresh }

  /** When the last whole broadcast was sent. */
  function LastRefresh(events: seq<Event>, n: nat, start: int): int
    requires n <= |events|
  {
    if n == 0 then start else if IsRefresh(events[n - 1]) then events[n - 1].now else LastRefresh(events, n - 1, start)
  }

  ghost predicate AnsweredBefore(events: seq<Event>, n: nat)
    requires n <= |events|
  {
    exists i :: 0 <= i < n && events[i].reply.Depth?
  }

  lemma {:induction false} FeedAfter(feeds: seq<Feed>, interval: int, events: seq<Event>, n: nat)
    requires IsRun(feeds, interval, events) && feeds[0] == Feed(None, 0) && n <= |events|
    ensures feeds[n].lastClean == LastRefresh(events, n, 0)
    ensures feeds[n].snapshot.Some? <==> AnsweredBefore(events, n)
  {
    if n > 0 {
      FeedAfter(feeds, interval, events, n - 1);
      assert RunStep(feeds, interval, events, n - 1);
      if events[n - 1].reply.Depth? {
        assert 0 <= n - 1 < n;
      } else if AnsweredBefore(events, n) {
        var i :| 0 <= i < n && events[i].reply.Depth?;
        assert i < n - 1;
      }
    }
  }

  /** Every answered poll sends something, and nothing else does. It is sent whole exactly for the
      first answer and where the interval is positive and has passed since the last whole one. */
  lemma RefreshIff(feeds: seq<Feed>, interval: int, events: seq<Event>, n: nat)
    requires IsRun(feeds, interval, events) && feeds[0] == Feed(None, 0) && n < |events|
    ensures events[n].sent.Some? <==> events[n].reply.Depth?
    ensures IsRefresh(events[n]) <==>
              && events[n].reply.Depth?
              && (!AnsweredBefore(events, n)
                  || (interval > 0 && events[n].now - LastRefresh(events, n, 0) >= interval))
  {
    FeedAfter(feeds, interval, events, n);
    assert RunStep(feeds, interval, events, n);
  }

  // ---------- the polling loop ----------

  method BuildLevels(rows: seq<Row>) returns (m: Levels)
    ensures m == Built(rows)
  {
    m := map[];
    for i := 0 to |rows|
      invariant m == Built(rows[..i])
    {
      assert rows[..i + 1][..i] == rows[..i];
      if |rows[i]| >= 2 { m := m[rows[i][0] := rows[i][1]]; }
    }
    assert rows[..|rows|] == rows;
  }

  /** One side of `computeDepthDiffModel`. The loops visit the prices in any order. */
  method DiffSide(old_: Levels, new_: Levels) returns (updated: seq<Row>)
    ensures IsDiff(updated, old_, new_)
  {
    updated := [];
    var todo := new_.Keys;
    while todo != {}
      invariant todo <= new_.Keys
      invariant forall i :: 0 <= i < |updated| ==>
          RowOfDiff(updated[i], old_, new_) && updated[i][0] in new_ && updated[i][0] !in todo
      invariant forall i, j :: 0 <= i < j < |updated| ==> updated[i][0] != updated[j][0]
      invariant forall p :: Changed(old_, new_, p) && p !in todo ==> Listed(updated, p)
      decreases todo
    {
      var price :| price in todo;
      todo := todo - {price};
      if price !in old_ || old_[price] != new_[price] { updated := Extended(updated, [price, new_[price]]); }
    }
    todo := old_.Keys;
    while todo != {}
      invariant todo <= old_.Keys
      invariant forall i :: 0 <= i < |updated| ==>
          RowOfDiff(updated[i], old_, new_) && (updated[i][0] in new_ || updated[i][0] !in todo)
      invariant forall i, j :: 0 <= i < j < |updated| ==> updated[i][0] != updated[j][0]
      invariant forall p :: Changed(old_, new_, p) || (Gone(old_, new_, p) && p !in todo) ==> Listed(updated, p)
      decreases todo
    {
      var price :| price in todo;
      todo := todo - {price};
      if price !in new_ { updated := Extended(updated, [price, "0"]); }
    }
  }

  function Extended(rows: seq<Row>, row: Row): (r: seq<Row>)
    requires |row| == 2 && forall i :: 0 <= i < |rows| ==> |rows[i]| == 2
    ensures r == rows + [row]
    ensures Listed(r, row[0]) && forall p :: Listed(rows, p) ==> Listed(r, p)
  {
    var r := rows + [row];
    assert r[|rows|][0] == row[0];
    assert forall i :: 0 <= i < |rows| ==> r[i] == rows[i];
    r
  }

  /** The part of the subscription manager that the depth poll uses. */
  class DepthPoller {
    var snapshots: map<string, Snapshot>
    var lastClean: map<string, int>
    const interval: int

    constructor (interval: int)
      ensures snapshots == map[] && lastClean == map[] && this.interval == interval
    {
      this.interval := interval;
      snapshots, lastClean := map[], map[];
    }

    ghost function FeedOf(key: string): Feed
      reads this
    {
      Feed(if key in snapshots then Some(snapshots[key]) else None, if key in lastClean then lastClean[key] else 0)
    }

    method PollKey(key: string, now: int, reply: Reply) returns (sent: Option<Update>)
      modifies this
      ensures Polled(old(FeedOf(key)), now, interval, reply, FeedOf(key), sent)
      ensures forall k :: k != key ==> FeedOf(k) == old(FeedOf(k))
    {
      if reply.Failed? { return None; }
      var bids := BuildLevels(reply.bids);
      var asks := BuildLevels(reply.asks);
      var last := if key in lastClean then lastClean[key] else 0;
      var needClean := interval > 0 && now - last >= interval;
      if key !in snapshots || needClean {
        sent := Some(Update(true, reply.bids, reply.asks));
        lastClean := lastClean[key := now];
      } else {
        var bidRows := DiffSide(snapshots[key].bids, bids);
        var askRows := DiffSide(snapshots[key].asks, asks);
        sent := Some(Update(false, bidRows, askRows));
      }
      snapshots := snapshots[key := Snapshot(bids, asks)];
    }

    method PollDepth(now: int, replies: map<string, Reply>) returns (sent: map<string, Update>)
      modifies this
      ensures forall k :: k in replies ==>
                Polled(old(FeedOf(k)), now, interval, replies[k], FeedOf(k), if k in sent then Some(sent[k]) else None)
      ensures forall k :: k !in replies ==> FeedOf(k) == old(FeedOf(k)) && k !in sent
    {
      sent := map[];
      var todo := replies.Keys;
      while todo != {}
        invariant todo <= replies.Keys && sent.Keys <= replies.Keys - todo
        invariant forall k :: k in replies && k !in todo ==>
                    Polled(old(FeedOf(k)), now, interval, replies[k], FeedOf(k),
                           if k in sent then Some(sent[k]) else None)
        invariant forall k :: k in todo || k !in replies ==> FeedOf(k) == old(FeedOf(k))
        decreases todo
      {
        var key :| key in todo;
        todo := todo - {key};
        var update := PollKey(key, now, replies[key]);
        if update.Some? { sent := sent[key := update.value]; }
      }
    }
  }
}
