/** The four bucket maps of a market and their write-back store. */
module KlineStores {
  import opened Quotients
  import opened Sums

  datatype KlineType = Sec | Min | Hour | Day

  function Width(t: KlineType): (n: int)
    ensures n > 0
  {
    match t case Sec => 1 case Min => 60 case Hour => 3600 case Day => 86400
  }

  function BucketOf(t: KlineType, ts: int): int { Quotient(ts, Width(t)) * Width(t) }

  datatype KlineInfo = KlineInfo(open: real, close: real, high: real, low: real, volume: real, deal: real)
  datatype UpdateKey = UpdateKey(ktype: KlineType, ts: int)
  type Buckets = map<int, KlineInfo>

  datatype Info = Info(sec: Buckets, min: Buckets, hour: Buckets, day: Buckets, dirty: set<UpdateKey>) {
    function Of(t: KlineType): Buckets {
      match t case Sec => sec case Min => min case Hour => hour case Day => day
    }

    function With(t: KlineType, m: Buckets): Info {
      match t
      case Sec => this.(sec := m) case Min => this.(min := m) case Hour => this.(hour := m) case Day => this.(day := m)
    }

    predicate Has(key: UpdateKey) { key.ts in Of(key.ktype) }

    function At(key: UpdateKey): KlineInfo
      requires Has(key)
    {
      Of(key.ktype)[key.ts]
    }
  }

  const NO_INFO := Info(map[], map[], map[], map[], {})

  // ---------- one deal ----------

  function Blank(price: real): KlineInfo { KlineInfo(price, price, price, price, 0.0, 0.0) }

  function Traded(k: KlineInfo, price: real, amount: real): KlineInfo {
    k.(close := price, high := if price > k.high then price else k.high, low := if price < k.low then price else k.low,
       volume := k.volume + amount)
  }

  function Put(m: Buckets, ts: int, price: real, amount: real): Buckets {
    m[ts := Traded(if ts in m then m[ts] else Blank(price), price, amount)]
  }

  function Updated(info: Info, t: KlineType, ts: int, price: real, amount: real): Info {
    var key := BucketOf(t, ts);
    info.With(t, Put(info.Of(t), key, price, amount)).(dirty := info.dirty + {UpdateKey(t, key)})
  }

  // ---------- minutes add up to hours ----------

  lemma BucketTwice(t: KlineType, u: KlineType, ts: int)
    requires Width(u) % Width(t) == 0
    ensures BucketOf(u, BucketOf(t, ts)) == BucketOf(u, ts)
  {
    var b := Width(t);
    var c := Width(u) / b;
    assert Width(u) == b * c && c > 0;
    QuotientOfMultiple(ts, b, c);
  }

  lemma QuotientOfMultiple(ts: int, b: int, c: int)
    requires b > 0 && c > 0
    ensures Quotient(Quotient(ts, b) * b, b * c) == Quotient(ts, b * c)
  {
    var q := Quotient(ts, b);
    QuotientTwice(ts, b, c);
    QuotientTwice(q * b, b, c);
    QuotientOfProduct(q, b);
  }

  ghost function Members(narrow: Buckets, u: KlineType, h: int): set<int> {
    set ts | ts in narrow && BucketOf(u, ts) == h
  }

  ghost function VolumeAt(m: Buckets): int -> real {
    ts => if ts in m then m[ts].volume else 0.0
  }

  /** `k` is the roll-up of the buckets `s` of `m`: their volumes added, their extremes. */
  ghost predicate IsRollUp(k: KlineInfo, m: Buckets, s: set<int>)
    requires s <= m.Keys
  {
    && k.volume == SetTotal(s, VolumeAt(m))
    && (forall ts :: ts in s ==> k.low <= m[ts].low && m[ts].high <= k.high)
    && (exists ts :: ts in s && m[ts].high == k.high)
    && (exists ts :: ts in s && m[ts].low == k.low)
  }

  ghost predicate RollsUp(narrow: Buckets, wide: Buckets, u: KlineType) {
    && (forall ts :: ts in narrow ==> BucketOf(u, ts) in wide)
    && (forall h :: h in wide ==> IsRollUp(wide[h], narrow, Members(narrow, u, h)))
  }

  lemma RollUpPut(k: KlineInfo, m: Buckets, s: set<int>, n: int, price: real, amount: real)
    requires s <= m.Keys && (n in m <==> n in s)
    requires IsRollUp(k, m, s)
    ensures IsRollUp(Traded(k, price, amount), Put(m, n, price, amount), s + {n})
  {
    var m', k' := Put(m, n, price, amount), Traded(k, price, amount);
    SetTotalPut(s, n, VolumeAt(m), VolumeAt(m'));
    var hi :| hi in s && m[hi].high == k.high;
    var lo :| lo in s && m[lo].low == k.low;
    assert m'[if price > k.high then n else hi].high == k'.high;
    assert m'[if price < k.low then n else lo].low == k'.low;
  }

  lemma RollUpOther(k: KlineInfo, m: Buckets, s: set<int>, n: int, price: real, amount: real)
    requires s <= m.Keys && n !in s && IsRollUp(k, m, s)
    ensures IsRollUp(k, Put(m, n, price, amount), s)
  {
    var m' := Put(m, n, price, amount);
    SetTotalSame(s, VolumeAt(m), VolumeAt(m'));
    var hi :| hi in s && m[hi].high == k.high;
    var lo :| lo in s && m[lo].low == k.low;
    assert m'[hi].high == k.high && m'[lo].low == k.low;
  }

  lemma RollsUpStep(narrow: Buckets, wide: Buckets, t: KlineType, u: KlineType, ts: int, price: real, amount: real)
    requires Width(u) % Width(t) == 0 && RollsUp(narrow, wide, u)
    ensures RollsUp(Put(narrow, BucketOf(t, ts), price, amount), Put(wide, BucketOf(u, ts), price, amount), u)
  {
    var n, h := BucketOf(t, ts), BucketOf(u, ts);
    var narrow', wide' := Put(narrow, n, price, amount), Put(wide, h, price, amount);
    BucketTwice(t, u, ts);
    forall g | g in wide'
      ensures IsRollUp(wide'[g], narrow', Members(narrow', u, g))
    {
      var s := Members(narrow, u, g);
      if g != h {
        assert Members(narrow', u, g) == s;
        RollUpOther(wide[g], narrow, s, n, price, amount);
      } else {
        assert Members(narrow', u, g) == s + {n};
        if h in wide {
          RollUpPut(wide[h], narrow, s, n, price, amount);
        } else {
          assert s == {};
          assert s + {n} == {n};
        }
      }
    }
  }

  datatype Deal = Deal(ts: int, price: real, amount: real)

  function AllUpdated(info: Info, d: Deal): Info {
    Updated(Updated(Updated(Updated(info, Sec, d.ts, d.price, d.amount), Min, d.ts, d.price, d.amount),
                    Hour, d.ts, d.price, d.amount), Day, d.ts, d.price, d.amount)
  }

  function AfterDeals(deals: seq<Deal>): Info {
    if deals == [] then NO_INFO else AllUpdated(AfterDeals(deals[..|deals| - 1]), deals[|deals| - 1])
  }

  /** When each deal updates all four types, each wide bucket is the roll-up of the narrow
      buckets inside it: hours of minutes, minutes of seconds, days of hours. */
  lemma {:induction false} DealsRollUp(deals: seq<Deal>, t: KlineType, u: KlineType)
    requires Width(u) % Width(t) == 0
    ensures RollsUp(AfterDeals(deals).Of(t), AfterDeals(deals).Of(u), u)
  {
    if deals != [] {
      var rest, d := AfterDeals(deals[..|deals| - 1]), deals[|deals| - 1];
      DealsRollUp(deals[..|deals| - 1], t, u);
      RollsUpStep(rest.Of(t), rest.Of(u), t, u, d.ts, d.price, d.amount);
    }
  }

  // ---------- what a bucket says ----------

  /** The deals of one bucket, in order. */
  function DealsAt(t: KlineType, stamp: int, deals: seq<Deal>): seq<Deal> {
    if deals == [] then []
    else
      var rest, d := DealsAt(t, stamp, deals[..|deals| - 1]), deals[|deals| - 1];
      if BucketOf(t, d.ts) == stamp then rest + [d] else rest
  }

  /** First and last price, extremes, and the summed amounts; the turnover is never counted. */
  ghost predicate Tells(k: KlineInfo, ds: seq<Deal>)
    requires ds != []
  {
    && k.open == ds[0].price && k.close == ds[|ds| - 1].price
    && (forall d :: d in ds ==> k.low <= d.price <= k.high)
    && (exists d :: d in ds && d.price == k.low) && (exists d :: d in ds && d.price == k.high)
    && k.volume == Total(ds, Amounts()) && k.deal == 0.0
  }

  ghost function Amounts(): Deal -> real { (d: Deal) => d.amount }

  lemma TellsOne(d: Deal)
    ensures Tells(Traded(Blank(d.price), d.price, d.amount), [d])
  {
    assert d in [d];
    assert [d][1..] == [];
    assert Total([d], Amounts()) == d.amount + Total([d][1..], Amounts());
  }

  lemma TellsNext(k: KlineInfo, ds: seq<Deal>, d: Deal)
    requires ds != [] && Tells(k, ds)
    ensures Tells(Traded(k, d.price, d.amount), ds + [d])
  {
    var k' := Traded(k, d.price, d.amount);
    var low :| low in ds && low.price == k.low;
    var high :| high in ds && high.price == k.high;
    TotalSnoc(ds, d, Amounts());
    assert d in ds + [d] && low in ds + [d] && high in ds + [d];
    assert (if d.price < k.low then d else low).price == k'.low;
    assert (if d.price > k.high then d else high).price == k'.high;
  }

  ghost predicate TellsAt(m: Buckets, stamp: int, ds: seq<Deal>) {
    (stamp in m <==> ds != []) && (ds != [] ==> Tells(m[stamp], ds))
  }

  lemma PutTells(m: Buckets, key: int, stamp: int, ds: seq<Deal>, d: Deal)
    requires TellsAt(m, stamp, ds)
    ensures TellsAt(Put(m, key, d.price, d.amount), stamp, if key == stamp then ds + [d] else ds)
  {
    if key == stamp {
      if ds == [] {
        TellsOne(d);
        assert ds + [d] == [d];
      } else {
        TellsNext(m[stamp], ds, d);
      }
    }
  }

  /** Each bucket tells of exactly the deals whose times fall into it. */
  lemma {:induction false} BucketTells(deals: seq<Deal>, t: KlineType, stamp: int)
    ensures TellsAt(AfterDeals(deals).Of(t), stamp, DealsAt(t, stamp, deals))
  {
    if deals != [] {
      var front, d := deals[..|deals| - 1], deals[|deals| - 1];
      BucketTells(front, t, stamp);
      UpdatedType(AfterDeals(front), d, t);
      PutTells(AfterDeals(front).Of(t), BucketOf(t, d.ts), stamp, DealsAt(t, stamp, front), d);
    }
  }

  lemma UpdatedType(info: Info, d: Deal, t: KlineType)
    ensures AllUpdated(info, d).Of(t) == Put(info.Of(t), BucketOf(t, d.ts), d.price, d.amount)
  {
  }

  /** The stamp of a bucket is a multiple of its width that covers the time. */
  lemma StampCovers(t: KlineType, ts: int)
    ensures var stamp, n := BucketOf(t, ts), Width(t);
            && stamp % n == 0 && (ts >= 0 ==> stamp <= ts < stamp + n) && (ts <= 0 ==> stamp - n < ts <= stamp)
    ensures Width(Sec) == 1 && Width(Min) == 60 * Width(Sec) && Width(Hour) == 60 * Width(Min)
    ensures Width(Day) == 24 * Width(Hour)
  {
    QuotientCovers(ts, Width(t));
  }

  // ---------- the write-back store ----------

  datatype StoreKey = StoreKey(market: string, key: UpdateKey)
  type Stored = map<StoreKey, KlineInfo>
  type Memory = map<string, Info>

  /** The markets in memory, and the hashes in Redis. */
  datatype World = World(markets: Memory, store: Stored) {
    function InfoOf(name: string): Info { if name in markets then markets[name] else NO_INFO }

    predicate Holds(k: StoreKey) { InfoOf(k.market).Has(k.key) }

    /** The key is waiting to be written, and its bucket is still there. */
    predicate Waiting(k: StoreKey) { k.key in InfoOf(k.market).dirty && Holds(k) }
  }

  function Recorded(m: Memory, name: string, t: KlineType, ts: int, price: real, amount: real): Memory {
    m[name := Updated(if name in m then m[name] else NO_INFO, t, ts, price, amount)]
  }

  ghost function WaitingKeys(w: World): set<StoreKey> {
    set n, d | n in w.markets && d in w.markets[n].dirty && w.Holds(StoreKey(n, d)) :: StoreKey(n, d)
  }

  /** `FlushDirty`, every write succeeding. */
  ghost function Flushed(w: World): World {
    World(map n | n in w.markets :: w.markets[n].(dirty := {}),
          map k | k in w.store.Keys + WaitingKeys(w) ::
            if w.Waiting(k) then w.InfoOf(k.market).At(k.key) else w.store[k])
  }

  function Young(m: Buckets, now: int, maxAge: int): Buckets {
    map ts | ts in m && now - ts <= maxAge :: m[ts]
  }

  /** `ClearOldKlines` spares the days, and forgets no dirty mark. */
  function Aged(info: Info, now: int, secMax: int, minMax: int, hourMax: int): Info {
    info.(sec := Young(info.sec, now, secMax), min := Young(info.min, now, minMax),
          hour := Young(info.hour, now, hourMax))
  }

  function Cleared(m: Memory, now: int, secMax: int, minMax: int, hourMax: int): Memory {
    map n | n in m :: Aged(m[n], now, secMax, minMax, hourMax)
  }

  datatype Op =
    | Update(name: string, ktype: KlineType, ts: int, price: real, amount: real)
    | Flush
    | Clear(now: int, secMax: int, minMax: int, hourMax: int)

  ghost function Step(w: World, op: Op): World {
    match op
    case Update(name, t, ts, price, amount) => w.(markets := Recorded(w.markets, name, t, ts, price, amount))
    case Flush => Flushed(w)
    case Clear(now, secMax, minMax, hourMax) => w.(markets := Cleared(w.markets, now, secMax, minMax, hourMax))
  }

  ghost function Run(w: World, ops: seq<Op>): World {
    if ops == [] then w else Step(Run(w, ops[..|ops| - 1]), ops[|ops| - 1])
  }

  /** Every bucket in memory is waiting to be written or is what the store has. */
  ghost predicate WrittenOrWaiting(w: World) {
    forall k: StoreKey :: w.Holds(k) ==>
      k.key in w.InfoOf(k.market).dirty || (k in w.store && w.store[k] == w.InfoOf(k.market).At(k.key))
  }

  lemma RecordedKeeps(w: World, name: string, t: KlineType, ts: int, price: real, amount: real)
    requires WrittenOrWaiting(w)
    ensures WrittenOrWaiting(w.(markets := Recorded(w.markets, name, t, ts, price, amount)))
  {
    var next := w.(markets := Recorded(w.markets, name, t, ts, price, amount));
    forall k: StoreKey | next.Holds(k)
      ensures k.key in next.InfoOf(k.market).dirty
              || (k in next.store && next.store[k] == next.InfoOf(k.market).At(k.key))
    {
      if k.market == name {
        if k.key != UpdateKey(t, BucketOf(t, ts)) {
          assert w.Holds(k);
        }
      } else {
        assert w.Holds(k);
      }
    }
  }

  /** After a flush the store has every bucket of the memory, and what else it had. */
  lemma FlushWrites(w: World, k: StoreKey)
    requires WrittenOrWaiting(w)
    ensures var f := Flushed(w);
            && (f.Holds(k) <==> w.Holds(k)) && f.InfoOf(k.market).dirty == {}
            && (w.Holds(k) ==> f.InfoOf(k.market).At(k.key) == w.InfoOf(k.market).At(k.key))
            && (w.Holds(k) ==> k in f.store && f.store[k] == w.InfoOf(k.market).At(k.key))
            && (!w.Holds(k) ==> (k in f.store <==> k in w.store) && (k in w.store ==> f.store[k] == w.store[k]))
  {
    WaitingIsKey(w, k);
  }

  lemma WaitingIsKey(w: World, k: StoreKey)
    ensures k in WaitingKeys(w) <==> w.Waiting(k)
  {
    if w.Waiting(k) { assert k == StoreKey(k.market, k.key) && k.market in w.markets; }
  }

  lemma FlushedKeeps(w: World)
    requires WrittenOrWaiting(w)
    ensures WrittenOrWaiting(Flushed(w))
  {
    forall k: StoreKey | Flushed(w).Holds(k)
      ensures k in Flushed(w).store && Flushed(w).store[k] == Flushed(w).InfoOf(k.market).At(k.key)
    {
      FlushWrites(w, k);
    }
  }

  lemma ClearedKeeps(w: World, now: int, secMax: int, minMax: int, hourMax: int)
    requires WrittenOrWaiting(w)
    ensures WrittenOrWaiting(w.(markets := Cleared(w.markets, now, secMax, minMax, hourMax)))
  {
    var next := w.(markets := Cleared(w.markets, now, secMax, minMax, hourMax));
    forall k: StoreKey | next.Holds(k)
      ensures k.key in next.InfoOf(k.market).dirty
              || (k in next.store && next.store[k] == next.InfoOf(k.market).At(k.key))
    {
      assert w.Holds(k) && next.InfoOf(k.market).At(k.key) == w.InfoOf(k.market).At(k.key);
    }
  }

  /** The invariant of every run. */
  lemma {:induction false} RunWritesBack(w: World, ops: seq<Op>)
    requires WrittenOrWaiting(w)
    ensures WrittenOrWaiting(Run(w, ops))
  {
    if ops != [] {
      var rest, op := Run(w, ops[..|ops| - 1]), ops[|ops| - 1];
      RunWritesBack(w, ops[..|ops| - 1]);
      match op
      case Update(name, t, ts, price, amount) => RecordedKeeps(rest, name, t, ts, price, amount);
      case Flush => FlushedKeeps(rest);
      case Clear(now, secMax, minMax, hourMax) => ClearedKeeps(rest, now, secMax, minMax, hourMax);
    }
  }

  /** Clearing keeps a bucket exactly when its age is within the limit of its type, and days always;
      what it keeps is unchanged, and so are the dirty marks. */
  lemma ClearedKeepsIff(w: World, now: int, secMax: int, minMax: int, hourMax: int, k: StoreKey)
    ensures var c := w.(markets := Cleared(w.markets, now, secMax, minMax, hourMax));
            var age := now - k.key.ts;
            && (c.Holds(k) <==> w.Holds(k) && match k.key.ktype
                                              case Sec => age <= secMax
                                              case Min => age <= minMax
                                              case Hour => age <= hourMax
                                              case Day => true)
            && (c.Holds(k) ==> c.InfoOf(k.market).At(k.key) == w.InfoOf(k.market).At(k.key))
            && c.InfoOf(k.market).dirty == w.InfoOf(k.market).dirty
  {
  }

  /** Clearing loses a bucket exactly when it is too old while it is still waiting: the next
      flush then finds nothing to write. */
  lemma ClearedThenFlushed(w: World, now: int, secMax: int, minMax: int, hourMax: int, k: StoreKey)
    requires WrittenOrWaiting(w) && w.Holds(k)
    ensures var c := w.(markets := Cleared(w.markets, now, secMax, minMax, hourMax)); var f := Flushed(c);
            (k in f.store && f.store[k] == w.InfoOf(k.market).At(k.key))
            <==> c.Holds(k) || (k in w.store && w.store[k] == w.InfoOf(k.market).At(k.key))
  {
    var c := w.(markets := Cleared(w.markets, now, secMax, minMax, hourMax));
    ClearedKeeps(w, now, secMax, minMax, hourMax);
    FlushWrites(c, k);
    if c.Holds(k) { assert c.InfoOf(k.market).At(k.key) == w.InfoOf(k.market).At(k.key); }
  }
}
