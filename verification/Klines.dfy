/** The running klines: for each market and interval, the bucket of the latest deal. */
module Klines {
  import opened Quotients
  import opened Sums

  datatype Interval = I1s | I1m | I5m | I15m | I30m | I1h | I2h | I4h | I6h | I12h | I1d | I1w | I1M

  const ALL_INTERVALS: seq<Interval> := [I1s, I1m, I5m, I15m, I30m, I1h, I2h, I4h, I6h, I12h, I1d, I1w, I1M]

  function Seconds(i: Interval): (n: int)
    ensures n > 0
  {
    match i
    case I1s => 1
    case I1m => 60
    case I5m => 300
    case I15m => 900
    case I30m => 1800
    case I1h => 3600
    case I2h => 7200
    case I4h => 14400
    case I6h => 21600
    case I12h => 43200
    case I1d => 86400
    case I1w => 604800
    case I1M => 2592000
  }

  function Bucket(i: Interval, ts: int): int {
    Quotient(ts, Seconds(i)) * Seconds(i)
  }

  /** The `n` seconds of a bucket that is stamped `stamp`: from the stamp on where times are not
      negative, up to the stamp where they are. */
  predicate Covers(stamp: int, n: int, ts: int) {
    && (ts >= 0 ==> stamp <= ts < stamp + n)
    && (ts <= 0 ==> stamp - n < ts <= stamp)
  }

  /** A bucket is stamped with a multiple of its length and covers the times that fall into it. */
  lemma BucketCovers(i: Interval, ts: int)
    ensures Bucket(i, ts) % Seconds(i) == 0 && Covers(Bucket(i, ts), Seconds(i), ts)
  {
    QuotientCovers(ts, Seconds(i));
  }

  /** Each interval as a multiple of a shorter one. */
  lemma IntervalsNest()
    ensures Seconds(I1s) == 1 && Seconds(I1m) == 60 * Seconds(I1s) && Seconds(I5m) == 5 * Seconds(I1m)
    ensures Seconds(I15m) == 3 * Seconds(I5m) && Seconds(I30m) == 2 * Seconds(I15m)
    ensures Seconds(I1h) == 60 * Seconds(I1m) && Seconds(I2h) == 2 * Seconds(I1h) && Seconds(I4h) == 2 * Seconds(I2h)
    ensures Seconds(I6h) == 6 * Seconds(I1h) && Seconds(I12h) == 2 * Seconds(I6h)
    ensures Seconds(I1d) == 24 * Seconds(I1h) && Seconds(I1w) == 7 * Seconds(I1d) && Seconds(I1M) == 30 * Seconds(I1d)
  {
  }

  datatype Deal = Deal(price: real, amount: real, ts: int)

  datatype Kline = Kline(market: string, interval: Interval, open: real, high: real, low: real, close: real,
                         volume: real, dealAmount: real, timestamp: int)

  // ---------- what a kline should say ----------

  function Highest(ds: seq<Deal>): real
    requires ds != []
  {
    var n := |ds| - 1;
    if n == 0 || ds[n].price > Highest(ds[..n]) then ds[n].price else Highest(ds[..n])
  }

  function Lowest(ds: seq<Deal>): real
    requires ds != []
  {
    var n := |ds| - 1;
    if n == 0 || ds[n].price < Lowest(ds[..n]) then ds[n].price else Lowest(ds[..n])
  }

  predicate Between(low: real, high: real, ds: seq<Deal>) {
    forall k :: 0 <= k < |ds| ==> low <= ds[k].price <= high
  }

  /** They are the extreme prices, and both were paid. */
  lemma {:induction false} Extremes(ds: seq<Deal>) returns (low: nat, high: nat)
    requires ds != []
    ensures Between(Lowest(ds), Highest(ds), ds)
    ensures low < |ds| && ds[low].price == Lowest(ds)
    ensures high < |ds| && ds[high].price == Highest(ds)
  {
    var n := |ds| - 1;
    if n == 0 {
      low, high := 0, 0;
    } else {
      low, high := Extremes(ds[..n]);
      assert Between(Lowest(ds[..n]), Highest(ds[..n]), ds[..n]);
      assert forall k :: 0 <= k < n ==> ds[k] == ds[..n][k];
      if ds[n].price > Highest(ds[..n]) { high := n; }
      if ds[n].price < Lowest(ds[..n]) { low := n; }
    }
  }

  function Volume(ds: seq<Deal>): real {
    if ds == [] then 0.0 else Volume(ds[..|ds| - 1]) + ds[|ds| - 1].amount
  }

  function Worth(d: Deal): real { d.price * d.amount }

  function Turnover(ds: seq<Deal>): real {
    if ds == [] then 0.0 else Turnover(ds[..|ds| - 1]) + Worth(ds[|ds| - 1])
  }

  /** The kline of the deals `ds`, which lie in the bucket at `stamp`. */
  function Summary(market: string, i: Interval, ds: seq<Deal>, stamp: int): Kline
    requires ds != []
  {
    Kline(market, i, ds[0].price, Highest(ds), Lowest(ds), ds[|ds| - 1].price, Volume(ds), Turnover(ds), stamp)
  }

  /** The longest run of deals at the end that share the last deal's bucket. */
  function LastRun(i: Interval, ds: seq<Deal>): (r: seq<Deal>)
    requires ds != []
    ensures r != [] && |r| <= |ds| && r == ds[|ds| - |r|..]
    ensures forall d :: d in r ==> Bucket(i, d.ts) == Bucket(i, ds[|ds| - 1].ts)
    ensures |r| < |ds| ==> Bucket(i, ds[|ds| - |r| - 1].ts) != Bucket(i, ds[|ds| - 1].ts)
  {
    var n := |ds| - 1;
    if n == 0 || Bucket(i, ds[n - 1].ts) != Bucket(i, ds[n].ts) then [ds[n]]
    else LastRun(i, ds[..n]) + [ds[n]]
  }

  /** What the manager should hold after the deals `ds` of a market. */
  function Meant(market: string, i: Interval, ds: seq<Deal>): Kline
    requires ds != []
  {
    Summary(market, i, LastRun(i, ds), Bucket(i, ds[|ds| - 1].ts))
  }

  // ---------- one deal ----------

  function Grown(k: Kline, d: Deal): Kline {
    k.(high := if d.price > k.high then d.price else k.high,
       low := if d.price < k.low then d.price else k.low,
       close := d.price, volume := k.volume + d.amount, dealAmount := k.dealAmount + Worth(d))
  }

  function Fresh(market: string, i: Interval, d: Deal): Kline {
    Kline(market, i, d.price, d.price, d.price, d.price, d.amount, Worth(d), Bucket(i, d.ts))
  }

  lemma ExtremesGrow(run: seq<Deal>, d: Deal)
    requires run != []
    ensures Highest(run + [d]) == (if d.price > Highest(run) then d.price else Highest(run))
    ensures Lowest(run + [d]) == (if d.price < Lowest(run) then d.price else Lowest(run))
  {
    assert (run + [d])[..|run|] == run;
  }

  lemma TotalsGrow(run: seq<Deal>, d: Deal)
    ensures Volume(run + [d]) == Volume(run) + d.amount && Turnover(run + [d]) == Turnover(run) + Worth(d)
  {
    assert (run + [d])[..|run|] == run;
  }

  lemma GrownIsSummary(market: string, i: Interval, run: seq<Deal>, d: Deal, stamp: int)
    requires run != []
    ensures Grown(Summary(market, i, run, stamp), d) == Summary(market, i, run + [d], stamp)
  {
    ExtremesGrow(run, d);
    TotalsGrow(run, d);
  }

  lemma FreshIsSummary(market: string, i: Interval, d: Deal)
    ensures Fresh(market, i, d) == Summary(market, i, [d], Bucket(i, d.ts))
  {
    var one := [d];
    assert one[..0] == [];
    assert Volume(one) == Volume(one[..0]) + d.amount;
    assert Turnover(one) == Turnover(one[..0]) + Worth(d);
  }

  lemma RunGrows(i: Interval, ds: seq<Deal>, d: Deal)
    requires ds != []
    ensures LastRun(i, ds + [d]) == if Bucket(i, ds[|ds| - 1].ts) == Bucket(i, d.ts) then LastRun(i, ds) + [d] else [d]
  {
    assert (ds + [d])[..|ds|] == ds;
  }

  /** One interval's share of `AddDeal`. */
  function Next(market: string, i: Interval, klines: map<Interval, Kline>, d: Deal): Kline {
    if i in klines && klines[i].timestamp == Bucket(i, d.ts) then Grown(klines[i], d) else Fresh(market, i, d)
  }

  lemma NextIsMeant(market: string, i: Interval, klines: map<Interval, Kline>, ds: seq<Deal>, d: Deal)
    requires i in klines <==> ds != []
    requires ds != [] ==> klines[i] == Meant(market, i, ds)
    ensures Next(market, i, klines, d) == Meant(market, i, ds + [d])
  {
    FreshIsSummary(market, i, d);
    if ds == [] {
      assert ds + [d] == [d];
    } else {
      RunGrows(i, ds, d);
      GrownIsSummary(market, i, LastRun(i, ds), d, Bucket(i, d.ts));
    }
  }

  function Position(i: Interval): (n: nat)
    ensures n < |ALL_INTERVALS| && ALL_INTERVALS[n] == i
  {
    match i
    case I1s => 0 case I1m => 1 case I5m => 2 case I15m => 3 case I30m => 4 case I1h => 5 case I2h => 6
    case I4h => 7 case I6h => 8 case I12h => 9 case I1d => 10 case I1w => 11 case I1M => 12
  }

  lemma Positions(n: nat)
    requires n < |ALL_INTERVALS|
    ensures Position(ALL_INTERVALS[n]) == n
  {
  }

  /** Every kline of a market says what the last run of its deals says. */
  ghost predicate AllMeant(market: string, klines: map<Interval, Kline>, ds: seq<Deal>) {
    forall i :: (i in klines <==> ds != []) && (ds != [] ==> klines[i] == Meant(market, i, ds))
  }

  /** `klines` with the deal taken in by the first `n` intervals. */
  ghost predicate Partly(market: string, before: map<Interval, Kline>, klines: map<Interval, Kline>, d: Deal, n: nat) {
    forall i :: if Position(i) < n then i in klines && klines[i] == Next(market, i, before, d)
                else (i in klines <==> i in before) && (i in klines ==> klines[i] == before[i])
  }

  lemma PartlyExtended(market: string, before: map<Interval, Kline>, klines: map<Interval, Kline>, d: Deal, n: nat,
                       k: Kline)
    requires n < |ALL_INTERVALS| && Partly(market, before, klines, d, n)
        && k == Next(market, ALL_INTERVALS[n], before, d)
    ensures Partly(market, before, klines[ALL_INTERVALS[n] := k], d, n + 1)
  {
    Positions(n);
    var next := klines[ALL_INTERVALS[n] := k];
    forall i
      ensures if Position(i) < n + 1 then i in next && next[i] == Next(market, i, before, d)
              else (i in next <==> i in before) && (i in next ==> next[i] == before[i])
    {
      if i != ALL_INTERVALS[n] { assert Position(i) != n && (i in next ==> next[i] == klines[i]); }
    }
  }

  lemma PartlyNext(market: string, before: map<Interval, Kline>, klines: map<Interval, Kline>, d: Deal, n: nat)
    requires n < |ALL_INTERVALS| && Partly(market, before, klines, d, n)
    ensures var i := ALL_INTERVALS[n]; Partly(market, before, klines[i := Next(market, i, klines, d)], d, n + 1)
  {
    Positions(n);
    PartlyExtended(market, before, klines, d, n, Next(market, ALL_INTERVALS[n], klines, d));
  }

  lemma AllTaken(market: string, before: map<Interval, Kline>, klines: map<Interval, Kline>, ds: seq<Deal>, d: Deal)
    requires AllMeant(market, before, ds) && Partly(market, before, klines, d, |ALL_INTERVALS|)
    ensures AllMeant(market, klines, ds + [d])
  {
    forall i
      ensures i in klines && klines[i] == Meant(market, i, ds + [d])
    {
      assert Position(i) < |ALL_INTERVALS|;
      NextIsMeant(market, i, before, ds, d);
    }
  }

  type Current = map<string, map<Interval, Kline>>

  function KlinesIn(current: Current, market: string): map<Interval, Kline> {
    if market in current then current[market] else map[]
  }

  function DealsIn(deals: map<string, seq<Deal>>, market: string): seq<Deal> {
    if market in deals then deals[market] else []
  }

  ghost predicate Summarises(current: Current, deals: map<string, seq<Deal>>) {
    forall m :: AllMeant(m, KlinesIn(current, m), DealsIn(deals, m))
  }

  lemma StillSummarises(current: Current, current': Current, deals: map<string, seq<Deal>>, market: string, d: Deal)
    requires Summarises(current, deals)
    requires forall m :: m != market ==> KlinesIn(current', m) == KlinesIn(current, m)
    requires Partly(market, KlinesIn(current, market), KlinesIn(current', market), d, |ALL_INTERVALS|)
    ensures Summarises(current', deals[market := DealsIn(deals, market) + [d]])
  {
    var deals' := deals[market := DealsIn(deals, market) + [d]];
    AllTaken(market, KlinesIn(current, market), KlinesIn(current', market), DealsIn(deals, market), d);
    forall m
      ensures AllMeant(m, KlinesIn(current', m), DealsIn(deals', m))
    {
      assert m != market ==> DealsIn(deals', m) == DealsIn(deals, m);
    }
  }

  /** The two sums of a kline. */
  lemma {:induction false} TotalsAreSums(ds: seq<Deal>)
    ensures Volume(ds) == Total(ds, (d: Deal) => d.amount)
    ensures Turnover(ds) == Total(ds, (d: Deal) => d.price * d.amount)
  {
    if ds != [] {
      var n := |ds| - 1;
      TotalsAreSums(ds[..n]);
      assert ds == ds[..n] + [ds[n]];
      TotalSnoc(ds[..n], ds[n], (d: Deal) => d.amount);
      TotalSnoc(ds[..n], ds[n], (d: Deal) => d.price * d.amount);
    }
  }

  /** What a manager holds for any interval of any market that had deals: the first and the last
      price of the last run of deals in one bucket, its extremes and sums, under a stamp whose
      bucket covers each of them. */
  lemma KlineHolds(current: Current, deals: map<string, seq<Deal>>, market: string, i: Interval)
    requires Summarises(current, deals) && DealsIn(deals, market) != []
    ensures i in KlinesIn(current, market)
    ensures var k, ds := KlinesIn(current, market)[i], DealsIn(deals, market);
            var run := LastRun(i, ds);
            && k.market == market && k.interval == i && k.open == run[0].price && k.close == ds[|ds| - 1].price
            && Between(k.low, k.high, run) && (exists d :: d in run && d.price == k.low)
            && (exists d :: d in run && d.price == k.high)
            && k.volume == Total(run, (d: Deal) => d.amount)
            && k.dealAmount == Total(run, (d: Deal) => d.price * d.amount)
            && k.timestamp % Seconds(i) == 0 && forall d :: d in run ==> Covers(k.timestamp, Seconds(i), d.ts)
  {
    var ds := DealsIn(deals, market);
    assert AllMeant(market, KlinesIn(current, market), ds);
    var run := LastRun(i, ds);
    var low, high := Extremes(run);
    assert run[low] in run && run[high] in run;
    TotalsAreSums(run);
    BucketCovers(i, ds[|ds| - 1].ts);
    forall d | d in run ensures Covers(Bucket(i, ds[|ds| - 1].ts), Seconds(i), d.ts) { BucketCovers(i, d.ts); }
  }

  // ---------- the manager ----------

  class KlineManager {
    var current: Current
    ghost var deals: map<string, seq<Deal>>

    ghost predicate Valid()
      reads this
    {
      Summarises(current, deals)
    }

    constructor ()
      ensures Valid() && deals == map[]
    {
      current, deals := map[], map[];
    }

    method AddDeal(market: string, price: real, amount: real, ts: int)
      requires Valid()
      modifies this
      ensures Valid()
      ensures deals == old(deals)[market := DealsIn(old(deals), market) + [Deal(price, amount, ts)]]
    {
      ghost var d := Deal(price, amount, ts);
      ghost var before := KlinesIn(current, market);
      for n := 0 to |ALL_INTERVALS|
        invariant deals == old(deals)
        invariant forall m :: m != market ==> KlinesIn(current, m) == KlinesIn(old(current), m)
        invariant Partly(market, before, KlinesIn(current, market), d, n)
      {
        PartlyNext(market, before, KlinesIn(current, market), d, n);
        UpdateInterval(market, ALL_INTERVALS[n], price, amount, ts);
      }
      StillSummarises(old(current), current, deals, market, d);
      deals := deals[market := DealsIn(deals, market) + [d]];
    }

    method UpdateInterval(market: string, interval: Interval, price: real, amount: real, ts: int)
      modifies this`current
      ensures var d, klines := Deal(price, amount, ts), KlinesIn(old(current), market);
              current == old(current)[market := klines[interval := Next(market, interval, klines, d)]]
    {
      ghost var d := Deal(price, amount, ts);
      assert price * amount == Worth(d);
      var bucket := Bucket(interval, ts);
      if market !in current { current := current[market := map[]]; }
      var klines := current[market];
      if interval in klines && klines[interval].timestamp == bucket {
        var k := klines[interval];
        k := k.(high := if price > k.high then price else k.high);
        k := k.(low := if price < k.low then price else k.low);
        k := k.(close := price, volume := k.volume + amount, dealAmount := k.dealAmount + price * amount);
        assert k == Grown(klines[interval], d);
        current := current[market := klines[interval := k]];
      } else {
        var k := Kline(market, interval, price, price, price, price, amount, price * amount, bucket);
        assert k == Fresh(market, interval, d);
        current := current[market := klines[interval := k]];
      }
    }
  }

  // ---------- wider intervals ----------

  predicate Divides(narrow: Interval, wide: Interval) {
    Seconds(wide) % Seconds(narrow) == 0
  }

  lemma WholeFactor(n: int, d: int)
    requires n > 0 && d > 0 && n % d == 0
    ensures n == d * (n / d) && n / d > 0
  {
  }

  /** Deals in one narrow bucket are in one wide bucket. */
  lemma SameWideBucket(narrow: Interval, wide: Interval, t: int, u: int)
    requires Divides(narrow, wide) && Bucket(narrow, t) == Bucket(narrow, u)
    ensures Bucket(wide, t) == Bucket(wide, u)
  {
    var b := Seconds(narrow);
    var c := Seconds(wide) / b;
    WholeFactor(Seconds(wide), b);
    SameFactor(b, Quotient(t, b), Quotient(u, b));
    QuotientTwice(t, b, c);
    QuotientTwice(u, b, c);
  }

  lemma RunIsMaximal(i: Interval, ds: seq<Deal>, n: nat)
    requires ds != [] && n <= |ds|
    requires forall k :: |ds| - n <= k < |ds| ==> Bucket(i, ds[k].ts) == Bucket(i, ds[|ds| - 1].ts)
    ensures n <= |LastRun(i, ds)|
  {
  }

  lemma NarrowRunInside(narrow: Interval, wide: Interval, ds: seq<Deal>)
    requires ds != [] && Divides(narrow, wide)
    ensures |LastRun(narrow, ds)| <= |LastRun(wide, ds)|
  {
    var r := LastRun(narrow, ds);
    forall k | |ds| - |r| <= k < |ds|
      ensures Bucket(wide, ds[k].ts) == Bucket(wide, ds[|ds| - 1].ts)
    {
      assert ds[k] == r[k - (|ds| - |r|)];
      SameWideBucket(narrow, wide, ds[k].ts, ds[|ds| - 1].ts);
    }
    RunIsMaximal(wide, ds, |r|);
  }

  lemma {:induction false} VolumeSplits(x: seq<Deal>, y: seq<Deal>)
    ensures Volume(x + y) == Volume(x) + Volume(y)
  {
    if y == [] {
      assert x + y == x;
    } else {
      var n := |y| - 1;
      VolumeSplits(x, y[..n]);
      assert (x + y)[..|x| + n] == x + y[..n];
    }
  }

  lemma {:induction false} VolumeNonNegative(x: seq<Deal>)
    requires forall d :: d in x ==> d.amount >= 0.0
    ensures Volume(x) >= 0.0
  {
    if x != [] { VolumeNonNegative(x[..|x| - 1]); }
  }

  lemma PartExtremes(r: seq<Deal>, cut: nat)
    requires cut < |r|
    ensures Highest(r[cut..]) <= Highest(r) && Lowest(r) <= Lowest(r[cut..])
  {
    var _, _ := Extremes(r);
    var low, high := Extremes(r[cut..]);
    assert r[cut..][low] == r[cut + low] && r[cut..][high] == r[cut + high];
  }

  lemma PartVolume(r: seq<Deal>, cut: nat)
    requires cut < |r| && forall d :: d in r ==> d.amount >= 0.0
    ensures Volume(r[cut..]) <= Volume(r)
  {
    assert r == r[..cut] + r[cut..];
    VolumeSplits(r[..cut], r[cut..]);
    VolumeNonNegative(r[..cut]);
  }

  lemma WiderRun(r: seq<Deal>, cut: nat, market: string, narrow: Interval, wide: Interval, x: int, y: int)
    requires cut < |r|
    ensures var k, w := Summary(market, narrow, r[cut..], x), Summary(market, wide, r, y);
            && w.close == k.close && w.high >= k.high && w.low <= k.low
            && ((forall d :: d in r ==> d.amount >= 0.0) ==> w.volume >= k.volume)
  {
    PartExtremes(r, cut);
    if forall d :: d in r ==> d.amount >= 0.0 { PartVolume(r, cut); }
  }

  /** A kline whose interval is a multiple contains the narrower one. */
  lemma WiderContains(market: string, narrow: Interval, wide: Interval, ds: seq<Deal>)
    requires ds != [] && Divides(narrow, wide)
    ensures var k, w := Meant(market, narrow, ds), Meant(market, wide, ds);
            && w.close == k.close && w.high >= k.high && w.low <= k.low
            && ((forall d :: d in ds ==> d.amount >= 0.0) ==> w.volume >= k.volume)
  {
    var r, s := LastRun(narrow, ds), LastRun(wide, ds);
    var x, y := Bucket(narrow, ds[|ds| - 1].ts), Bucket(wide, ds[|ds| - 1].ts);
    NarrowRunInside(narrow, wide, ds);
    assert r == s[|s| - |r|..];
    WiderRun(s, |s| - |r|, market, narrow, wide, x, y);
    assert forall d :: d in s ==> d in ds;
  }

  // ---------- time that does not run backwards ----------

  predicate Forward(ds: seq<Deal>) {
    forall i, j :: 0 <= i < j < |ds| ==> ds[i].ts <= ds[j].ts
  }

  /** The deals of one bucket, wherever they are. */
  function InBucket(i: Interval, stamp: int, ds: seq<Deal>): seq<Deal> {
    if ds == [] then []
    else
      var rest := InBucket(i, stamp, ds[..|ds| - 1]);
      if Bucket(i, ds[|ds| - 1].ts) == stamp then rest + [ds[|ds| - 1]] else rest
  }

  lemma BucketsForward(i: Interval, t: int, u: int)
    requires t <= u
    ensures Bucket(i, t) <= Bucket(i, u)
  {
    QuotientForward(t, u, Seconds(i));
    ProductForward(Seconds(i), Quotient(t, Seconds(i)), Quotient(u, Seconds(i)));
  }

  lemma {:induction false} NoneInBucket(i: Interval, stamp: int, ds: seq<Deal>)
    requires forall d :: d in ds ==> Bucket(i, d.ts) != stamp
    ensures InBucket(i, stamp, ds) == []
  {
    if ds != [] { NoneInBucket(i, stamp, ds[..|ds| - 1]); }
  }

  /** When deals come in the order of their times, the last run is the whole bucket. */
  lemma {:induction false} RunIsBucket(i: Interval, ds: seq<Deal>)
    requires ds != [] && Forward(ds)
    ensures LastRun(i, ds) == InBucket(i, Bucket(i, ds[|ds| - 1].ts), ds)
  {
    var n := |ds| - 1;
    if n > 0 {
      if Bucket(i, ds[n - 1].ts) == Bucket(i, ds[n].ts) {
        RunIsBucket(i, ds[..n]);
      } else {
        forall d | d in ds[..n]
          ensures Bucket(i, d.ts) != Bucket(i, ds[n].ts)
        {
          BucketsForward(i, d.ts, ds[n - 1].ts);
          BucketsForward(i, ds[n - 1].ts, ds[n].ts);
        }
        NoneInBucket(i, Bucket(i, ds[n].ts), ds[..n]);
      }
    }
  }
}
