/** Klines as text in Redis hashes: the value format, the hash keys, and reading back.
    Decimals are whole numbers of a fixed smallest unit here. */
module KlineHashes {
  import opened Splits
  import opened Text

  datatype KlineInfo = KlineInfo(open: int, close: int, high: int, low: int, volume: int, deal: int)

  const ZERO_KLINE := KlineInfo(0, 0, 0, 0, 0, 0)

  type Hash = map<string, string>

  // ---------- the value ----------

  function Fields(k: KlineInfo): seq<string> {
    [IntToString(k.open), IntToString(k.close), IntToString(k.high), IntToString(k.low), IntToString(k.volume),
      IntToString(k.deal)]
  }

  function Printed(k: KlineInfo): string {
    IntToString(k.open) + "," + (IntToString(k.close) + "," + (IntToString(k.high) + "," + (IntToString(k.low) + ","
    + (IntToString(k.volume) + "," + IntToString(k.deal)))))
  }

  /** Fewer than six parts leave the blank kline. */
  function Read(value: string): KlineInfo {
    var parts := Split(value, ",");
    if |parts| < 6 then ZERO_KLINE
    else KlineInfo(StringToInt(parts[0]), StringToInt(parts[1]), StringToInt(parts[2]), StringToInt(parts[3]),
                   StringToInt(parts[4]), StringToInt(parts[5]))
  }

  lemma PrintedIsJoin(k: KlineInfo)
    ensures Printed(k) == Join(Fields(k), ",")
  {
    var f := Fields(k);
    JoinCons(f[4], f[5..], ",");
    JoinCons(f[3], f[4..], ",");
    JoinCons(f[2], f[3..], ",");
    JoinCons(f[1], f[2..], ",");
    JoinCons(f[0], f[1..], ",");
    assert [f[4]] + f[5..] == f[4..] && [f[3]] + f[4..] == f[3..] && [f[2]] + f[3..] == f[2..];
    assert [f[1]] + f[2..] == f[1..] && [f[0]] + f[1..] == f && f[5..] == [f[5]];
  }

  lemma NoComma(n: int)
    ensures ',' !in IntToString(n)
  {
    IntRoundTrip(n);
  }

  /** What is printed is read back, field for field. */
  lemma ReadPrinted(k: KlineInfo)
    ensures Read(Printed(k)) == k
  {
    PrintedParts(k);
    IntRoundTrip(k.open);
    IntRoundTrip(k.close);
    IntRoundTrip(k.high);
    IntRoundTrip(k.low);
    IntRoundTrip(k.volume);
    IntRoundTrip(k.deal);
  }

  /** The value has six parts. */
  lemma PrintedParts(k: KlineInfo)
    ensures Split(Printed(k), ",")
         == [IntToString(k.open), IntToString(k.close), IntToString(k.high), IntToString(k.low), IntToString(k.volume),
             IntToString(k.deal)]
  {
    PrintedIsJoin(k);
    NoComma(k.open);
    NoComma(k.close);
    NoComma(k.high);
    NoComma(k.low);
    NoComma(k.volume);
    NoComma(k.deal);
    SplitJoined(Fields(k), ',');
  }

  // ---------- the hash ----------

  /** `hash` holds the klines of `m`, one field for each time: `field` prints a time, `time`
      reads it back, `value` prints a kline. */
  ghost predicate HoldsBy(hash: Hash, m: map<int, KlineInfo>, field: int -> string, time: string -> int,
                          value: KlineInfo -> string) {
    && (forall ts :: ts in m ==> field(ts) in hash && hash[field(ts)] == value(m[ts]))
    && (forall f :: f in hash ==> time(f) in m && field(time(f)) == f)
  }

  ghost predicate HoldsKlines(hash: Hash, m: map<int, KlineInfo>) {
    HoldsBy(hash, m, IntToString, StringToInt, Printed)
  }

  lemma TimesReadBack()
    ensures forall u :: StringToInt(IntToString(u)) == u
  {
    forall u ensures StringToInt(IntToString(u)) == u { IntRoundTrip(u); }
  }

  lemma PutHolds(hash: Hash, m: map<int, KlineInfo>, ts: int, k: KlineInfo)
    requires HoldsKlines(hash, m)
    ensures HoldsKlines(hash[IntToString(ts) := Printed(k)], m[ts := k])
  {
    TimesReadBack();
  }

  function Since(m: map<int, KlineInfo>, start: int): map<int, KlineInfo> {
    map ts | ts in m && ts >= start :: m[ts]
  }

  function HashKey(market: string, interval: string): string {
    "k:" + market + ":" + interval
  }

  /** Two markets and intervals never share a hash while interval names have no colon. */
  lemma HashKeyInjective(m: string, i: string, n: string, j: string)
    requires ':' !in i && ':' !in j && HashKey(m, i) == HashKey(n, j)
    ensures m == n && i == j
  {
    var s := HashKey(m, i);
    var a, b := 2 + |m|, 2 + |n|;
    assert s[a] == ':' && s[b] == ':';
    assert s[a + 1..] == i && s[b + 1..] == j;
    assert s[2..a] == m && s[2..b] == n;
  }

  type Klines = map<(string, string), map<int, KlineInfo>>

  function HashIn(hashes: map<string, Hash>, key: string): Hash {
    if key in hashes then hashes[key] else map[]
  }

  function KlinesIn(klines: Klines, market: string, interval: string): map<int, KlineInfo> {
    if (market, interval) in klines then klines[(market, interval)] else map[]
  }

  ghost predicate HoldsAll(hashes: map<string, Hash>, klines: Klines) {
    forall m, i :: ':' !in i ==> HoldsKlines(HashIn(hashes, HashKey(m, i)), KlinesIn(klines, m, i))
  }

  lemma HashAfter(hashes: map<string, Hash>, market: string, interval: string, hash: Hash, m: string, i: string)
    requires ':' !in interval && ':' !in i
    ensures HashIn(hashes[HashKey(market, interval) := hash], HashKey(m, i))
            == if (m, i) == (market, interval) then hash else HashIn(hashes, HashKey(m, i))
  {
    if HashKey(m, i) == HashKey(market, interval) { HashKeyInjective(m, i, market, interval); }
  }

  lemma PutHoldsAll(hashes: map<string, Hash>, klines: Klines, market: string, interval: string, hash: Hash,
                    ks: map<int, KlineInfo>)
    requires HoldsAll(hashes, klines) && ':' !in interval && HoldsKlines(hash, ks)
    ensures HoldsAll(hashes[HashKey(market, interval) := hash], klines[(market, interval) := ks])
  {
    var hashes', klines' := hashes[HashKey(market, interval) := hash], klines[(market, interval) := ks];
    forall m, i | ':' !in i
      ensures HoldsKlines(HashIn(hashes', HashKey(m, i)), KlinesIn(klines', m, i))
    {
      HashAfter(hashes, market, interval, hash, m, i);
      if (m, i) != (market, interval) {
        assert HoldsKlines(HashIn(hashes, HashKey(m, i)), KlinesIn(klines, m, i));
      }
    }
  }

  class RedisCache {
    var hashes: map<string, Hash>
    ghost var klines: Klines

    ghost predicate Valid()
      reads this
    {
      HoldsAll(hashes, klines)
    }

    constructor ()
      ensures Valid() && klines == map[]
    {
      hashes, klines := map[], map[];
    }

    method FlushKline(market: string, interval: string, timestamp: int, kline: KlineInfo)
      requires Valid() && ':' !in interval
      modifies this
      ensures Valid()
      ensures klines == old(klines)[(market, interval) := KlinesIn(old(klines), market, interval)[timestamp := kline]]
      ensures var key := "k:" + market + ":" + interval;
              hashes == old(hashes)[key := HashIn(old(hashes), key)[IntToString(timestamp) := Printed(kline)]]
    {
      var key := HashKey(market, interval);
      var field := IntToString(timestamp);
      var value := Printed(kline);
      PutHolds(HashIn(hashes, key), KlinesIn(klines, market, interval), timestamp, kline);
      PutHoldsAll(hashes, klines, market, interval, HashIn(hashes, key)[field := value],
                  KlinesIn(klines, market, interval)[timestamp := kline]);
      hashes := hashes[key := HashIn(hashes, key)[field := value]];
      klines := klines[(market, interval) := KlinesIn(klines, market, interval)[timestamp := kline]];
    }

    /** The fields come in any order. */
    method LoadKlines(market: string, interval: string, start: int) returns (result: map<int, KlineInfo>)
      requires Valid() && ':' !in interval
      ensures result == Since(KlinesIn(klines, market, interval), start)
    {
      var fields := HashIn(hashes, HashKey(market, interval));
      result := LoadFields(fields, start, KlinesIn(klines, market, interval));
    }
  }

  /** The text `ParseInt` takes: what `FormatInt` prints. */
  predicate IsTime(field: string) { field == IntToString(StringToInt(field)) }

  /** The klines from `start` on whose fields are no longer to do. */
  ghost function Loaded(m: map<int, KlineInfo>, start: int, todo: set<string>,
                        field: int -> string): map<int, KlineInfo> {
    map ts | ts in m && ts >= start && field(ts) !in todo :: m[ts]
  }

  lemma LoadedNext(m: map<int, KlineInfo>, start: int, todo: set<string>, ts: int, field: int -> string)
    requires ts in m && field(ts) in todo && forall u :: u in m && u != ts ==> field(u) != field(ts)
    ensures var old_, new_ := Loaded(m, start, todo, field), Loaded(m, start, todo - {field(ts)}, field);
            new_ == if ts >= start then old_[ts := m[ts]] else old_
  {
  }

  lemma FieldRead(fields: Hash, m: map<int, KlineInfo>, field: string)
    requires HoldsKlines(fields, m) && field in fields
    ensures IsTime(field) && StringToInt(field) in m && Read(fields[field]) == m[StringToInt(field)]
  {
    ReadPrinted(m[StringToInt(field)]);
  }

  lemma FieldsDiffer(m: map<int, KlineInfo>, ts: int)
    ensures forall u :: u in m && u != ts ==> IntToString(u) != IntToString(ts)
  {
    forall u | u in m && u != ts
      ensures IntToString(u) != IntToString(ts)
    {
      IntRoundTrip(u);
      IntRoundTrip(ts);
    }
  }

  method LoadFields(fields: Hash, start: int, ghost m: map<int, KlineInfo>) returns (result: map<int, KlineInfo>)
    requires HoldsKlines(fields, m)
    ensures result == Since(m, start)
  {
    result := map[];
    var todo := fields.Keys;
    while todo != {}
      invariant todo <= fields.Keys && result == Loaded(m, start, todo, IntToString)
      decreases todo
    {
      var field: string :| field in todo;
      FieldRead(fields, m, field);
      FieldsDiffer(m, StringToInt(field));
      LoadedNext(m, start, todo, StringToInt(field), IntToString);
      todo := todo - {field};
      if IsTime(field) {
        var timestamp := StringToInt(field);
        if timestamp >= start { result := result[timestamp := Read(fields[field])]; }
      }
    }
  }
}
