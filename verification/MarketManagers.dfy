/** The market manager of marketprice: bucket maps updated in place, flushed and cleared. */
module MarketManagers {
  import opened Sums
  import opened KlineStores

  class Redis {
    var klines: Stored

    constructor ()
      ensures klines == map[]
    {
      klines := map[];
    }

    method FlushKline(market: string, key: UpdateKey, kline: KlineInfo)
      modifies this
      ensures klines == old(klines)[StoreKey(market, key) := kline]
    {
      klines := klines[StoreKey(market, key) := kline];
    }
  }

  /** `after` is `before` with those of the market's `keys` written that have a bucket. */
  ghost predicate Flushes(name: string, info: Info, keys: set<UpdateKey>, before: Stored, after: Stored, k: StoreKey) {
    if k.market == name && k.key in keys && info.Has(k.key) then k in after && after[k] == info.At(k.key)
    else (k in after <==> k in before) && (k in after ==> after[k] == before[k])
  }

  lemma FlushesNext(name: string, info: Info, keys: set<UpdateKey>, key: UpdateKey, before: Stored, was: Stored,
                    after: Stored)
    requires forall k: StoreKey :: Flushes(name, info, keys, before, was, k)
    requires after == if info.Has(key) then was[StoreKey(name, key) := info.At(key)] else was
    ensures forall k: StoreKey :: Flushes(name, info, keys + {key}, before, after, k)
  {
    forall k: StoreKey
      ensures Flushes(name, info, keys + {key}, before, after, k)
    {
      assert Flushes(name, info, keys, before, was, k);
    }
  }

  class MarketInfo {
    var secKlines: Buckets
    var minKlines: Buckets
    var hourKlines: Buckets
    var dayKlines: Buckets
    var updateMap: set<UpdateKey>

    ghost function View(): Info
      reads this
    {
      Info(secKlines, minKlines, hourKlines, dayKlines, updateMap)
    }

    constructor ()
      ensures View() == NO_INFO
    {
      secKlines, minKlines, hourKlines, dayKlines, updateMap := map[], map[], map[], map[], {};
    }

    method UpdateKline(klineType: KlineType, timestamp: int, price: real, amount: real)
      modifies this
      ensures View() == Updated(old(View()), klineType, timestamp, price, amount)
    {
      var klines := match klineType
                    case Sec => secKlines case Min => minKlines case Hour => hourKlines case Day => dayKlines;
      var tsKey := BucketOf(klineType, timestamp);
      var kline := if tsKey in klines then klines[tsKey] else KlineInfo(price, price, price, price, 0.0, 0.0);
      kline := kline.(close := price);
      if price > kline.high { kline := kline.(high := price); }
      if price < kline.low { kline := kline.(low := price); }
      kline := kline.(volume := kline.volume + amount);
      assert kline == Traded(if tsKey in klines then klines[tsKey] else Blank(price), price, amount);
      klines := klines[tsKey := kline];
      assert klines == Put(View().Of(klineType), tsKey, price, amount);
      SetKlines(klineType, klines);
      updateMap := updateMap + {UpdateKey(klineType, tsKey)};
    }

    method SetKlines(klineType: KlineType, klines: Buckets)
      modifies this
      ensures View() == old(View()).With(klineType, klines)
    {
      match klineType {
        case Sec => secKlines := klines;
        case Min => minKlines := klines;
        case Hour => hourKlines := klines;
        case Day => dayKlines := klines;
      }
    }

    /** The inner loop of `FlushDirty`; the keys come in any order. */
    method FlushTo(name: string, redis: Redis)
      modifies this, redis
      ensures View() == old(View()).(dirty := {})
      ensures forall k: StoreKey :: Flushes(name, old(View()), old(updateMap), old(redis.klines), redis.klines, k)
    {
      ghost var info := View();
      var todo := updateMap;
      while todo != {}
        invariant todo <= updateMap && View() == info
        invariant forall k: StoreKey :: Flushes(name, info, updateMap - todo, old(redis.klines), redis.klines, k)
        decreases todo
      {
        var key: UpdateKey :| key in todo;
        assert todo - {key} + {key} == todo;
        todo := todo - {key};
        var klines := match key.ktype
                      case Sec => secKlines case Min => minKlines case Hour => hourKlines case Day => dayKlines;
        assert klines == info.Of(key.ktype);
        ghost var was := redis.klines;
        if key.ts in klines { redis.FlushKline(name, key, klines[key.ts]); }
        FlushesNext(name, info, updateMap - (todo + {key}), key, old(redis.klines), was, redis.klines);
        assert updateMap - (todo + {key}) + {key} == updateMap - todo;
      }
      assert updateMap - todo == updateMap;
      updateMap := {};
    }

    method ClearOld(now: int, secMax: int, minMax: int, hourMax: int)
      modifies this
      ensures View() == Aged(old(View()), now, secMax, minMax, hourMax)
    {
      secKlines := Drop(secKlines, now, secMax);
      minKlines := Drop(minKlines, now, minMax);
      hourKlines := Drop(hourKlines, now, hourMax);
    }
  }

  /** Deleting from a map while ranging over it. */
  method Drop(klines: Buckets, now: int, maxAge: int) returns (m: Buckets)
    ensures m == Young(klines, now, maxAge)
  {
    m := klines;
    var todo := klines.Keys;
    while todo != {}
      invariant todo <= klines.Keys
      invariant forall ts :: ts in m <==> ts in klines && (ts in todo || now - ts <= maxAge)
      invariant forall ts :: ts in m ==> m[ts] == klines[ts]
      decreases todo
    {
      ghost var some := SomeMember(todo);
      var ts: int :| ts in todo;
      todo := todo - {ts};
      if now - ts > maxAge { m := m - {ts}; }
    }
    forall ts
      ensures ts in m <==> ts in Young(klines, now, maxAge)
    {
      assert ts in m <==> ts in klines && now - ts <= maxAge;
    }
  }

  class Manager {
    var markets: map<string, MarketInfo>

    ghost predicate Valid()
      reads this
    {
      forall m, n :: m in markets && n in markets && m != n ==> markets[m] != markets[n]
    }

    ghost function Infos(): set<MarketInfo>
      reads this
    {
      set n | n in markets :: markets[n]
    }

    ghost function Memory(): KlineStores.Memory
      reads this, Infos()
    {
      map n | n in markets :: markets[n].View()
    }

    constructor ()
      ensures Valid() && markets == map[]
    {
      markets := map[];
    }

    method GetOrCreate(name: string) returns (info: MarketInfo)
      requires Valid()
      modifies this
      ensures Valid() && name in markets && info == markets[name]
      ensures if name in old(markets) then markets == old(markets)
              else markets == old(markets)[name := info] && fresh(info)
      ensures Memory() == if name in old(markets) then old(Memory()) else old(Memory())[name := NO_INFO]
    {
      if name in markets { return markets[name]; }
      info := new MarketInfo();
      markets := markets[name := info];
    }

    method FlushDirty(redis: Redis)
      requires Valid()
      modifies Infos(), redis
      ensures Valid()
      ensures World(Memory(), redis.klines) == Flushed(World(old(Memory()), old(redis.klines)))
    {
      ghost var w := World(Memory(), redis.klines);
      FlushEach(redis, w);
      AllWritten(w, redis.klines);
    }

    /** The loop over the markets, which come in any order. */
    method FlushEach(redis: Redis, ghost w: World)
      requires Valid() && w == World(Memory(), redis.klines)
      modifies Infos(), redis
      ensures Memory() == PartlyClean(w.markets, {})
      ensures forall k: StoreKey :: Written(w, {}, redis.klines, k)
    {
      var todo := markets.Keys;
      assert Memory() == PartlyClean(w.markets, todo);
      while todo != {}
        invariant todo <= markets.Keys
        invariant Memory() == PartlyClean(w.markets, todo)
        invariant forall k: StoreKey :: Written(w, todo, redis.klines, k)
        decreases todo
      {
        var name: string :| name in todo;
        FlushMarket(name, markets[name], redis, w, todo);
        PartlyCleanNext(w.markets, todo, name);
        todo := todo - {name};
      }
    }

    method FlushMarket(name: string, info: MarketInfo, redis: Redis, ghost w: World, ghost todo: set<string>)
      requires Valid() && name in markets && markets[name] == info
      requires name in todo && name in w.markets && Memory() == PartlyClean(w.markets, todo)
      requires forall k: StoreKey :: Written(w, todo, redis.klines, k)
      modifies info, redis
      ensures Memory() == old(Memory())[name := w.markets[name].(dirty := {})]
      ensures forall k: StoreKey :: Written(w, todo - {name}, redis.klines, k)
    {
      ghost var was := redis.klines;
      assert info.View() == Memory()[name];
      info.FlushTo(name, redis);
      assert forall n :: n in markets && n != name ==> markets[n].View() == old(markets[n].View());
      WrittenNext(w, todo, name, was, redis.klines);
    }

    method ClearOldKlines(now: int, secMax: int, minMax: int, hourMax: int)
      requires Valid()
      modifies Infos()
      ensures Valid()
      ensures Memory() == Cleared(old(Memory()), now, secMax, minMax, hourMax)
    {
      ghost var memory := Memory();
      var todo := markets.Keys;
      while todo != {}
        invariant todo <= markets.Keys && markets == old(markets)
        invariant forall n :: n in markets ==>
                    markets[n].View() == if n in todo then memory[n] else Aged(memory[n], now, secMax, minMax, hourMax)
        decreases todo
      {
        var name: string :| name in todo;
        markets[name].ClearOld(now, secMax, minMax, hourMax);
        todo := todo - {name};
      }
    }
  }

  /** The markets that are still to do keep their dirty marks. */
  ghost function PartlyClean(m: KlineStores.Memory, todo: set<string>): KlineStores.Memory {
    map n | n in m :: if n in todo then m[n] else m[n].(dirty := {})
  }

  lemma PartlyCleanNext(m: KlineStores.Memory, todo: set<string>, name: string)
    requires name in m
    ensures PartlyClean(m, todo - {name}) == PartlyClean(m, todo)[name := m[name].(dirty := {})]
  {
  }

  lemma WrittenNext(w: World, todo: set<string>, name: string, was: Stored, store: Stored)
    requires name in todo && name in w.markets
    requires forall k: StoreKey :: Written(w, todo, was, k)
    requires forall k: StoreKey :: Flushes(name, w.markets[name], w.markets[name].dirty, was, store, k)
    ensures forall k: StoreKey :: Written(w, todo - {name}, store, k)
  {
    forall k: StoreKey
      ensures Written(w, todo - {name}, store, k)
    {
      assert Written(w, todo, was, k);
      assert Flushes(name, w.markets[name], w.markets[name].dirty, was, store, k);
    }
  }

  lemma AllWritten(w: World, store: Stored)
    requires forall k: StoreKey :: Written(w, {}, store, k)
    ensures store == Flushed(w).store
  {
    forall k: StoreKey
      ensures k in store <==> k in Flushed(w).store
      ensures k in store ==> store[k] == Flushed(w).store[k]
    {
      assert Written(w, {}, store, k);
      WaitingIsKey(w, k);
    }
  }

  ghost predicate Written(w: World, todo: set<string>, store: Stored, k: StoreKey) {
    if k.market !in todo && w.Waiting(k) then k in store && store[k] == w.InfoOf(k.market).At(k.key)
    else (k in store <==> k in w.store) && (k in store ==> store[k] == w.store[k])
  }
}
