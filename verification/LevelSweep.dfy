/** The heap loop fills price levels the way a highest-first walk over the aggregated
    depth does. */
module LevelSweep {
  import opened Orders
  import opened PriceQueues
  import opened Sums
  import opened Matching
  import opened FillLedger
  import opened SoundBooks
  import opened Solvency

  // ---------- depth of a queue ----------

  ghost function WeightIf(table: map<nat, Cell>, s: real -> bool): Order -> real {
    (o: Order) => if s(o.price) then LeftIn(table, o) else 0.0
  }

  /** What is left on the queue of `side` at the prices selected by `s`. */
  ghost function Depth(c: Core, side: Side, s: real -> bool): real {
    Total(c.book.Queue(side), WeightIf(c.table, s))
  }

  ghost function At(p: real): real -> bool { (x: real) => x == p }

  ghost function Above(p: real): real -> bool { (x: real) => x > p }

  ghost function AtPrice(p: real): Trade -> real { (t: Trade) => if t.price == p then t.amount else 0.0 }

  /** What a list of trades filled at price `p`. */
  ghost function FillAt(ts: seq<Trade>, p: real): real { Total(ts, AtPrice(p)) }

  function Clamp(x: real, d: real): real { if x <= 0.0 then 0.0 else Min(x, d) }

  /** The taker may reach price level `p`: an ask from its limit up; a bid, only when even
      the dearest ask is within its limit. */
  ghost predicate Reaches(c: Core, o: Order, p: real) {
    if o.side.Ask? then p >= o.price else forall a :: a in c.book.asks ==> a.price <= o.price
  }

  /** The share of level `p` in a highest-first sweep: what the dearer levels leave. */
  ghost function Share(c: Core, o: Order, p: real): real {
    var side := o.side.Opposite();
    if Reaches(c, o, p) then Clamp(c.Left(o) - Depth(c, side, Above(p)), Depth(c, side, At(p))) else 0.0
  }

  // ---------- one turn of the loop ----------

  lemma TurnedDepth(c: Core, c': Core, o: Order, s: real -> bool)
    requires Sound(c) && Taking(c, o) && CanTrade(c, o) && Turned(c, c', o)
    ensures var maker := c.Makers(o)[0];
            Depth(c', o.side.Opposite(), s)
            == Depth(c, o.side.Opposite(), s) - if s(maker.price) then Min(c.Left(o), c.Left(maker)) else 0.0
  {
    var q := c.Makers(o);
    var maker := q[0];
    var f, g := WeightIf(c.table, s), WeightIf(c'.table, s);
    assert maker in q;
    TurnedLeft(c, c', o);
    forall p | p in q && p != maker ensures f(p) == g(p) { assert c.book.Queued(p); }
    TotalReweigh(q, maker, f, g);
    if c.Left(maker) <= Min(c.Left(o), c.Left(maker)) {
      PoppedTotal(q, g);
    }
  }

  lemma DepthNonNegative(c: Core, side: Side, s: real -> bool)
    requires Sound(c)
    ensures Depth(c, side, s) >= 0.0
    ensures forall o :: o in c.book.Queue(side) && s(o.price) ==> Depth(c, side, s) >= c.Left(o)
    ensures (forall o :: o in c.book.Queue(side) ==> !s(o.price)) ==> Depth(c, side, s) == 0.0
  {
    var q, f := c.book.Queue(side), WeightIf(c.table, s);
    forall o | o in q ensures f(o) >= 0.0 { assert Resting(c, o, side); }
    TotalNonNegative(q, f);
    forall o | o in q && s(o.price) ensures Depth(c, side, s) >= c.Left(o) { TotalAtLeast(q, o, f); }
    if forall o :: o in q ==> !s(o.price) {
      TotalSame(q, f, (o: Order) => 0.0);
      TotalZero(q);
    }
  }

  lemma {:induction false} TotalZero<T>(q: seq<T>)
    ensures Total(q, (o: T) => 0.0) == 0.0
  {
    if q != [] { TotalZero(q[1..]); }
  }

  /** What a turn trades at `p` is exactly what the share of `p` loses. */
  lemma TurnedShare(c: Core, c': Core, o: Order, p: real)
    requires Sound(c) && Taking(c, o) && CanTrade(c, o) && Turned(c, c', o)
    requires c'.Left(o) == c.Left(o) - Min(c.Left(o), c.Left(c.Makers(o)[0]))
    ensures Share(c, o, p) == Share(c', o, p)
                              + if p == c.Makers(o)[0].price then Min(c.Left(o), c.Left(c.Makers(o)[0])) else 0.0
  {
    var maker, side := c.Makers(o)[0], o.side.Opposite();
    assert maker in c.Makers(o) && Resting(c, maker, side);
    RootIsDearest(c.Makers(o));
    TurnedDepth(c, c', o, At(p));
    TurnedDepth(c, c', o, Above(p));
    DepthNonNegative(c, side, At(p));
    DepthNonNegative(c, side, Above(p));
    DepthAfterNonNegative(c, c', o, p);
    TurnedReaches(c, c', o, p);
    var x := Min(c.Left(o), c.Left(maker));
    ShareMoves(c.Left(o), Depth(c, side, Above(p)), Depth(c, side, At(p)), x, maker.price, p);
  }

  lemma TurnedReaches(c: Core, c': Core, o: Order, p: real)
    requires Sound(c) && Taking(c, o) && CanTrade(c, o) && Turned(c, c', o)
    ensures Reaches(c', o, p) <==> Reaches(c, o, p)
    ensures p == c.Makers(o)[0].price ==> Reaches(c, o, p)
  {
    RootIsDearest(c.Makers(o));
    TurnedMakers(c, c', o);
  }

  /** A turn takes `x` at price `root`: what it takes off the wish, off the dearer levels and off
      the level `p` adds up. */
  lemma ShareMoves(left: real, above: real, at: real, x: real, root: real, p: real)
    requires 0.0 < x <= left && above >= 0.0 && at >= 0.0
    requires root > p ==> x <= above
    requires root == p ==> above == 0.0 && x <= at
    requires root < p ==> above == 0.0 && at == 0.0
    ensures Clamp(left - above, at)
         == Clamp(left - x - (if root > p then above - x else above), if root == p then at - x else at)
            + if root == p then x else 0.0
  {
  }

  lemma DepthAfterNonNegative(c: Core, c': Core, o: Order, p: real)
    requires Sound(c) && Taking(c, o) && CanTrade(c, o) && Turned(c, c', o)
    ensures Depth(c', o.side.Opposite(), At(p)) >= 0.0
  {
    var q, f := c'.Makers(o), WeightIf(c'.table, At(p));
    TurnedMakers(c, c', o);
    forall x | x in q ensures f(x) >= 0.0 { assert Resting(c', x, o.side.Opposite()); }
    TotalNonNegative(q, f);
  }

  lemma StoppedShare(c: Core, o: Order, p: real)
    requires Sound(c) && Taking(c, o) && !CanTrade(c, o)
    ensures Share(c, o, p) == 0.0
  {
    var side := o.side.Opposite();
    DepthNonNegative(c, side, At(p));
    DepthNonNegative(c, side, Above(p));
    if c.Makers(o) != [] {
      RootIsDearest(c.Makers(o));
      assert c.Makers(o)[0] in c.Makers(o);
    }
  }

  /** The loop fills every price level by its share. */
  lemma {:induction false} LoopSweepsLevels(c: Core, m: Market, o: Order, p: real)
    requires Sound(c) && Taking(c, o)
    ensures FillAt(TakerLoop(c, m, o).trades, p) == Share(c, o, p)
    decreases |c.stops|, |c.Makers(o)|, if c.Left(o) > 0.0 then 1 else 0
  {
    if CanTrade(c, o) {
      var c1 := Iterated(c, m, o);
      IteratedSound(c, m, o);
      IteratedLeft(c, m, o);
      LoopSweepsLevels(c1, m, o, p);
      TurnedShare(c, c1, o, p);
      var t, rest := NextTrade(c, o, c.Makers(o)[0]), TakerLoop(c1, m, o).trades;
      assert ([t] + rest)[1..] == rest;
    } else {
      StoppedShare(c, o, p);
    }
  }

  // ---------- the walk over aggregated levels ----------

  datatype Level = Level(price: real, amount: real)

  ghost predicate Descending(levels: seq<Level>) {
    forall i, j :: 0 <= i < j < |levels| ==> levels[i].price > levels[j].price
  }

  /** Take from the dearest level at or above the limit, then from the next. */
  function Walk(levels: seq<Level>, limit: real, quantity: real): seq<Level> {
    if levels == [] || quantity <= 0.0 || levels[0].price < limit then []
    else
      var x := Min(quantity, levels[0].amount);
      [Level(levels[0].price, x)] + Walk(levels[1..], limit, quantity - x)
  }

  ghost function LevelIf(s: real -> bool): Level -> real { (l: Level) => if s(l.price) then l.amount else 0.0 }

  ghost function LevelSum(levels: seq<Level>, s: real -> bool): real { Total(levels, LevelIf(s)) }

  lemma {:induction false} NoneSelected(levels: seq<Level>, s: real -> bool)
    requires forall l :: l in levels ==> !s(l.price)
    ensures LevelSum(levels, s) == 0.0
  {
    TotalSame(levels, LevelIf(s), (l: Level) => 0.0);
    TotalZero(levels);
  }

  lemma {:induction false} WalkTakesShares(levels: seq<Level>, limit: real, quantity: real, p: real)
    requires Descending(levels) && forall l :: l in levels ==> l.amount >= 0.0
    ensures LevelSum(Walk(levels, limit, quantity), At(p))
         == if p < limit then 0.0 else Clamp(quantity - LevelSum(levels, Above(p)), LevelSum(levels, At(p)))
  {
    if levels != [] {
      var l, rest := levels[0], levels[1..];
      assert l in levels && forall x :: x in rest ==> x in levels;
      HeadAndRest(levels, p);
      if quantity > 0.0 && l.price >= limit {
        var x := Min(quantity, l.amount);
        var w := Walk(rest, limit, quantity - x);
        WalkTakesShares(rest, limit, quantity - x, p);
        assert ([Level(l.price, x)] + w)[1..] == w;
        assert LevelSum([Level(l.price, x)] + w, At(p)) == (if l.price == p then x else 0.0) + LevelSum(w, At(p));
      }
    }
  }

  lemma HeadAndRest(levels: seq<Level>, p: real)
    requires levels != [] && Descending(levels) && forall l :: l in levels ==> l.amount >= 0.0
    ensures var l, rest := levels[0], levels[1..];
            && LevelSum(levels, At(p)) == (if l.price == p then l.amount else 0.0) + LevelSum(rest, At(p))
            && LevelSum(levels, Above(p)) == (if l.price > p then l.amount else 0.0) + LevelSum(rest, Above(p))
            && LevelSum(rest, At(p)) >= 0.0 && LevelSum(rest, Above(p)) >= 0.0
            && (p >= l.price ==> LevelSum(rest, At(p)) == 0.0 && LevelSum(rest, Above(p)) == 0.0)
  {
    var rest := levels[1..];
    assert forall x :: x in rest ==> x in levels;
    assert forall x :: x in rest ==> x.price < levels[0].price;
    TotalNonNegative(rest, LevelIf(Above(p)));
    TotalNonNegative(rest, LevelIf(At(p)));
    if p >= levels[0].price { NoneSelected(rest, Above(p)); NoneSelected(rest, At(p)); }
  }

  /** `levels` is the depth of the queue, one entry a price, dearest first. */
  ghost predicate Aggregates(levels: seq<Level>, c: Core, side: Side) {
    && Descending(levels)
    && (forall l :: l in levels ==> l.amount == Depth(c, side, At(l.price)))
    && (forall o :: o in c.book.Queue(side) ==> exists l :: l in levels && l.price == o.price)
  }

  ghost function LevelOf(q: seq<Order>, c: Core, s: real -> bool): Level -> real {
    (l: Level) => if s(l.price) then Total(q, WeightIf(c.table, At(l.price))) else 0.0
  }

  /** Summing levels or summing orders comes to the same. */
  lemma {:induction false} LevelsSumOrders(levels: seq<Level>, q: seq<Order>, c: Core, s: real -> bool)
    requires Descending(levels)
    requires forall o :: o in q ==> exists l :: l in levels && l.price == o.price
    ensures Total(levels, LevelOf(q, c, s)) == Total(q, WeightIf(c.table, s))
  {
    if q == [] {
      forall l | l in levels ensures LevelOf(q, c, s)(l) == 0.0 {
        assert Total(q, WeightIf(c.table, At(l.price))) == 0.0;
      }
      TotalSame(levels, LevelOf(q, c, s), (l: Level) => 0.0);
      TotalZero(levels);
    } else {
      var o, rest := q[0], q[1..];
      assert o in q && forall x :: x in rest ==> x in q;
      LevelsSumOrders(levels, rest, c, s);
      var own: Level :| own in levels && own.price == o.price;
      forall l | l in levels
        ensures LevelOf(q, c, s)(l) == LevelOf(rest, c, s)(l) + if l == own && s(o.price) then c.Left(o) else 0.0
      {
        assert Total(q, WeightIf(c.table, At(l.price)))
          == WeightIf(c.table, At(l.price))(o) + Total(rest, WeightIf(c.table, At(l.price)));
      }
      OncePerPrice(levels, own);
      TotalReweigh(levels, own, LevelOf(rest, c, s), LevelOf(q, c, s));
    }
  }

  lemma OncePerPrice(levels: seq<Level>, l: Level)
    requires Descending(levels) && l in levels
    ensures multiset(levels)[l] == 1
  {
    var i :| 0 <= i < |levels| && levels[i] == l;
    assert levels == levels[..i] + [l] + levels[i + 1..];
    assert l !in levels[..i] && l !in levels[i + 1..];
  }

  lemma AggregatesSum(levels: seq<Level>, c: Core, side: Side, s: real -> bool)
    requires Aggregates(levels, c, side)
    ensures LevelSum(levels, s) == Depth(c, side, s)
  {
    var q := c.book.Queue(side);
    LevelsSumOrders(levels, q, c, s);
    TotalSame(levels, LevelIf(s), LevelOf(q, c, s));
  }

  /** An ask limit order fills at each bid price exactly what walking the aggregated bid
      levels from the top down to its limit would fill. */
  lemma AskRefinesWalk(c: Core, m: Market, o: Order, levels: seq<Level>, p: real)
    requires Sound(c) && Taking(c, o) && o.side == Ask && Aggregates(levels, c, Bid)
    ensures FillAt(TakerLoop(c, m, o).trades, p) == LevelSum(Walk(levels, o.price, c.Left(o)), At(p))
  {
    LoopSweepsLevels(c, m, o, p);
    forall l | l in levels ensures l.amount >= 0.0 { DepthNonNegative(c, Bid, At(l.price)); }
    WalkTakesShares(levels, o.price, c.Left(o), p);
    AggregatesSum(levels, c, Bid, At(p));
    AggregatesSum(levels, c, Bid, Above(p));
  }

  // ---------- the total ----------

  ghost function WithinLimit(o: Order): real -> bool { (x: real) => x >= o.price }

  ghost function Anywhere(): real -> bool { (x: real) => true }

  /** How much a taker can get: an ask, what is bid at or above its limit; a bid, everything
      that is asked where its limit reaches every ask, and otherwise nothing. */
  ghost function Reachable(c: Core, o: Order): real {
    if o.side.Ask? then Depth(c, Bid, WithinLimit(o))
    else if forall a :: a in c.book.asks ==> a.price <= o.price then Depth(c, Ask, Anywhere())
    else 0.0
  }

  /** A taker gets the smaller of its quantity and what it can reach, and keeps the rest. */
  lemma {:induction false} LoopTotal(c: Core, m: Market, o: Order)
    requires Sound(c) && Taking(c, o)
    ensures Volume(TakerLoop(c, m, o).trades) == Min(c.Left(o), Reachable(c, o))
    ensures TakerLoop(c, m, o).core.Left(o) == c.Left(o) - Volume(TakerLoop(c, m, o).trades)
    decreases |c.stops|, |c.Makers(o)|, if c.Left(o) > 0.0 then 1 else 0
  {
    if CanTrade(c, o) {
      var c1 := Iterated(c, m, o);
      IteratedSound(c, m, o);
      IteratedLeft(c, m, o);
      LoopTotal(c1, m, o);
      ReachShrinks(c, c1, o);
      var t, rest := NextTrade(c, o, c.Makers(o)[0]), TakerLoop(c1, m, o).trades;
      assert Volume([t] + rest) == t.amount + Volume(rest) by { assert ([t] + rest)[1..] == rest; }
    } else {
      StoppedReach(c, o);
    }
  }

  lemma ReachShrinks(c: Core, c1: Core, o: Order)
    requires Sound(c) && Taking(c, o) && CanTrade(c, o) && Turned(c, c1, o)
    ensures var x := Min(c.Left(o), c.Left(c.Makers(o)[0]));
            Reachable(c1, o) == Reachable(c, o) - x && x <= Reachable(c, o)
  {
    var maker, s := c.Makers(o)[0], if o.side.Ask? then WithinLimit(o) else Anywhere();
    RootIsDearest(c.Makers(o));
    TurnedMakers(c, c1, o);
    assert maker in c.Makers(o);
    TurnedDepth(c, c1, o, s);
    DepthNonNegative(c, o.side.Opposite(), s);
  }

  lemma StoppedReach(c: Core, o: Order)
    requires Sound(c) && Taking(c, o) && !CanTrade(c, o)
    ensures Min(c.Left(o), Reachable(c, o)) == 0.0
  {
    DepthNonNegative(c, o.side.Opposite(), if o.side.Ask? then WithinLimit(o) else Anywhere());
    if c.Makers(o) != [] {
      RootIsDearest(c.Makers(o));
      assert c.Makers(o)[0] in c.Makers(o);
    }
  }
}
