/** Stop orders: each leaves the list at most once, and none that a traded price makes
    eligible is left behind. */
module StopSweeps {
  import opened Orders
  import opened Ledgers
  import opened Matching
  import opened FillLedger
  import opened SoundBooks

  ghost predicate Untriggered(c: Core) { forall s :: s in c.stops ==> !s.triggered }

  /** The price has come to the trigger price: down to it for a bid, up to it for an ask. */
  predicate Reached(s: StopOrder, price: real) {
    if s.order.side.Bid? then s.triggerPrice >= price else s.triggerPrice <= price
  }

  /** It has not: a waiting bid's trigger price lies below, an ask's above. */
  predicate Waits(s: StopOrder, price: real) {
    if s.order.side.Bid? then s.triggerPrice < price else s.triggerPrice > price
  }

  /** A check splits the list into what fires and what stays. */
  lemma {:induction false} CheckSplits(stops: seq<StopOrder>, price: real)
    requires forall s :: s in stops ==> !s.triggered
    ensures multiset(Hit(stops, price)) + multiset(Missed(stops, price)) == multiset(stops)
  {
    if stops != [] {
      var first, rest := stops[0], stops[1..];
      assert stops == [first] + rest;
      assert first in stops && forall s :: s in rest ==> s in stops;
      CheckSplits(rest, price);
      ConsContents(first, rest);
      ConsContents(first, Hit(rest, price));
      ConsContents(first, Missed(rest, price));
      SplitCons(first, rest, Hit(rest, price), Missed(rest, price), price);
    }
  }

  lemma SplitCons(first: StopOrder, rest: seq<StopOrder>, hit: seq<StopOrder>, missed: seq<StopOrder>, price: real)
    requires !first.triggered && hit == Hit(rest, price) && missed == Missed(rest, price)
    ensures if Eligible(first, price)
            then Hit([first] + rest, price) == [first] + hit && Missed([first] + rest, price) == missed
            else Hit([first] + rest, price) == hit && Missed([first] + rest, price) == [first] + missed
  {
    assert ([first] + rest)[1..] == rest;
    assert [] + hit == hit && [] + missed == missed;
  }

  lemma ConsContents<T>(x: T, s: seq<T>)
    ensures multiset([x] + s) == multiset{x} + multiset(s)
  {
  }

  /** `c'` lies after `c`: every stop order is still waiting or has fired, and none that waits has
      its trigger price reached by a price traded in between. */
  ghost predicate Answered(c: Core, c': Core) {
    && Untriggered(c')
    && c.journal.deals <= c'.journal.deals
    && multiset(c'.stops) + multiset(c'.journal.fired) == multiset(c.stops) + multiset(c.journal.fired)
    && (forall s :: s in c'.stops ==> s in c.stops)
    && (forall i, s :: |c.journal.deals| <= i < |c'.journal.deals| && s in c'.stops ==>
          Waits(s, c'.journal.deals[i].price))
  }

  lemma AnsweredTrans(a: Core, b: Core, c: Core)
    requires Answered(a, b) && Answered(b, c)
    ensures Answered(a, c)
  {
    forall i, s | |a.journal.deals| <= i < |c.journal.deals| && s in c.stops
      ensures Waits(s, c.journal.deals[i].price)
    {
      if i < |b.journal.deals| { assert c.journal.deals[i] == b.journal.deals[i]; }
    }
  }

  /** Every deal of a whole call, nested sweeps included, has been answered by its sweep. */
  lemma {:induction false} LoopSweeps(c: Core, m: Market, o: Order)
    requires Untriggered(c)
    ensures Answered(c, TakerLoop(c, m, o).core)
    decreases |c.stops|, 2, |c.Makers(o)|, if c.Left(o) > 0.0 then 1 else 0
  {
    if CanTrade(c, o) {
      IteratedSweeps(c, m, o);
      LoopSweeps(Iterated(c, m, o), m, o);
      AnsweredTrans(c, Iterated(c, m, o), TakerLoop(c, m, o).core);
    }
  }

  lemma {:induction false} IteratedSweeps(c: Core, m: Market, o: Order)
    requires Untriggered(c) && CanTrade(c, o)
    ensures Answered(c, Iterated(c, m, o))
    decreases |c.stops|, 1, 0, 0
  {
    var maker := c.Makers(o)[0];
    var c0 := Traded(c, m, o);
    CheckSweeps(c0, m, maker.price);
    OneDealAnswered(c, c0, Swept(c0, m, maker.price), NextTrade(c, o, maker));
    PopAnswered(c, Swept(c0, m, maker.price), o.side.Opposite(), maker);
  }

  lemma PopAnswered(c: Core, c1: Core, side: Side, maker: Order)
    requires Answered(c, c1)
    ensures Answered(c, PopIfDone(c1, side, maker))
  {
  }

  lemma OneDealAnswered(c: Core, c0: Core, c1: Core, t: Trade)
    requires c0.journal.deals == c.journal.deals + [t] && c0.stops == c.stops && c0.journal.fired == c.journal.fired
    requires Answered(c0, c1) && forall s :: s in c1.stops ==> Waits(s, t.price)
    ensures Answered(c, c1)
  {
    forall i, s | |c.journal.deals| <= i < |c1.journal.deals| && s in c1.stops
      ensures Waits(s, c1.journal.deals[i].price)
    {
      if i < |c0.journal.deals| { assert c1.journal.deals[i] == c0.journal.deals[i]; }
    }
  }

  lemma {:induction false} CheckSweeps(c: Core, m: Market, price: real)
    requires Untriggered(c)
    ensures var c' := Swept(c, m, price); Answered(c, c') && forall s :: s in c'.stops ==> Waits(s, price)
    decreases |c.stops|, 0, 0, 0
  {
    var hit := Hit(c.stops, price);
    var c1 := c.(stops := Missed(c.stops, price), journal := c.journal.(fired := c.journal.fired + hit));
    CheckSplits(c.stops, price);
    HitAndMissedAreStops(c.stops, price);
    assert Answered(c, c1);
    if hit != [] {
      FireAllSweeps(c1, m, hit);
      AnsweredTrans(c, c1, FireAll(c1, m, hit));
    }
  }

  lemma {:induction false} FireAllSweeps(c: Core, m: Market, hit: seq<StopOrder>)
    requires Untriggered(c)
    ensures Answered(c, FireAll(c, m, hit))
    decreases |c.stops|, 4, |hit|, 0
  {
    if hit == [] || c.halted {
    } else {
      var o := hit[0].order.(id := c.nextId + 1);
      var c1 := Entered(c.(nextId := o.id), o);
      LoopSweeps(c1, m, o);
      assert Answered(c, Fired(c, m, hit[0]));
      FireAllSweeps(Fired(c, m, hit[0]), m, hit[1..]);
      AnsweredTrans(c, Fired(c, m, hit[0]), FireAll(c, m, hit));
    }
  }

  lemma PlaceSweeps(c: Core, m: Market, o: Order)
    requires Untriggered(c)
    ensures Answered(c, Place(c, m, o).0)
  {
    match Freeze(c.ledger, LockAcct(m, o), Need(o, o.amount))
    case Refused(_) =>
    case Done(l) => LoopSweeps(Entered(c.(ledger := l), o), m, o);
  }

  // ---------- what fires ----------

  /** The prices of the deals in between. */
  ghost function DealPrices(c: Core, c': Core): set<real> {
    set i | |c.journal.deals| <= i < |c'.journal.deals| :: c'.journal.deals[i].price
  }

  /** Every stop order that fired in between had its trigger price reached by one of `prices`. */
  ghost predicate Prompted(c: Core, c': Core, prices: set<real>) {
    && c.journal.deals <= c'.journal.deals && c.journal.fired <= c'.journal.fired
    && forall i :: |c.journal.fired| <= i < |c'.journal.fired| ==> ReachedBy(c'.journal.fired[i], prices)
  }

  ghost predicate ReachedBy(s: StopOrder, prices: set<real>) { exists p :: p in prices && Reached(s, p) }

  lemma PromptedTrans(a: Core, b: Core, c: Core, p: set<real>, q: set<real>, r: set<real>)
    requires Prompted(a, b, p) && Prompted(b, c, q) && p <= r && q <= r
    ensures Prompted(a, c, r)
  {
    forall i | |a.journal.fired| <= i < |c.journal.fired| ensures ReachedBy(c.journal.fired[i], r) {
      if i < |b.journal.fired| { assert c.journal.fired[i] == b.journal.fired[i]; }
    }
  }

  lemma PricesJoin(a: Core, b: Core, c: Core)
    requires a.journal.deals <= b.journal.deals <= c.journal.deals
    ensures DealPrices(a, b) <= DealPrices(a, c) && DealPrices(b, c) <= DealPrices(a, c)
  {
    forall p | p in DealPrices(a, b) ensures p in DealPrices(a, c) {
      var i :| |a.journal.deals| <= i < |b.journal.deals| && b.journal.deals[i].price == p;
      assert c.journal.deals[i] == b.journal.deals[i];
    }
  }

  /** Every stop order that a loop fires, in nested sweeps too, was reached by the price of a deal. */
  lemma {:induction false} LoopPrompts(c: Core, m: Market, o: Order)
    ensures var c' := TakerLoop(c, m, o).core; Prompted(c, c', DealPrices(c, c'))
    decreases |c.stops|, 2, |c.Makers(o)|, if c.Left(o) > 0.0 then 1 else 0
  {
    if CanTrade(c, o) {
      var c1 := Iterated(c, m, o);
      var c2 := TakerLoop(c1, m, o).core;
      IteratedPrompts(c, m, o);
      LoopPrompts(c1, m, o);
      PricesJoin(c, c1, c2);
      PromptedTrans(c, c1, c2, DealPrices(c, c1), DealPrices(c1, c2), DealPrices(c, c2));
    }
  }

  lemma {:induction false} IteratedPrompts(c: Core, m: Market, o: Order)
    requires CanTrade(c, o)
    ensures var c' := Iterated(c, m, o); Prompted(c, c', DealPrices(c, c'))
    decreases |c.stops|, 1, 0, 0
  {
    var maker := c.Makers(o)[0];
    var c0, c1 := Traded(c, m, o), Swept(Traded(c, m, o), m, maker.price);
    CheckPrompts(c0, m, maker.price);
    OneDealPrompts(c, c0, c1, NextTrade(c, o, maker));
    PopPrompts(c, c1, o.side.Opposite(), maker);
  }

  lemma OneDealPrompts(c: Core, c0: Core, c1: Core, t: Trade)
    requires c0.journal.deals == c.journal.deals + [t] && c0.journal.fired == c.journal.fired
    requires Prompted(c0, c1, DealPrices(c0, c1) + {t.price})
    ensures Prompted(c, c1, DealPrices(c, c1))
  {
    PricesJoin(c, c0, c1);
    assert c1.journal.deals[|c.journal.deals|] == t;
    PromptedTrans(c, c0, c1, {}, DealPrices(c0, c1) + {t.price}, DealPrices(c, c1));
  }

  lemma PopPrompts(c: Core, c1: Core, side: Side, maker: Order)
    requires Prompted(c, c1, DealPrices(c, c1))
    ensures var c' := PopIfDone(c1, side, maker); Prompted(c, c', DealPrices(c, c'))
  {
    PoppedFunds(c1, side, maker);
  }

  /** Every stop order that a sweep fires was reached by its price, or by the price of a deal that
      the sweep itself made. */
  lemma {:induction false} CheckPrompts(c: Core, m: Market, price: real)
    ensures var c' := Swept(c, m, price); Prompted(c, c', DealPrices(c, c') + {price})
    decreases |c.stops|, 0, 0, 0
  {
    var hit := Hit(c.stops, price);
    var c1 := c.(stops := Missed(c.stops, price), journal := c.journal.(fired := c.journal.fired + hit));
    HitPrompts(c, c1, hit, price);
    if hit != [] {
      var c2 := FireAll(c1, m, hit);
      FireAllPrompts(c1, m, hit);
      PricesJoin(c, c1, c2);
      PromptedTrans(c, c1, c2, {price}, DealPrices(c1, c2), DealPrices(c, c2) + {price});
    } else {
      PromptedTrans(c, c, c1, {}, {price}, DealPrices(c, c1) + {price});
    }
  }

  lemma HitPrompts(c: Core, c1: Core, hit: seq<StopOrder>, price: real)
    requires hit == Hit(c.stops, price) && c1.journal == c.journal.(fired := c.journal.fired + hit)
    ensures Prompted(c, c1, {price})
  {
    HitAndMissedAreStops(c.stops, price);
    forall i | |c.journal.fired| <= i < |c1.journal.fired| ensures ReachedBy(c1.journal.fired[i], {price}) {
      assert c1.journal.fired[i] == hit[i - |c.journal.fired|];
      assert price in {price} && Reached(c1.journal.fired[i], price);
    }
  }

  lemma {:induction false} FireAllPrompts(c: Core, m: Market, hit: seq<StopOrder>)
    ensures var c' := FireAll(c, m, hit); Prompted(c, c', DealPrices(c, c'))
    decreases |c.stops|, 4, |hit|, 0
  {
    if hit != [] && !c.halted {
      var c1, c2 := Fired(c, m, hit[0]), FireAll(Fired(c, m, hit[0]), m, hit[1..]);
      FiredPrompts(c, m, hit[0]);
      FireAllPrompts(c1, m, hit[1..]);
      PricesJoin(c, c1, c2);
      PromptedTrans(c, c1, c2, DealPrices(c, c1), DealPrices(c1, c2), DealPrices(c, c2));
    }
  }

  lemma {:induction false} FiredPrompts(c: Core, m: Market, s: StopOrder)
    ensures var c' := Fired(c, m, s); Prompted(c, c', DealPrices(c, c'))
    decreases |c.stops|, 3, 0, 0
  {
    var o := s.order.(id := c.nextId + 1);
    var c1 := Entered(c.(nextId := o.id), o);
    LoopPrompts(c1, m, o);
    FiredEnters(c, m, s);
    RestedFunds(TakerLoop(c1, m, o).core, o);
    SamePrompts(c, c1, TakerLoop(c1, m, o).core, Fired(c, m, s));
  }

  lemma SamePrompts(c: Core, c1: Core, c2: Core, c3: Core)
    requires c1.journal == c.journal && c3.journal == c2.journal && Prompted(c1, c2, DealPrices(c1, c2))
    ensures Prompted(c, c3, DealPrices(c, c3))
  {
  }

  /** The stop orders that a call fires were reached by its deals, at a bid's trigger price or
      below, at an ask's or above; the others wait for a price beyond all of them. */
  lemma PlacePrompts(c: Core, m: Market, o: Order)
    ensures var c' := Place(c, m, o).0; Prompted(c, c', DealPrices(c, c'))
  {
    match Freeze(c.ledger, LockAcct(m, o), Need(o, o.amount))
    case Refused(_) =>
    case Done(l) =>
      var c1 := Entered(c.(ledger := l), o);
      LoopPrompts(c1, m, o);
      RestedFunds(TakerLoop(c1, m, o).core, o);
      SamePrompts(c, c1, TakerLoop(c1, m, o).core, Place(c, m, o).0);
  }

  // ---------- a list of one stop order, and an empty one ----------

  lemma OneStop(s: StopOrder, price: real)
    requires !s.triggered && Eligible(s, price)
    ensures Hit([s], price) == [s] && Missed([s], price) == []
  {
    assert [s][1..] == [];
  }

  lemma SweptByOne(c: Core, m: Listing, price: real, s: StopOrder)
    requires c.stops == [s] && !s.triggered && Eligible(s, price) && !c.halted
    ensures Swept(c, m, price)
         == Fired(c.(stops := [], journal := c.journal.(fired := c.journal.fired + [s])), m, s)
  {
    OneStop(s, price);
    var c1 := c.(stops := [], journal := c.journal.(fired := c.journal.fired + [s]));
    assert FireAll(c1, m, [s]) == FireAll(Fired(c1, m, s), m, [s][1..]);
  }

  /** With no stop orders waiting the loop never panics. */
  lemma NoStopsNoPanic(c: Core, m: Market, o: Order)
    requires Sound(c) && Fresh(c, o)
    ensures !Place(c.(nextId := o.id), m, o).0.halted
  {
    PlaceSound(c, m, o);
  }
}
