/** When the deals of a call are paid: each deduction comes from what the taker has besides
    the lock, and each unlock gives back as much as was deducted. */
module Payments {
  import opened Orders
  import opened Ledgers
  import opened Sums
  import opened Matching
  import opened FillLedger
  import opened SoundBooks
  import opened Acceptances
  import opened Solvency
  import opened Executions
  import opened Settlement

  ghost predicate NoOwnMaker(c: Core, o: Order) { forall p :: p in c.Makers(o) ==> p.userId != o.userId }

  function Spare(c: Core, k: Acct): real { Held(c.ledger, k).available }

  /** A covered deal leaves the taker's available balance as it was; one that is not covered
      is not deducted, and its unlock then raises that balance. */
  lemma PaidSpare(c: Core, m: Market, t: Trade)
    requires t.takerUserId != t.makerUserId && Acct(t.takerUserId, SettledAsset(m, t.side)) in c.ledger
    requires 0.0 <= Cost(t) <= Frozen(c, Acct(t.takerUserId, SettledAsset(m, t.side)))
    ensures var k, c' := Acct(t.takerUserId, SettledAsset(m, t.side)), Paid(c, m, t);
            && k in c'.ledger
            && Spare(c', k) == Spare(c, k) + (if Cost(t) <= Spare(c, k) then 0.0 else Cost(t))
            && c'.journal.unpaid == c.journal.unpaid + (if Cost(t) <= Spare(c, k) then [] else [t])
            && c'.journal.deals == c.journal.deals
  {
    PaidJournal(c, m, t);
  }

  lemma TradedSpare(c: Core, m: Market, o: Order)
    requires c.Makers(o) != [] && c.Makers(o)[0].userId != o.userId && LockAcct(m, o) in c.ledger
    requires 0.0 <= Cost(NextTrade(c, o, c.Makers(o)[0])) <= Frozen(c, LockAcct(m, o))
    ensures var k, c', t := LockAcct(m, o), Traded(c, m, o), NextTrade(c, o, c.Makers(o)[0]);
            && k in c'.ledger
            && Spare(c', k) == Spare(c, k) + (if Cost(t) <= Spare(c, k) then 0.0 else Cost(t))
            && c'.journal.unpaid == c.journal.unpaid + (if Cost(t) <= Spare(c, k) then [] else [t])
            && c'.journal.deals == c.journal.deals + [t]
  {
    var maker := c.Makers(o)[0];
    var t := NextTrade(c, o, maker);
    PaidSpare(Recorded(Filled(c, o, maker, t), t), m, t);
  }

  /** A taker with its lock in place, among makers of other users. */
  ghost predicate Ready(c: Core, m: Market, o: Order) {
    && Sound(c) && Taking(c, o) && NoOwnMaker(c, o)
    && LockAcct(m, o) in c.ledger && Frozen(c, LockAcct(m, o)) >= Need(o, c.Left(o))
  }

  lemma IteratedSpare(c: Core, m: Market, o: Order)
    requires Ready(c, m, o) && CanTrade(c, o)
    ensures var k, c', t := LockAcct(m, o), Iterated(c, m, o), NextTrade(c, o, c.Makers(o)[0]);
            && Ready(c', m, o) && 0.0 < Cost(t) <= Need(o, c.Left(o)) && Need(o, c'.Left(o)) <= Need(o, c.Left(o))
            && Spare(c', k) == Spare(c, k) + (if Cost(t) <= Spare(c, k) then 0.0 else Cost(t))
            && c'.journal.unpaid == c.journal.unpaid + (if Cost(t) <= Spare(c, k) then [] else [t])
            && c'.journal.deals == c.journal.deals + [t]
  {
    var maker := c.Makers(o)[0];
    IteratedReady(c, m, o);
    NoStopsIterated(c, m, o);
    TradedSpare(c, m, o);
    PoppedFunds(Traded(c, m, o), o.side.Opposite(), maker);
  }

  lemma IteratedReady(c: Core, m: Market, o: Order)
    requires Ready(c, m, o) && CanTrade(c, o)
    ensures var c', t := Iterated(c, m, o), NextTrade(c, o, c.Makers(o)[0]);
            && Sound(c') && Taking(c', o) && NoOwnMaker(c', o) && Frozen(c', LockAcct(m, o)) >= Need(o, c'.Left(o))
            && c.Makers(o)[0].userId != o.userId && 0.0 < Cost(t) <= Frozen(c, LockAcct(m, o))
            && Cost(t) <= Need(o, c.Left(o)) && Need(o, c'.Left(o)) <= Need(o, c.Left(o))
  {
    var maker, c' := c.Makers(o)[0], Iterated(c, m, o);
    IteratedSound(c, m, o);
    assert NoOwnMaker(c', o) by { TurnedMakers(c, c', o); }
    assert Resting(c, maker, o.side.Opposite()) && maker in c.Makers(o);
    CostWithinNeed(c, o, maker);
    assert Frozen(c', LockAcct(m, o)) >= Need(o, c'.Left(o)) && Need(o, c'.Left(o)) <= Need(o, c.Left(o)) by {
      IteratedFrozen(c, m, o, LockAcct(m, o));
      IteratedLeft(c, m, o);
    }
  }

  /** `u`, `u1`, `u2`: the unpaid deals before and after a deal `t`, and after the `rest`. */
  lemma FirstOrLater(u: seq<Trade>, u1: seq<Trade>, u2: seq<Trade>, t: Trade, rest: seq<Trade>, spare: real)
    requires u1 == u + (if Cost(t) <= spare then [] else [t]) && u1 <= u2
    requires Cost(t) <= spare ==> (u2 == u1 <==> forall x :: x in rest ==> Cost(x) <= spare)
    ensures u <= u2 && (u2 == u <==> forall x :: x in [t] + rest ==> Cost(x) <= spare)
    ensures Cost(t) > spare ==> u + [t] <= u2
  {
    assert t in [t] + rest;
    assert u + [] == u;
  }

  /** No deal of a loop stays unpaid exactly when the available balance covers each of them
      by itself; the first one that it does not cover is the first to stay unpaid. */
  lemma {:induction false} LoopUnpaidIff(c: Core, m: Market, o: Order)
    requires Ready(c, m, o)
    ensures var r, k := TakerLoop(c, m, o), LockAcct(m, o);
            && c.journal.unpaid <= r.core.journal.unpaid
            && (r.core.journal.unpaid == c.journal.unpaid <==> forall t :: t in r.trades ==> Cost(t) <= Spare(c, k))
            && (r.trades != [] && Cost(r.trades[0]) > Spare(c, k) ==>
                  c.journal.unpaid + [r.trades[0]] <= r.core.journal.unpaid)
    decreases |c.stops|, |c.Makers(o)|, if c.Left(o) > 0.0 then 1 else 0
  {
    if CanTrade(c, o) {
      var c1, t := Iterated(c, m, o), NextTrade(c, o, c.Makers(o)[0]);
      IteratedSpare(c, m, o);
      LoopUnpaidIff(c1, m, o);
      var rest := TakerLoop(c1, m, o);
      FirstOrLater(c.journal.unpaid, c1.journal.unpaid, rest.core.journal.unpaid, t, rest.trades,
        Spare(c, LockAcct(m, o)));
    }
  }

  ghost predicate CostUpTo(ts: seq<Trade>, x: real) { forall t :: t in ts ==> 0.0 < Cost(t) <= x }

  lemma CostsJoin(deals: seq<Trade>, t: Trade, rest: seq<Trade>, x: real, y: real)
    requires 0.0 < Cost(t) <= y && x <= y && CostUpTo(rest, x)
    ensures CostUpTo([t] + rest, y) && deals + ([t] + rest) == deals + [t] + rest
  {
  }

  /** The deals of a loop, in order; each costs at most what the taker needed. */
  lemma {:induction false} LoopDeals(c: Core, m: Market, o: Order)
    requires Ready(c, m, o)
    ensures var r := TakerLoop(c, m, o);
            r.core.journal.deals == c.journal.deals + r.trades && CostUpTo(r.trades, Need(o, c.Left(o)))
    decreases |c.stops|, |c.Makers(o)|, if c.Left(o) > 0.0 then 1 else 0
  {
    if CanTrade(c, o) {
      var c1, t := Iterated(c, m, o), NextTrade(c, o, c.Makers(o)[0]);
      IteratedSpare(c, m, o);
      LoopDeals(c1, m, o);
      CostsJoin(c.journal.deals, t, TakerLoop(c1, m, o).trades, Need(o, c1.Left(o)), Need(o, c.Left(o)));
    }
  }

  // ---------- whole calls ----------

  lemma EnteredReady(c: Core, l: Ledger, m: Market, o: Order)
    requires Sound(c) && Fresh(c, o) && NoOwnMaker(c, o) && Frozen(c, LockAcct(m, o)) >= 0.0
    requires Freeze(c.ledger, LockAcct(m, o), Need(o, o.amount)) == Done(l)
    ensures Ready(Entered(c.(nextId := o.id).(ledger := l), o), m, o)
  {
    EnteredSound(c, l, o);
  }

  /** What happens to the deals of a call, by the trades it makes. */
  lemma PlaceDeals(c: Core, m: Market, o: Order)
    requires Sound(c) && Fresh(c, o) && NoOwnMaker(c, o) && Frozen(c, LockAcct(m, o)) >= 0.0
    ensures var (c', reply) := Place(c.(nextId := o.id), m, o);
            var spare := Spare(c, LockAcct(m, o)) - Need(o, o.amount);
            && (reply.Rejected? ==> c'.journal == c.journal)
            && (reply.Accepted? ==>
                  && (c'.journal.unpaid == c.journal.unpaid <==> forall t :: t in reply.trades ==> Cost(t) <= spare)
                  && (reply.trades != [] && Cost(reply.trades[0]) > spare ==>
                        c.journal.unpaid + [reply.trades[0]] <= c'.journal.unpaid)
                  && c'.journal.deals == c.journal.deals + reply.trades
                  && CostUpTo(reply.trades, Need(o, o.amount)))
  {
    match Freeze(c.ledger, LockAcct(m, o), Need(o, o.amount))
    case Refused(_) =>
    case Done(l) =>
      var c1 := Entered(c.(nextId := o.id).(ledger := l), o);
      EnteredReady(c, l, m, o);
      LoopUnpaidIff(c1, m, o);
      LoopDeals(c1, m, o);
      RestedFunds(TakerLoop(c1, m, o).core, o);
  }

  // ---------- seen from before the call ----------

  function FillCost(f: Fill, side: Side): real { if side.Bid? then f.price * f.amount else f.amount }

  ghost predicate Affords(fs: seq<Fill>, side: Side, spare: real) {
    forall f :: f in fs ==> FillCost(f, side) <= spare
  }

  lemma {:induction false} CostsOfFills(ts: seq<Trade>, side: Side, spare: real)
    requires forall t :: t in ts ==> t.side == side
    ensures Affords(FillsOf(ts), side, spare) <==> forall t :: t in ts ==> Cost(t) <= spare
  {
    if ts != [] {
      assert ts == [ts[0]] + ts[1..] && ts[0] in ts && forall t :: t in ts[1..] ==> t in ts;
      CostsOfFills(ts[1..], side, spare);
      assert FillCost(FillOf(ts[0]), side) == Cost(ts[0]);
    }
  }

  lemma FirstFill(ts: seq<Trade>, side: Side)
    requires ts != [] && ts[0].side == side
    ensures FillsOf(ts) != [] && FillCost(FillsOf(ts)[0], side) == Cost(ts[0])
  {
    assert FillsOf(ts)[0] == FillOf(ts[0]);
  }

  lemma PlaceSides(c: Core, m: Market, o: Order)
    ensures var reply := Place(c, m, o).1;
            reply.Accepted? ==> forall t :: t in reply.trades ==> t.market == o.market && t.side == o.side
  {
    match Freeze(c.ledger, LockAcct(m, o), Need(o, o.amount))
    case Refused(_) =>
    case Done(l) => LoopTakes(Entered(c.(ledger := l), o), m, o);
  }

  /** An affordable order leaves no deal unpaid exactly when each fill that the book holds for it
      costs at most what the taker has left after the lock; if already the first costs more, it is
      unpaid. */
  lemma PlaceUnpaidIff(c: Core, m: Market, o: Order)
    requires Sound(c) && Fresh(c, o) && NoOwnMaker(c, o) && Frozen(c, LockAcct(m, o)) >= 0.0
    ensures var (c', reply) := Place(c.(nextId := o.id), m, o);
            var spare, fs := Spare(c, LockAcct(m, o)) - Need(o, o.amount), Prospect(c, o);
            && (!Affordable(c.ledger, m, o) ==> c'.journal == c.journal)
            && (Affordable(c.ledger, m, o) ==>
                  && reply.Accepted?
                  && FillsOf(reply.trades) == fs
                  && (c'.journal.unpaid == c.journal.unpaid <==> Affords(fs, o.side, spare))
                  && (fs != [] && FillCost(fs[0], o.side) > spare ==>
                        reply.trades != [] && c.journal.unpaid + [reply.trades[0]] <= c'.journal.unpaid))
  {
    var (c', reply) := Place(c.(nextId := o.id), m, o);
    PlaceAcceptedIff(c.(nextId := o.id), m, o);
    PlaceDeals(c, m, o);
    PlaceSides(c.(nextId := o.id), m, o);
    PlaceFillsProspect(c, m, o);
    if reply.Accepted? {
      CostsOfFills(reply.trades, o.side, Spare(c, LockAcct(m, o)) - Need(o, o.amount));
      if reply.trades != [] { FirstFill(reply.trades, o.side); }
    }
  }

  /** Twice the need pays for everything. */
  lemma TwiceTheNeedPays(c: Core, m: Market, o: Order)
    requires Sound(c) && Fresh(c, o) && NoOwnMaker(c, o) && Frozen(c, LockAcct(m, o)) >= 0.0
    requires Spare(c, LockAcct(m, o)) >= Need(o, o.amount) + Need(o, o.amount)
    ensures Place(c.(nextId := o.id), m, o).0.journal.unpaid == c.journal.unpaid
  {
    PlaceDeals(c, m, o);
  }

  /** A taker that locks all it has pays for nothing with its first deal. */
  lemma AllLockedIsUnpaid(c: Core, m: Market, o: Order)
    requires Sound(c) && Fresh(c, o) && NoOwnMaker(c, o) && Frozen(c, LockAcct(m, o)) >= 0.0
    requires Spare(c, LockAcct(m, o)) == Need(o, o.amount) && Prospect(c, o) != []
    ensures var (c', reply) := Place(c.(nextId := o.id), m, o);
            && reply.Accepted? && reply.trades != []
            && c.journal.unpaid + [reply.trades[0]] <= c'.journal.unpaid
  {
    HeldIsAffordable(c.ledger, m, o);
    PlaceAcceptedIff(c.(nextId := o.id), m, o);
    PlaceDeals(c, m, o);
    PlaceFillsProspect(c, m, o);
  }

  ghost function Fees(): Trade -> real { (t: Trade) => t.makerFee }

  /** So with twice the need at hand a call costs the settled asset exactly the maker fees. */
  lemma TwiceTheNeedLosesFees(c: Core, markets: Markets, o: Order)
    requires Sound(c) && Fresh(c, o) && NoOwnMaker(c, o)
    requires var k := LockAcct(MarketIn(markets, o.market), o);
             Frozen(c, k) >= 0.0 && Spare(c, k) >= Need(o, o.amount) + Need(o, o.amount)
    ensures var (c', reply) := Place(c.(nextId := o.id), MarketIn(markets, o.market), o);
            var asset := SettledAsset(MarketIn(markets, o.market), o.side);
            reply.Accepted? && Supply(c'.ledger, asset) == Supply(c.ledger, asset) - Total(reply.trades, Fees())
  {
    var m := MarketIn(markets, o.market);
    var asset := SettledAsset(m, o.side);
    var c0 := c.(nextId := o.id);
    var (c', reply) := Place(c0, m, o);
    PlaceBalanced(c0, markets, o, asset);
    TwiceTheNeedPays(c, m, o);
    PlaceDeals(c, m, o);
    ProductPositive(o.price, o.amount);
    HeldIsAffordable(c.ledger, m, o);
    PlaceAcceptedIff(c0, m, o);
    TotalAppend(c.journal.deals, reply.trades, FeeIn(markets, asset));
    LoopTakes(Entered(c0.(ledger := Freeze(c.ledger, LockAcct(m, o), Need(o, o.amount)).ledger), o), m, o);
    TotalSame(reply.trades, FeeIn(markets, asset), Fees());
  }
}
