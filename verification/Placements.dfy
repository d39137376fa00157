/** What becomes of a limit order while no stop orders wait: how much of it fills, whether
    the rest of it enters the book, and what stays frozen for it. */
module Placements {
  import opened Orders
  import opened Ledgers
  import opened Sums
  import opened Matching
  import opened FillLedger
  import opened SoundBooks
  import opened Solvency
  import opened LevelSweep
  import opened Acceptances

  // ---------- the resting rule ----------

  /** The order gets something, but not all it wants. */
  ghost predicate Rests(c: Core, o: Order) { 0.0 < Reachable(c, o) < o.amount }

  lemma EnteredReach(c: Core, l: Ledger, o: Order)
    requires Sound(c) && Fresh(c, o)
    ensures Reachable(Entered(c.(nextId := o.id).(ledger := l), o), o) == Reachable(c, o)
  {
    var c1 := Entered(c.(nextId := o.id).(ledger := l), o);
    var s := if o.side.Ask? then WithinLimit(o) else Anywhere();
    var q, f, g := c.Makers(o), WeightIf(c.table, s), WeightIf(c1.table, s);
    forall p | p in q ensures f(p) == g(p) {
      assert Resting(c, p, o.side.Opposite());
      assert LeftIn(c1.table, p) == LeftIn(c.table, p);
    }
    TotalSame(q, f, g);
  }

  /** The end of a call: the order is in the book when it is partly filled, else it is not. */
  lemma RestedIff(c: Core, o: Order)
    requires Sound(c) && Taking(c, o)
    ensures var c', rests := Rested(c, o), 0.0 < c.Left(o) < o.amount;
            && (c'.book.Queued(o) <==> rests) && (o.id in c'.book.live <==> rests)
            && c'.Left(o) == c.Left(o) && c'.Status(o) == (if rests then Partial else Finished)
  {
    PushedQueued(c.book.Queue(o.side), o);
    assert c.book.Queued(o) ==> QueuedId(c, o.id);
    assert o.id in c.book.live ==> QueuedId(c, o.id);
  }

  /** A limit order fills the smaller of its amount and what it can reach. It rests with what
      is left exactly when both are more than nothing; an order that gets nothing is finished
      like one that gets everything. */
  lemma PlaceRestsIff(c: Core, m: Market, o: Order)
    requires Sound(c) && Fresh(c, o)
    ensures var (c', reply) := Place(c.(nextId := o.id), m, o);
            Affordable(c.ledger, m, o) ==>
              && reply.Accepted?
              && Volume(reply.trades) == Min(o.amount, Reachable(c, o))
              && c'.Left(o) == o.amount - Volume(reply.trades)
              && (c'.book.Queued(o) <==> Rests(c, o))
              && (o.id in c'.book.live <==> Rests(c, o))
              && c'.Status(o) == (if Rests(c, o) then Partial else Finished)
  {
    PlaceAcceptedIff(c.(nextId := o.id), m, o);
    match Freeze(c.ledger, LockAcct(m, o), Need(o, o.amount))
    case Refused(_) =>
    case Done(l) =>
      var c1 := Entered(c.(nextId := o.id).(ledger := l), o);
      EnteredSound(c, l, o);
      EnteredReach(c, l, o);
      LoopTotal(c1, m, o);
      LoopSound(c1, m, o);
      RestedIff(TakerLoop(c1, m, o).core, o);
  }

  // ---------- what stays frozen ----------

  ghost function Costs(): Trade -> real { (t: Trade) => Cost(t) }

  lemma {:induction false} LoopFrozen(c: Core, m: Market, o: Order, k: Acct)
    requires Sound(c) && Taking(c, o)
    requires Frozen(c, LockAcct(m, o)) >= Need(o, c.Left(o))
    ensures var r := TakerLoop(c, m, o);
            && Frozen(r.core, k) == Frozen(c, k) - (if k == LockAcct(m, o) then Total(r.trades, Costs()) else 0.0)
            && r.core.journal.failedUnlocks == c.journal.failedUnlocks
    decreases |c.stops|, |c.Makers(o)|, if c.Left(o) > 0.0 then 1 else 0
  {
    if CanTrade(c, o) {
      var c1, t := Iterated(c, m, o), NextTrade(c, o, c.Makers(o)[0]);
      IteratedSound(c, m, o);
      IteratedFrozen(c, m, o, k);
      assert Frozen(c1, LockAcct(m, o)) >= Need(o, c1.Left(o)) by {
        IteratedLeft(c, m, o);
        IteratedFrozen(c, m, o, LockAcct(m, o));
      }
      LoopFrozen(c1, m, o, k);
      var rest := TakerLoop(c1, m, o).trades;
      assert ([t] + rest)[1..] == rest;
    }
  }

  /** A call freezes what the order may need and gives back exactly what its trades cost: a
      bid that traded below its limit, an order that got nothing, and a maker that is filled
      all leave frozen what they did not use. */
  lemma PlaceFrozen(c: Core, m: Market, o: Order, k: Acct)
    requires Sound(c) && Fresh(c, o) && Frozen(c, LockAcct(m, o)) >= 0.0
    ensures var (c', reply) := Place(c.(nextId := o.id), m, o);
            && (reply.Accepted? <==> Affordable(c.ledger, m, o))
            && c'.journal.failedUnlocks == c.journal.failedUnlocks
            && Frozen(c', k) == Frozen(c, k)
                                + (if k == LockAcct(m, o) && reply.Accepted?
                                   then Need(o, o.amount) - Total(reply.trades, Costs()) else 0.0)
  {
    PlaceAcceptedIff(c.(nextId := o.id), m, o);
    match Freeze(c.ledger, LockAcct(m, o), Need(o, o.amount))
    case Refused(_) =>
    case Done(l) =>
      var c1 := Entered(c.(nextId := o.id).(ledger := l), o);
      EnteredSound(c, l, o);
      LoopFrozen(c1, m, o, k);
      RestedFunds(TakerLoop(c1, m, o).core, o);
  }

  // ---------- canceled orders ----------

  predicate SameLefts(a: map<nat, Cell>, b: map<nat, Cell>) {
    a.Keys == b.Keys && forall id :: id in a ==> a[id].left == b[id].left
  }

  /** The same queues and quantities; the order maps, the funds and the lists may differ. */
  ghost predicate FillsAlike(c: Core, d: Core) {
    && c.book.bids == d.book.bids && c.book.asks == d.book.asks
    && c.stops == [] && d.stops == [] && c.halted == d.halted && c.nextId == d.nextId
    && SameLefts(c.table, d.table)
  }

  lemma TradedAlike(c: Core, d: Core, m: Market, o: Order)
    requires FillsAlike(c, d) && CanTrade(c, o)
    ensures CanTrade(d, o) && NextTrade(c, o, c.Makers(o)[0]) == NextTrade(d, o, d.Makers(o)[0])
    ensures FillsAlike(Traded(c, m, o), Traded(d, m, o))
  {
    var maker := c.Makers(o)[0];
    var t := NextTrade(c, o, maker);
    assert SameLefts(Filled(c, o, maker, t).table, Filled(d, o, maker, t).table);
  }

  lemma PoppedAlike(c: Core, d: Core, side: Side, maker: Order)
    requires FillsAlike(c, d)
    ensures FillsAlike(PopIfDone(c, side, maker), PopIfDone(d, side, maker))
  {
    assert c.Left(maker) == d.Left(maker);
    if c.Left(maker) <= 0.0 { MakerPoppedAlike(c, d, side, maker); }
  }

  lemma MakerPoppedAlike(c: Core, d: Core, side: Side, maker: Order)
    requires FillsAlike(c, d)
    ensures FillsAlike(PopMaker(c, side, maker), PopMaker(d, side, maker))
  {
    if side.Ask? {
    } else {
    }
  }

  lemma {:induction false} LoopFillsAlike(c: Core, d: Core, m: Market, o: Order)
    requires FillsAlike(c, d)
    ensures TakerLoop(c, m, o).trades == TakerLoop(d, m, o).trades
    ensures FillsAlike(TakerLoop(c, m, o).core, TakerLoop(d, m, o).core)
    decreases |c.stops|, |c.Makers(o)|, if c.Left(o) > 0.0 then 1 else 0
  {
    if CanTrade(c, o) {
      TradedAlike(c, d, m, o);
      NoStopsIterated(c, m, o);
      NoStopsIterated(d, m, o);
      PoppedAlike(Traded(c, m, o), Traded(d, m, o), o.side.Opposite(), c.Makers(o)[0]);
      LoopFillsAlike(Iterated(c, m, o), Iterated(d, m, o), m, o);
    }
  }

  lemma CanceledAlike(c: Core, m: Market, id: nat)
    requires Sound(c)
    ensures FillsAlike(Cancel(c, m, id), c)
  {
    if id in c.book.live {
      var x := c.book.live[id];
      assert c.book.Queued(x) && (Resting(c, x, Ask) || Resting(c, x, Bid));
    }
  }

  lemma AddedAlike(c: Core, d: Core, o: Order)
    requires FillsAlike(c, d)
    ensures FillsAlike(AddedToBook(c, o), AddedToBook(d, o))
  {
    if o.side.Ask? {
    } else {
    }
  }

  lemma RestedAlike(c: Core, d: Core, o: Order)
    requires FillsAlike(c, d)
    ensures FillsAlike(Rested(c, o), Rested(d, o))
  {
    assert c.Left(o) == d.Left(o);
    if 0.0 < c.Left(o) < o.amount { AddedAlike(c.WithStatus(o, Partial), d.WithStatus(o, Partial), o); }
  }

  predicate Locks(c: Core, m: Market, o: Order) { Freeze(c.ledger, LockAcct(m, o), Need(o, o.amount)).Done? }

  lemma PlaceAlike(c: Core, d: Core, m: Market, o: Order)
    requires FillsAlike(c, d) && (Locks(c, m, o) <==> Locks(d, m, o))
    ensures var (c', r), (d', s) := Place(c, m, o), Place(d, m, o);
            FillsAlike(c', d') && (r.Accepted? <==> s.Accepted?) && (r.Accepted? ==> r.trades == s.trades)
  {
    if Locks(c, m, o) {
      var c1 := Entered(c.(ledger := Freeze(c.ledger, LockAcct(m, o), Need(o, o.amount)).ledger), o);
      var d1 := Entered(d.(ledger := Freeze(d.ledger, LockAcct(m, o), Need(o, o.amount)).ledger), o);
      LoopFillsAlike(c1, d1, m, o);
      RestedAlike(TakerLoop(c1, m, o).core, TakerLoop(d1, m, o).core, o);
    }
  }

  // ---------- later calls ----------

  function NextCall(c: Core, m: Market, o: Order): (Core, Reply) {
    Place(c.(nextId := c.nextId + 1), m, o.(id := c.nextId + 1))
  }

  /** What limit orders trade that are placed one after the other, each with the next ID; nothing
      where one is refused. */
  function TradesOfAll(c: Core, m: Market, orders: seq<Order>): seq<seq<Trade>>
    decreases |orders|
  {
    if orders == [] then []
    else
      var (c', r) := NextCall(c, m, orders[0]);
      [if r.Accepted? then r.trades else []] + TradesOfAll(c', m, orders[1..])
  }

  /** The accounts of everybody but `u` are the same. */
  ghost predicate FundsAlike(l: Ledger, r: Ledger, u: nat) {
    forall k: Acct :: k.userId != u ==> (k in l <==> k in r) && Held(l, k) == Held(r, k)
  }

  lemma SubAlike(l: Ledger, r: Ledger, k: Acct, x: real, u: nat)
    requires FundsAlike(l, r, u) && k.userId != u
    ensures FundsAlike(Sub(l, k, x).Else(l), Sub(r, k, x).Else(r), u)
  {
    assert Held(l, k) == Held(r, k);
  }

  lemma AddAlike(l: Ledger, r: Ledger, k: Acct, x: real, u: nat)
    requires FundsAlike(l, r, u)
    ensures FundsAlike(Add(l, k, x), Add(r, k, x), u)
  {
    assert k.userId != u ==> Held(l, k) == Held(r, k);
  }

  lemma UnfreezeAlike(l: Ledger, r: Ledger, k: Acct, x: real, u: nat)
    requires FundsAlike(l, r, u) && k.userId != u
    ensures FundsAlike(Unfreeze(l, k, x).Else(l), Unfreeze(r, k, x).Else(r), u)
  {
    assert Held(l, k) == Held(r, k);
  }

  lemma PaidFundsAlike(c: Core, d: Core, m: Market, t: Trade, u: nat)
    requires FundsAlike(c.ledger, d.ledger, u) && t.takerUserId != u
    ensures FundsAlike(Paid(c, m, t).ledger, Paid(d, m, t).ledger, u)
  {
    var taker, maker := Acct(t.takerUserId, SettledAsset(m, t.side)), Acct(t.makerUserId, SettledAsset(m, t.side));
    var l0, r0 := Sub(c.ledger, taker, Cost(t)).Else(c.ledger), Sub(d.ledger, taker, Cost(t)).Else(d.ledger);
    var l1, r1 := Add(l0, maker, Cost(t) - t.makerFee), Add(r0, maker, Cost(t) - t.makerFee);
    SubAlike(c.ledger, d.ledger, taker, Cost(t), u);
    AddAlike(l0, r0, maker, Cost(t) - t.makerFee, u);
    UnfreezeAlike(l1, r1, taker, Cost(t), u);
    PaidLedger(c, m, t, l0, l1);
    PaidLedger(d, m, t, r0, r1);
  }

  lemma PaidLedger(c: Core, m: Market, t: Trade, l0: Ledger, l1: Ledger)
    requires l0 == Sub(c.ledger, Acct(t.takerUserId, SettledAsset(m, t.side)), Cost(t)).Else(c.ledger)
    requires l1 == Add(l0, Acct(t.makerUserId, SettledAsset(m, t.side)), Cost(t) - t.makerFee)
    ensures Paid(c, m, t).ledger == Unfreeze(l1, Acct(t.takerUserId, SettledAsset(m, t.side)), Cost(t)).Else(l1)
  {
  }

  lemma {:induction false} LoopFundsAlike(c: Core, d: Core, m: Market, o: Order, u: nat)
    requires FillsAlike(c, d) && FundsAlike(c.ledger, d.ledger, u) && o.userId != u
    ensures FundsAlike(TakerLoop(c, m, o).core.ledger, TakerLoop(d, m, o).core.ledger, u)
    decreases |c.stops|, |c.Makers(o)|, if c.Left(o) > 0.0 then 1 else 0
  {
    if CanTrade(c, o) {
      TradedAlike(c, d, m, o);
      TradedFundsAlike(c, d, m, o, u);
      NoStopsIterated(c, m, o);
      NoStopsIterated(d, m, o);
      PoppedAlike(Traded(c, m, o), Traded(d, m, o), o.side.Opposite(), c.Makers(o)[0]);
      PoppedFunds(Traded(c, m, o), o.side.Opposite(), c.Makers(o)[0]);
      PoppedFunds(Traded(d, m, o), o.side.Opposite(), c.Makers(o)[0]);
      LoopFundsAlike(Iterated(c, m, o), Iterated(d, m, o), m, o, u);
    }
  }

  lemma TradedFundsAlike(c: Core, d: Core, m: Market, o: Order, u: nat)
    requires FillsAlike(c, d) && CanTrade(c, o) && FundsAlike(c.ledger, d.ledger, u) && o.userId != u
    ensures FundsAlike(Traded(c, m, o).ledger, Traded(d, m, o).ledger, u)
  {
    var maker := c.Makers(o)[0];
    var t := NextTrade(c, o, maker);
    TradedAlike(c, d, m, o);
    PaidFundsAlike(Recorded(Filled(c, o, maker, t), t), Recorded(Filled(d, o, maker, t), t), m, t, u);
  }

  lemma PlaceFundsAlike(c: Core, d: Core, m: Market, o: Order, u: nat)
    requires FillsAlike(c, d) && FundsAlike(c.ledger, d.ledger, u) && o.userId != u
    ensures Locks(c, m, o) <==> Locks(d, m, o)
    ensures FundsAlike(Place(c, m, o).0.ledger, Place(d, m, o).0.ledger, u)
  {
    assert Held(c.ledger, LockAcct(m, o)) == Held(d.ledger, LockAcct(m, o));
    if Locks(c, m, o) {
      var l := Freeze(c.ledger, LockAcct(m, o), Need(o, o.amount)).ledger;
      var r := Freeze(d.ledger, LockAcct(m, o), Need(o, o.amount)).ledger;
      var c1, d1 := Entered(c.(ledger := l), o), Entered(d.(ledger := r), o);
      LoopFundsAlike(c1, d1, m, o, u);
      RestedFunds(TakerLoop(c1, m, o).core, o);
      RestedFunds(TakerLoop(d1, m, o).core, o);
    }
  }

  lemma NextAlike(c: Core, d: Core, m: Market, o: Order, u: nat)
    requires FillsAlike(c, d) && FundsAlike(c.ledger, d.ledger, u) && o.userId != u
    ensures var (c', r), (d', s) := NextCall(c, m, o), NextCall(d, m, o);
            && FillsAlike(c', d') && FundsAlike(c'.ledger, d'.ledger, u)
            && (r.Accepted? <==> s.Accepted?) && (r.Accepted? ==> r.trades == s.trades)
  {
    var c1, d1, p := c.(nextId := c.nextId + 1), d.(nextId := d.nextId + 1), o.(id := c.nextId + 1);
    PlaceFundsAlike(c1, d1, m, p, u);
    PlaceAlike(c1, d1, m, p);
  }

  lemma {:induction false} OrdersFillAlike(c: Core, d: Core, m: Market, orders: seq<Order>, u: nat)
    requires FillsAlike(c, d) && FundsAlike(c.ledger, d.ledger, u) && forall o :: o in orders ==> o.userId != u
    ensures TradesOfAll(c, m, orders) == TradesOfAll(d, m, orders)
    decreases |orders|
  {
    if orders != [] {
      assert orders[0] in orders && forall p :: p in orders[1..] ==> p in orders;
      NextAlike(c, d, m, orders[0], u);
      OrdersFillAlike(NextCall(c, m, orders[0]).0, NextCall(d, m, orders[0]).0, m, orders[1..], u);
    }
  }

  lemma CanceledFunds(c: Core, m: Market, id: nat, u: nat)
    requires id in c.book.live ==> c.book.live[id].userId == u
    ensures FundsAlike(Cancel(c, m, id).ledger, c.ledger, u)
  {
  }

  /** A cancel only takes the order out of the map: whatever limit orders others place later, they
      make the same trades as without it, with the canceled order too. */
  lemma FillsIgnoreCancel(c: Core, m: Market, id: nat, orders: seq<Order>)
    requires Sound(c)
    requires id in c.book.live ==> forall o :: o in orders ==> o.userId != c.book.live[id].userId
    ensures TradesOfAll(Cancel(c, m, id), m, orders) == TradesOfAll(c, m, orders)
  {
    if id in c.book.live {
      var u := c.book.live[id].userId;
      CanceledAlike(c, m, id);
      CanceledFunds(c, m, id, u);
      OrdersFillAlike(Cancel(c, m, id), c, m, orders, u);
    }
  }
}
