/** Where the money of a call goes: the available balance of every account after it, read off the
    book and the balances before it. */
module Payouts {
  import opened Orders
  import opened Ledgers
  import opened Matching
  import opened FillLedger
  import opened SoundBooks
  import opened Acceptances
  import opened Solvency
  import opened Executions
  import opened Payments

  /** A maker gets what the fill costs less a thousandth of the amount. */
  function Receipt(f: Fill, side: Side): real { FillCost(f, side) - f.amount / 1000.0 }

  /** What user `u` gets from these fills. */
  function Receipts(fs: seq<Fill>, side: Side, u: nat): real {
    if fs == [] then 0.0 else (if fs[0].userId == u then Receipt(fs[0], side) else 0.0) + Receipts(fs[1..], side, u)
  }

  /** What the taker gets unlocked for fills that it did not pay, with `spare` beside the lock. */
  function Unpaid(fs: seq<Fill>, side: Side, spare: real): real {
    if fs == [] then 0.0
    else
      var cost := FillCost(fs[0], side);
      if cost <= spare then Unpaid(fs[1..], side, spare) else cost + Unpaid(fs[1..], side, spare + cost)
  }

  lemma PaidOther(c: Core, m: Market, t: Trade, k: Acct)
    requires k != Acct(t.takerUserId, SettledAsset(m, t.side))
    ensures Spare(Paid(c, m, t), k)
         == Spare(c, k) + (if k == Acct(t.makerUserId, SettledAsset(m, t.side)) then Cost(t) - t.makerFee else 0.0)
  {
  }

  lemma TradedOther(c: Core, m: Market, o: Order, k: Acct)
    requires CanTrade(c, o) && k != LockAcct(m, o)
    ensures var t := NextTrade(c, o, c.Makers(o)[0]);
            Spare(Traded(c, m, o), k)
            == if k == Acct(t.makerUserId, SettledAsset(m, o.side)) then Spare(c, k) + Receipt(FillOf(t), o.side)
               else Spare(c, k)
  {
    var maker := c.Makers(o)[0];
    var t := NextTrade(c, o, maker);
    PaidOther(Recorded(Filled(c, o, maker, t), t), m, t, k);
    TradeTakes(c, o);
  }

  /** One account's available balance after a fill. */
  function After(f: Fill, m: Market, o: Order, k: Acct, spare: real): real {
    if k == LockAcct(m, o) then (if FillCost(f, o.side) <= spare then spare else spare + FillCost(f, o.side))
    else if k.asset == SettledAsset(m, o.side) && k.userId == f.userId then spare + Receipt(f, o.side)
    else spare
  }

  function AfterAll(fs: seq<Fill>, m: Market, o: Order, k: Acct, spare: real): real {
    if fs == [] then spare else AfterAll(fs[1..], m, o, k, After(fs[0], m, o, k, spare))
  }

  lemma IteratedPays(c: Core, m: Market, o: Order, k: Acct)
    requires Ready(c, m, o) && CanTrade(c, o)
    ensures var c', f := Iterated(c, m, o), FillOf(NextTrade(c, o, c.Makers(o)[0]));
            Spare(c', k) == After(f, m, o, k, Spare(c, k))
  {
    if k == LockAcct(m, o) { IteratedPaysTaker(c, m, o); } else { IteratedPaysOther(c, m, o, k); }
  }

  lemma IteratedPaysTaker(c: Core, m: Market, o: Order)
    requires Ready(c, m, o) && CanTrade(c, o)
    ensures var k, f := LockAcct(m, o), FillOf(NextTrade(c, o, c.Makers(o)[0]));
            Spare(Iterated(c, m, o), k) == After(f, m, o, k, Spare(c, k))
  {
    IteratedSpare(c, m, o);
    SameCost(c, o);
  }

  lemma SameCost(c: Core, o: Order)
    requires CanTrade(c, o)
    ensures var t := NextTrade(c, o, c.Makers(o)[0]); FillCost(FillOf(t), o.side) == Cost(t)
  {
  }

  lemma IteratedPaysOther(c: Core, m: Market, o: Order, k: Acct)
    requires Sound(c) && CanTrade(c, o) && k != LockAcct(m, o)
    ensures var f := FillOf(NextTrade(c, o, c.Makers(o)[0]));
            Spare(Iterated(c, m, o), k) == After(f, m, o, k, Spare(c, k))
  {
    NoStopsIterated(c, m, o);
    TradedOther(c, m, o, k);
    PoppedFunds(Traded(c, m, o), o.side.Opposite(), c.Makers(o)[0]);
  }

  lemma {:induction false} LoopPays(c: Core, m: Market, o: Order, k: Acct)
    requires Ready(c, m, o)
    ensures var r := TakerLoop(c, m, o); Spare(r.core, k) == AfterAll(FillsOf(r.trades), m, o, k, Spare(c, k))
    decreases |c.stops|, |c.Makers(o)|, if c.Left(o) > 0.0 then 1 else 0
  {
    if CanTrade(c, o) {
      var c1, t := Iterated(c, m, o), NextTrade(c, o, c.Makers(o)[0]);
      IteratedPays(c, m, o, k);
      IteratedSpare(c, m, o);
      LoopPays(c1, m, o, k);
      var rest := TakerLoop(c1, m, o).trades;
      assert ([t] + rest)[1..] == rest;
      assert FillsOf([t] + rest)[1..] == FillsOf(rest);
    }
  }

  lemma {:induction false} TakerAfterAll(fs: seq<Fill>, m: Market, o: Order, k: Acct, spare: real)
    requires k == LockAcct(m, o)
    ensures AfterAll(fs, m, o, k, spare) == spare + Unpaid(fs, o.side, spare)
  {
    if fs != [] { TakerAfterAll(fs[1..], m, o, k, After(fs[0], m, o, k, spare)); }
  }

  lemma {:induction false} MakerAfterAll(fs: seq<Fill>, m: Market, o: Order, k: Acct, spare: real)
    requires k != LockAcct(m, o)
    ensures AfterAll(fs, m, o, k, spare)
         == spare + if k.asset == SettledAsset(m, o.side) then Receipts(fs, o.side, k.userId) else 0.0
  {
    if fs != [] { MakerAfterAll(fs[1..], m, o, k, After(fs[0], m, o, k, spare)); }
  }

  lemma LoopPaysTaker(c: Core, m: Market, o: Order)
    requires Ready(c, m, o)
    ensures var r, k := TakerLoop(c, m, o), LockAcct(m, o);
            Spare(r.core, k) == Spare(c, k) + Unpaid(FillsOf(r.trades), o.side, Spare(c, k))
  {
    LoopPays(c, m, o, LockAcct(m, o));
    TakerAfterAll(FillsOf(TakerLoop(c, m, o).trades), m, o, LockAcct(m, o), Spare(c, LockAcct(m, o)));
  }

  lemma LoopPaysOther(c: Core, m: Market, o: Order, k: Acct)
    requires Ready(c, m, o) && k != LockAcct(m, o)
    ensures var r := TakerLoop(c, m, o);
            Spare(r.core, k)
            == Spare(c, k)
               + if k.asset == SettledAsset(m, o.side) then Receipts(FillsOf(r.trades), o.side, k.userId) else 0.0
  {
    LoopPays(c, m, o, k);
    MakerAfterAll(FillsOf(TakerLoop(c, m, o).trades), m, o, k, Spare(c, k));
  }

  /** The same for a whole call, which first freezes `need`. */
  function Moved(fs: seq<Fill>, m: Market, o: Order, k: Acct, spare: real, need: real): real {
    if k == LockAcct(m, o) then spare - need + Unpaid(fs, o.side, spare - need)
    else if k.asset == SettledAsset(m, o.side) then spare + Receipts(fs, o.side, k.userId)
    else spare
  }

  lemma FrozenSpare(l: Ledger, l': Ledger, k: Acct, need: real, q: Acct)
    requires Freeze(l, k, need) == Done(l')
    ensures Held(l', q).available == if q == k then Held(l, q).available - need else Held(l, q).available
  {
  }

  /** The loop's share of it: `lent` is what the account has when the loop begins. */
  lemma LoopMoves(c1: Core, m: Market, o: Order, k: Acct, spare: real, need: real, lent: real)
    requires Ready(c1, m, o) && Spare(c1, k) == lent
    requires lent == if k == LockAcct(m, o) then spare - need else spare
    ensures var r := TakerLoop(c1, m, o); Spare(r.core, k) == Moved(FillsOf(r.trades), m, o, k, spare, need)
  {
    if k == LockAcct(m, o) { LoopPaysTaker(c1, m, o); } else { LoopPaysOther(c1, m, o, k); }
  }

  lemma MovedMeans(fs: seq<Fill>, m: Market, o: Order, k: Acct, spare: real, need: real)
    ensures Moved(fs, m, o, k, spare, need)
         == if k.asset != (if o.side.Bid? then m.money else m.stock) then spare
            else if k.userId == o.userId then spare - need + Unpaid(fs, o.side, spare - need)
            else spare + Receipts(fs, o.side, k.userId)
  {
  }

  lemma AcceptedPays(c: Core, l: Ledger, m: Market, o: Order, k: Acct)
    requires Sound(c) && Fresh(c, o) && NoOwnMaker(c, o) && Frozen(c, LockAcct(m, o)) >= 0.0
    requires Freeze(c.ledger, LockAcct(m, o), Need(o, o.amount)) == Done(l)
    ensures var r := TakerLoop(Entered(c.(nextId := o.id).(ledger := l), o), m, o);
            Spare(Rested(r.core, o), k) == Moved(FillsOf(r.trades), m, o, k, Spare(c, k), Need(o, o.amount))
  {
    var c1 := Entered(c.(nextId := o.id).(ledger := l), o);
    EnteredReady(c, l, m, o);
    FrozenSpare(c.ledger, l, LockAcct(m, o), Need(o, o.amount), k);
    LoopMoves(c1, m, o, k, Spare(c, k), Need(o, o.amount), Spare(c1, k));
    RestedFunds(TakerLoop(c1, m, o).core, o);
  }

  lemma CallMoves(c: Core, m: Market, o: Order, k: Acct)
    requires Sound(c) && Fresh(c, o) && NoOwnMaker(c, o) && Frozen(c, LockAcct(m, o)) >= 0.0
    requires Affordable(c.ledger, m, o)
    ensures Spare(Place(c.(nextId := o.id), m, o).0, k)
         == Moved(Prospect(c, o), m, o, k, Spare(c, k), Need(o, o.amount))
  {
    PlaceAcceptedIff(c.(nextId := o.id), m, o);
    PlaceFillsProspect(c, m, o);
    AcceptedPays(c, Freeze(c.ledger, LockAcct(m, o), Need(o, o.amount)).ledger, m, o, k);
  }

  /** What an order locks. */
  function Locked(o: Order): real { if o.side.Bid? then o.price * o.amount else o.amount }

  lemma LockedIsNeed(o: Order)
    ensures Need(o, o.amount) == Locked(o)
  {
  }

  /** The available balance of every account after a call. The taker's is down by what its order
      may need, and up by each fill that this no longer covered; a maker's is up by what its fills
      cost less a thousandth of their amount; nobody else's changes. */
  lemma PlacePays(c: Core, m: Market, o: Order, k: Acct)
    requires Sound(c) && Fresh(c, o) && NoOwnMaker(c, o) && Frozen(c, LockAcct(m, o)) >= 0.0
    ensures var c', fs, before := Place(c.(nextId := o.id), m, o).0, Prospect(c, o), Spare(c, k);
            Spare(c', k)
            == if !Affordable(c.ledger, m, o) || k.asset != (if o.side.Bid? then m.money else m.stock) then before
               else if k.userId == o.userId then before - Locked(o) + Unpaid(fs, o.side, before - Locked(o))
               else before + Receipts(fs, o.side, k.userId)
  {
    if Affordable(c.ledger, m, o) {
      CallMoves(c, m, o, k);
      LockedIsNeed(o);
      MovedMeans(Prospect(c, o), m, o, k, Spare(c, k), Need(o, o.amount));
    } else {
      PlaceAcceptedIff(c.(nextId := o.id), m, o);
    }
  }

  // ---------- a cancel ----------

  /** A cancel gives what is left of the order back, from frozen to available, and touches nothing
      else of any account. */
  lemma CancelPays(c: Core, m: Market, id: nat, k: Acct)
    requires Sound(c) && id in c.book.live
    requires Frozen(c, LockAcct(m, c.book.live[id])) >= Need(c.book.live[id], c.Left(c.book.live[id]))
    ensures var c', o := Cancel(c, m, id), c.book.live[id];
            var back := if o.side.Bid? then o.price * c.Left(o) else c.Left(o);
            var moved := if k == Acct(o.userId, if o.side.Bid? then m.money else m.stock) then back else 0.0;
            && id !in c'.book.live && c'.Status(o) == Canceled
            && Spare(c', k) == Spare(c, k) + moved && Frozen(c', k) == Frozen(c, k) - moved
  {
    var o := c.book.live[id];
    LiveIsUncanceled(c, o);
    assert Resting(c, o, o.side);
    ProductPositive(o.price, c.Left(o));
  }
}
