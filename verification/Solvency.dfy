/** Frozen funds cover what resting orders may still have to pay. */
module Solvency {
  import opened Orders
  import opened PriceQueues
  import opened Ledgers
  import opened Sums
  import opened Matching
  import opened FillLedger
  import opened SoundBooks

  /** What a live queue member of user `u` still needs: price times left, or left. */
  ghost function ClaimOf(c: Core, u: nat): Order -> real {
    (o: Order) => if o.userId == u && o.id in c.book.live then Need(o, c.Left(o)) else 0.0
  }

  ghost function SideClaim(c: Core, side: Side, u: nat): real { Total(c.book.Queue(side), ClaimOf(c, u)) }

  /** The sum over the user's resting bids where the account holds money, plus the sum
      over the resting asks where it holds stock. */
  ghost function Claim(c: Core, m: Market, k: Acct): real {
    (if k.asset == m.money then SideClaim(c, Bid, k.userId) else 0.0)
    + (if k.asset == m.stock then SideClaim(c, Ask, k.userId) else 0.0)
  }

  ghost function Frozen(c: Core, k: Acct): real { Held(c.ledger, k).frozen }

  ghost function TakerNeed(c: Core, m: Market, o: Order, k: Acct): real {
    if k == LockAcct(m, o) then Need(o, c.Left(o)) else 0.0
  }

  /** How far the frozen amount exceeds what this market's orders may still need. */
  ghost function Slack(c: Core, m: Market, k: Acct): real { Frozen(c, k) - Claim(c, m, k) }

  lemma NeedGrows(o: Order, x: real, y: real)
    requires o.side.Bid? ==> o.price > 0.0
    requires x <= y
    ensures Need(o, x) <= Need(o, y)
  {
    if o.side.Bid? { ProductGrows(o.price, x, y); }
  }

  lemma ClaimNonNegative(c: Core, m: Market, k: Acct)
    requires Sound(c)
    ensures Claim(c, m, k) >= 0.0
    ensures SideClaim(c, Bid, k.userId) >= 0.0 && SideClaim(c, Ask, k.userId) >= 0.0
  {
    forall side: Side ensures SideClaim(c, side, k.userId) >= 0.0 {
      var f := ClaimOf(c, k.userId);
      forall o | o in c.book.Queue(side) ensures f(o) >= 0.0 {
        assert Resting(c, o, side);
        NeedGrows(o, 0.0, c.Left(o));
      }
      TotalNonNegative(c.book.Queue(side), f);
    }
  }

  // ---------- one turn of the loop ----------

  lemma TurnedOwnSide(c: Core, c': Core, o: Order, u: nat)
    requires Sound(c) && Taking(c, o) && CanTrade(c, o) && Turned(c, c', o)
    ensures SideClaim(c', o.side, u) == SideClaim(c, o.side, u)
  {
    var f, g := ClaimOf(c, u), ClaimOf(c', u);
    var maker := c.Makers(o)[0];
    assert Resting(c, maker, o.side.Opposite());
    forall p | p in c.book.Queue(o.side) ensures f(p) == g(p) {
      assert Resting(c, p, o.side) && QueuedId(c, p.id);
    }
    TotalSame(c.book.Queue(o.side), f, g);
  }

  lemma PoppedTotal(q: seq<Order>, g: Order -> real)
    requires q != []
    ensures Total(q, g) == g(q[0]) + Total(Popped(q), g)
  {
    PopContents(q);
    TotalPermutation(q, [q[0]] + Popped(q), g);
    assert ([q[0]] + Popped(q))[1..] == Popped(q);
  }

  lemma TurnedMakerSide(c: Core, c': Core, o: Order, u: nat)
    requires Sound(c) && Taking(c, o) && CanTrade(c, o) && Turned(c, c', o)
    ensures SideClaim(c', o.side.Opposite(), u) <= SideClaim(c, o.side.Opposite(), u)
  {
    var q := c.Makers(o);
    var maker := q[0];
    var f, g := ClaimOf(c, u), ClaimOf(c', u);
    TurnedWeights(c, c', o, u);
    TotalReweigh(q, maker, f, g);
    if c.Left(maker) <= Min(c.Left(o), c.Left(maker)) {
      PoppedTotal(q, g);
    }
  }

  lemma TurnedWeights(c: Core, c': Core, o: Order, u: nat)
    requires Sound(c) && Taking(c, o) && CanTrade(c, o) && Turned(c, c', o)
    ensures var q, f, g := c.Makers(o), ClaimOf(c, u), ClaimOf(c', u);
            && multiset(q)[q[0]] == 1
            && (forall p :: p in q && p != q[0] ==> f(p) == g(p))
            && g(q[0]) <= f(q[0])
            && (c.Left(q[0]) <= Min(c.Left(o), c.Left(q[0])) ==> g(q[0]) == 0.0)
  {
    var q := c.Makers(o);
    assert Resting(c, q[0], o.side.Opposite());
    TurnedLeft(c, c', o);
    NeedGrows(q[0], c'.Left(q[0]), c.Left(q[0]));
    NeedGrows(q[0], 0.0, c.Left(q[0]));
    forall p | p in q && p != q[0] ensures ClaimOf(c, u)(p) == ClaimOf(c', u)(p) { assert c.book.Queued(p); }
  }

  lemma PaidFrozen(c: Core, m: Market, t: Trade, k: Acct)
    requires Cost(t) > 0.0
    requires Frozen(c, Acct(t.takerUserId, SettledAsset(m, t.side))) >= Cost(t)
    ensures Paid(c, m, t).journal.failedUnlocks == c.journal.failedUnlocks
    ensures Frozen(Paid(c, m, t), k)
         == Frozen(c, k) - if k == Acct(t.takerUserId, SettledAsset(m, t.side)) then Cost(t) else 0.0
  {
  }

  lemma IteratedFrozen(c: Core, m: Market, o: Order, k: Acct)
    requires Sound(c) && Taking(c, o) && CanTrade(c, o)
    requires Frozen(c, LockAcct(m, o)) >= Need(o, c.Left(o))
    ensures var c', t := Iterated(c, m, o), NextTrade(c, o, c.Makers(o)[0]);
            && Frozen(c', k) == Frozen(c, k) - (if k == LockAcct(m, o) then Cost(t) else 0.0)
            && c'.journal.failedUnlocks == c.journal.failedUnlocks
            && Cost(t) <= Need(o, c.Left(o)) - Need(o, c.Left(o) - t.amount)
  {
    var maker := c.Makers(o)[0];
    NoStopsIterated(c, m, o);
    assert Resting(c, maker, o.side.Opposite());
    CostWithinNeed(c, o, maker);
    TradedFrozen(c, m, o, k);
    PoppedFunds(Traded(c, m, o), o.side.Opposite(), maker);
  }

  lemma TradedFrozen(c: Core, m: Market, o: Order, k: Acct)
    requires c.Makers(o) != []
    requires var t := NextTrade(c, o, c.Makers(o)[0]); 0.0 < Cost(t) <= Frozen(c, LockAcct(m, o))
    ensures var c', t := Traded(c, m, o), NextTrade(c, o, c.Makers(o)[0]);
            && Frozen(c', k) == Frozen(c, k) - (if k == LockAcct(m, o) then Cost(t) else 0.0)
            && c'.journal.failedUnlocks == c.journal.failedUnlocks
  {
    var maker := c.Makers(o)[0];
    var t := NextTrade(c, o, maker);
    PaidFrozen(Recorded(Filled(c, o, maker, t), t), m, t, k);
  }

  lemma TurnedClaim(c: Core, c': Core, m: Market, o: Order, k: Acct)
    requires Sound(c) && Taking(c, o) && CanTrade(c, o) && Turned(c, c', o)
    ensures Claim(c', m, k) <= Claim(c, m, k)
  {
    TurnedOwnSide(c, c', o, k.userId);
    TurnedMakerSide(c, c', o, k.userId);
  }

  /** A turn never eats into the cover of any account, and its unlock succeeds. */
  lemma IteratedSlack(c: Core, m: Market, o: Order, k: Acct)
    requires Sound(c) && Taking(c, o) && CanTrade(c, o)
    requires Slack(c, m, LockAcct(m, o)) >= Need(o, c.Left(o))
    ensures var c' := Iterated(c, m, o);
            && Slack(c', m, k) - TakerNeed(c', m, o, k) >= Slack(c, m, k) - TakerNeed(c, m, o, k)
            && c'.journal.failedUnlocks == c.journal.failedUnlocks
  {
    IteratedTurns(c, m, o);
    TurnedClaim(c, Iterated(c, m, o), m, o, k);
    SlackCovers(c, m, LockAcct(m, o), Need(o, c.Left(o)));
    IteratedFrozen(c, m, o, k);
    NeedFalls(c, m, o);
    SlackAfter(c, Iterated(c, m, o), m, o, k, NextTrade(c, o, c.Makers(o)[0]));
  }

  lemma SlackCovers(c: Core, m: Market, k: Acct, x: real)
    requires Sound(c) && Slack(c, m, k) >= x
    ensures Frozen(c, k) >= x
  {
    ClaimNonNegative(c, m, k);
  }

  lemma SlackAfter(c: Core, c': Core, m: Market, o: Order, k: Acct, t: Trade)
    requires Claim(c', m, k) <= Claim(c, m, k)
    requires Frozen(c', k) == Frozen(c, k) - (if k == LockAcct(m, o) then Cost(t) else 0.0)
    requires Cost(t) <= Need(o, c.Left(o)) - Need(o, c'.Left(o))
    ensures Slack(c', m, k) - TakerNeed(c', m, o, k) >= Slack(c, m, k) - TakerNeed(c, m, o, k)
  {
  }

  lemma NeedFalls(c: Core, m: Market, o: Order)
    requires Sound(c) && Taking(c, o) && CanTrade(c, o)
    ensures Cost(NextTrade(c, o, c.Makers(o)[0])) <= Need(o, c.Left(o)) - Need(o, Iterated(c, m, o).Left(o))
  {
    assert Resting(c, c.Makers(o)[0], o.side.Opposite());
    CostWithinNeed(c, o, c.Makers(o)[0]);
    IteratedLeft(c, m, o);
  }

  lemma IteratedLeft(c: Core, m: Market, o: Order)
    requires Sound(c) && Taking(c, o) && CanTrade(c, o)
    ensures Iterated(c, m, o).Left(o) == c.Left(o) - NextTrade(c, o, c.Makers(o)[0]).amount
  {
    IteratedTurns(c, m, o);
    assert Resting(c, c.Makers(o)[0], o.side.Opposite()) && QueuedId(c, c.Makers(o)[0].id);
  }

  lemma CostWithinNeed(c: Core, o: Order, maker: Order)
    requires maker.price > 0.0 && c.Left(o) > 0.0 && c.Left(maker) > 0.0
    requires !OutOfReach(o, maker)
    ensures var t := NextTrade(c, o, maker);
            && 0.0 < Cost(t) <= Need(o, c.Left(o)) - Need(o, c.Left(o) - t.amount)
            && Cost(t) <= Need(o, c.Left(o))
  {
    var t := NextTrade(c, o, maker);
    ProductPositive(t.price, t.amount);
    NeedGrows(o, 0.0, c.Left(o) - t.amount);
    if o.side.Bid? { ProductGrows(t.amount, t.price, o.price); }
  }

  lemma {:induction false} LoopSlack(c: Core, m: Market, o: Order, k: Acct)
    requires Sound(c) && Taking(c, o)
    requires Slack(c, m, LockAcct(m, o)) >= Need(o, c.Left(o))
    ensures var c' := TakerLoop(c, m, o).core;
            && Slack(c', m, k) - TakerNeed(c', m, o, k) >= Slack(c, m, k) - TakerNeed(c, m, o, k)
            && c'.journal.failedUnlocks == c.journal.failedUnlocks
    decreases |c.stops|, |c.Makers(o)|, if c.Left(o) > 0.0 then 1 else 0
  {
    if CanTrade(c, o) {
      IteratedSound(c, m, o);
      IteratedSlack(c, m, o, k);
      IteratedSlack(c, m, o, LockAcct(m, o));
      LoopSlack(Iterated(c, m, o), m, o, k);
    }
  }

  // ---------- the calls ----------

  /** An order that enters the book brings exactly its need into the claims. */
  lemma AddedClaim(c: Core, m: Market, o: Order, k: Acct)
    requires Sound(c) && Taking(c, o) && c.Left(o) > 0.0
    ensures Claim(AddedToBook(c, o), m, k) == Claim(c, m, k) + TakerNeed(c, m, o, k)
  {
    var c' := AddedToBook(c, o);
    var q := c.book.Queue(o.side);
    var f, g := ClaimOf(c, k.userId), ClaimOf(c', k.userId);
    forall p | c.book.Queued(p) ensures f(p) == g(p) {
      assert QueuedId(c, p.id);
    }
    TotalSame(q, f, g);
    TotalSame(c.book.Queue(o.side.Opposite()), f, g);
    SiftUpContents(q + [o], |q|);
    TotalPermutation(Pushed(q, o), q + [o], g);
    TotalSnoc(q, o, g);
  }

  /** Any account's cover, taken over this market alone, survives a place: what the order
      locks pays for what it may come to need. */
  lemma PlaceSlack(c: Core, m: Market, o: Order, k: Acct)
    requires Sound(c) && Fresh(c, o)
    requires Slack(c, m, LockAcct(m, o)) >= 0.0
    ensures var c' := Place(c.(nextId := o.id), m, o).0;
            && Slack(c', m, k) >= Slack(c, m, k)
            && c'.journal.failedUnlocks == c.journal.failedUnlocks
  {
    match Freeze(c.ledger, LockAcct(m, o), Need(o, o.amount))
    case Refused(_) => SameClaim(c, c.(nextId := o.id), m, k);
    case Done(l) =>
      var c1 := Entered(c.(nextId := o.id).(ledger := l), o);
      EnteredSound(c, l, o);
      EnteredClaim(c, c1, l, m, o, k);
      EnteredClaim(c, c1, l, m, o, LockAcct(m, o));
      LoopSlack(c1, m, o, k);
      LoopSound(c1, m, o);
      RestedSlack(TakerLoop(c1, m, o).core, m, o, k);
  }

  lemma SameClaim(c: Core, c': Core, m: Market, k: Acct)
    requires c'.book == c.book && forall p :: c.book.Queued(p) ==> c'.Left(p) == c.Left(p)
    ensures Claim(c', m, k) == Claim(c, m, k)
  {
    var f, g := ClaimOf(c, k.userId), ClaimOf(c', k.userId);
    assert forall p :: c.book.Queued(p) ==> f(p) == g(p);
    TotalSame(c.book.bids, f, g);
    TotalSame(c.book.asks, f, g);
  }

  lemma EnteredClaim(c: Core, c1: Core, l: Ledger, m: Market, o: Order, k: Acct)
    requires Sound(c) && Fresh(c, o) && c1 == Entered(c.(nextId := o.id).(ledger := l), o)
    ensures Claim(c1, m, k) == Claim(c, m, k)
  {
    forall p | c.book.Queued(p) ensures c1.Left(p) == c.Left(p) {
      assert Resting(c, p, p.side);
    }
    SameClaim(c, c1, m, k);
  }

  lemma RestedSlack(c: Core, m: Market, o: Order, k: Acct)
    requires Sound(c) && Taking(c, o) && o.price > 0.0
    ensures Slack(Rested(c, o), m, k) >= Slack(c, m, k) - TakerNeed(c, m, o, k)
    ensures Rested(c, o).journal == c.journal
  {
    var c1 := c.WithStatus(o, if 0.0 < c.Left(o) < o.amount then Partial else Finished);
    forall p | c.book.Queued(p) ensures c1.Left(p) == c.Left(p) {
      assert QueuedId(c, p.id);
    }
    SameClaim(c, c1, m, k);
    NeedGrows(o, 0.0, c.Left(o));
    if 0.0 < c.Left(o) < o.amount {
      WithStatusSound(c, o, Partial);
      AddedClaim(c1, m, o, k);
    }
  }

  /** A cancel gives back exactly what the canceled order needed; its unlock succeeds. */
  lemma CancelSlack(c: Core, m: Market, id: nat, k: Acct)
    requires Sound(c)
    requires id in c.book.live ==> Slack(c, m, LockAcct(m, c.book.live[id])) >= 0.0
    ensures Slack(Cancel(c, m, id), m, k) == Slack(c, m, k)
    ensures Cancel(c, m, id).journal.failedUnlocks == c.journal.failedUnlocks
  {
    if id in c.book.live {
      var o := c.book.live[id];
      assert Resting(c, o, o.side);
      CanceledClaim(c, m, id, k);
      assert Frozen(c, LockAcct(m, o)) >= Need(o, c.Left(o)) by {
        CanceledClaim(c, m, id, LockAcct(m, o));
        CancelSound(c, m, id);
        ClaimNonNegative(Cancel(c, m, id), m, LockAcct(m, o));
      }
      CanceledFrozen(c, m, id, k);
    }
  }

  lemma CanceledFrozen(c: Core, m: Market, id: nat, k: Acct)
    requires id in c.book.live && Resting(c, c.book.live[id], c.book.live[id].side) && c.book.live[id].id == id
    requires var o := c.book.live[id]; Frozen(c, LockAcct(m, o)) >= Need(o, c.Left(o))
    ensures var c', o := Cancel(c, m, id), c.book.live[id];
            && Frozen(c', k) == Frozen(c, k) - TakerNeed(c, m, o, k)
            && c'.journal.failedUnlocks == c.journal.failedUnlocks
  {
    var o := c.book.live[id];
    if o.side.Bid? { ProductPositive(o.price, c.Left(o)); }
  }

  lemma CanceledClaim(c: Core, m: Market, id: nat, k: Acct)
    requires Sound(c) && id in c.book.live
    ensures var o := c.book.live[id];
            Claim(Cancel(c, m, id), m, k) == Claim(c, m, k) - TakerNeed(c, m, o, k)
  {
    CanceledSides(c, Cancel(c, m, id), m, id, k.userId);
  }

  lemma CanceledSides(c: Core, c': Core, m: Market, id: nat, u: nat)
    requires Sound(c) && id in c.book.live && c' == Cancel(c, m, id)
    ensures var o := c.book.live[id];
            && SideClaim(c', o.side, u) == SideClaim(c, o.side, u) - (if u == o.userId then Need(o, c.Left(o)) else 0.0)
            && SideClaim(c', o.side.Opposite(), u) == SideClaim(c, o.side.Opposite(), u)
  {
    var o := c.book.live[id];
    var f, g := ClaimOf(c, u), ClaimOf(c', u);
    CanceledWeights(c, c', m, id, u);
    TotalReweigh(c.book.Queue(o.side), o, f, g);
    TotalSame(c.book.Queue(o.side.Opposite()), f, g);
  }

  lemma CanceledWeights(c: Core, c': Core, m: Market, id: nat, u: nat)
    requires Sound(c) && id in c.book.live && c' == Cancel(c, m, id)
    ensures var o, f, g := c.book.live[id], ClaimOf(c, u), ClaimOf(c', u);
            && c'.book.bids == c.book.bids && c'.book.asks == c.book.asks
            && multiset(c.book.Queue(o.side))[o] == 1 && o !in c.book.Queue(o.side.Opposite())
            && f(o) == (if u == o.userId then Need(o, c.Left(o)) else 0.0) && g(o) == 0.0
            && forall p :: c.book.Queued(p) && p != o ==> f(p) == g(p)
  {
    var o := c.book.live[id];
    assert c.book.Queued(o);
    assert o in c.book.Queue(o.side) by {
      assert forall side: Side :: o in c.book.Queue(side) ==> Resting(c, o, side);
    }
    assert Resting(c, o, o.side);
    forall p, side | p in c.book.Queue(side) && p != o ensures p.id != id { assert Resting(c, p, side); }
    forall p | p in c.book.Queue(o.side.Opposite()) ensures p.side != o.side {
      assert Resting(c, p, o.side.Opposite());
    }
  }
}
