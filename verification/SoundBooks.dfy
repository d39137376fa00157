/** What every call keeps of a market's book while no stop orders wait: heap order,
    agreement of the order map with the queues, live quantities, and bids below asks. */
module SoundBooks {
  import opened Orders
  import opened PriceQueues
  import opened Ledgers
  import opened Matching
  import opened FillLedger

  ghost predicate Once(q: seq<Order>) { forall o :: o in q ==> multiset(q)[o] == 1 }

  /** A queue member: on its own side, with something left, and in the order map exactly
      when it is not canceled. */
  ghost predicate Resting(c: Core, o: Order, side: Side) {
    && o.side == side && Known(c, o) && o.id <= c.nextId && o.price > 0.0
    && 0.0 < c.Left(o) <= o.amount && c.Status(o) != Finished
    && (c.Status(o) != Canceled <==> o.id in c.book.live)
  }

  ghost predicate QueueSound(c: Core, side: Side) {
    var q := c.book.Queue(side);
    IsHeap(q) && Once(q) && forall o :: o in q ==> Resting(c, o, side)
  }

  ghost predicate LiveSound(c: Core) {
    forall id :: id in c.book.live ==> c.book.live[id].id == id && c.book.Queued(c.book.live[id])
  }

  ghost predicate Sound(c: Core) {
    && c.stops == [] && !c.halted
    && QueueSound(c, Ask) && QueueSound(c, Bid) && LiveSound(c)
    && (forall id :: id in c.table ==> id <= c.nextId)
  }

  /** The order map of a sound book is the queue members that are not canceled. */
  lemma LiveIsUncanceled(c: Core, o: Order)
    requires Sound(c)
    ensures (o.id in c.book.live && c.book.live[o.id] == o) <==> (c.book.Queued(o) && c.Status(o) != Canceled)
  {
    if c.book.Queued(o) {
      assert Resting(c, o, o.side);
      if o.id in c.book.live {
        assert Resting(c, c.book.live[o.id], c.book.live[o.id].side);
      }
    }
    if o.id in c.book.live && c.book.live[o.id] == o {
      assert Resting(c, o, o.side);
    }
  }

  // ---------- one turn of the loop ----------

  lemma NoStopsIterated(c: Core, m: Market, o: Order)
    requires c.stops == [] && CanTrade(c, o)
    ensures Iterated(c, m, o) == PopIfDone(Traded(c, m, o), o.side.Opposite(), c.Makers(o)[0])
  {
    var c0 := Traded(c, m, o);
    assert c0.journal.fired + [] == c0.journal.fired;
    assert Swept(c0, m, c.Makers(o)[0].price) == c0;
  }

  /** The taker of a loop over a sound book. */
  ghost predicate Taking(c: Core, o: Order) {
    Active(c, o) && o.id <= c.nextId && 0.0 <= c.Left(o) <= o.amount && o.amount > 0.0
  }

  lemma PoppedMembers(q: seq<Order>)
    requires q != [] && Once(q)
    ensures Once(Popped(q)) && forall o :: o in Popped(q) <==> o in q && o != q[0]
  {
    PopContents(q);
    var p := Popped(q);
    forall o ensures o in p <==> o in q && o != q[0] {
      assert o in p <==> o in multiset(p);
      assert o in q <==> o in multiset(q);
      assert multiset(q)[o] == multiset(p)[o] + if o == q[0] then 1 else 0;
    }
    forall o | o in p ensures multiset(p)[o] == 1 {
      assert multiset(q)[o] == multiset(p)[o];
    }
  }

  /** What a stop-free turn leaves: the maker shrunk or gone, everything else in place. */
  ghost predicate Turned(c: Core, c': Core, o: Order) {
    && c.Makers(o) != []
    && var maker := c.Makers(o)[0];
    && var amount := Min(c.Left(o), c.Left(maker));
    && c'.table == c.table[o.id := Cell(o, c.Left(o) - amount, c.Status(o))]
                          [maker.id := Cell(maker, c.Left(maker) - amount, c.Status(maker))]
    && c'.book.Queue(o.side) == c.book.Queue(o.side)
    && c'.stops == [] && !c'.halted && c'.nextId == c.nextId + 1
    && if c.Left(maker) > amount
       then c'.book == c.book
       else c'.Makers(o) == Popped(c.Makers(o)) && c'.book.live == c.book.live - {maker.id}
  }

  lemma IteratedTurns(c: Core, m: Market, o: Order)
    requires Sound(c) && Taking(c, o) && CanTrade(c, o)
    ensures Turned(c, Iterated(c, m, o), o)
  {
    var maker := c.Makers(o)[0];
    assert c.Makers(o)[0].id != o.id by { assert c.book.Queued(maker) && QueuedId(c, maker.id); }
    NoStopsIterated(c, m, o);
    TradedPops(c, m, o);
  }

  lemma TradedPops(c: Core, m: Market, o: Order)
    requires c.stops == [] && CanTrade(c, o) && c.Makers(o)[0].id != o.id
    ensures Turned(c, PopIfDone(Traded(c, m, o), o.side.Opposite(), c.Makers(o)[0]), o)
  {
    TradedShape(c, m, o);
    PopTurns(c, Traded(c, m, o), o);
  }

  lemma PopTurns(c: Core, c0: Core, o: Order)
    requires c.Makers(o) != [] && c.Makers(o)[0].id != o.id
    requires c0.book == c.book && c0.stops == [] && !c0.halted && c0.nextId == c.nextId + 1
    requires var maker := c.Makers(o)[0];
             var amount := Min(c.Left(o), c.Left(maker));
             c0.table == c.table[o.id := Cell(o, c.Left(o) - amount, c.Status(o))]
                                [maker.id := Cell(maker, c.Left(maker) - amount, c.Status(maker))]
    ensures Turned(c, PopIfDone(c0, o.side.Opposite(), c.Makers(o)[0]), o)
  {
    var maker := c.Makers(o)[0];
    assert c0.Left(maker) == c.Left(maker) - Min(c.Left(o), c.Left(maker));
  }

  /** Only the taker's and the root maker's quantities change. */
  lemma TurnedLeft(c: Core, c': Core, o: Order)
    requires Sound(c) && Taking(c, o) && CanTrade(c, o) && Turned(c, c', o)
    ensures var maker := c.Makers(o)[0];
            && maker.id != o.id
            && c'.Left(o) == c.Left(o) - Min(c.Left(o), c.Left(maker))
            && c'.Left(maker) == c.Left(maker) - Min(c.Left(o), c.Left(maker))
            && forall p :: c.book.Queued(p) && p != maker ==> p.id != maker.id && c'.Left(p) == c.Left(p)
  {
    var maker := c.Makers(o)[0];
    assert Resting(c, maker, o.side.Opposite()) && QueuedId(c, maker.id);
    forall p | c.book.Queued(p) && p != maker ensures p.id != maker.id && c'.Left(p) == c.Left(p) {
      assert QueuedId(c, p.id);
      assert Resting(c, p, Ask) || Resting(c, p, Bid);
    }
  }

  lemma TurnedMakers(c: Core, c': Core, o: Order)
    requires Sound(c) && Taking(c, o) && CanTrade(c, o) && Turned(c, c', o)
    ensures QueueSound(c', o.side.Opposite())
    ensures forall p :: p in c'.Makers(o) ==> p in c.Makers(o)
  {
    var q := c.Makers(o);
    var maker := q[0];
    assert Resting(c, maker, o.side.Opposite()) && QueuedId(c, maker.id);
    PopCorrect(q);
    PoppedMembers(q);
    forall p | p in c'.Makers(o) ensures Resting(c', p, o.side.Opposite()) {
      assert Resting(c, p, o.side.Opposite());
      assert QueuedId(c, p.id);
    }
  }

  lemma TurnedOthers(c: Core, c': Core, o: Order)
    requires Sound(c) && Taking(c, o) && CanTrade(c, o) && Turned(c, c', o)
    ensures QueueSound(c', o.side) && Taking(c', o)
  {
    var maker := c.Makers(o)[0];
    assert Resting(c, maker, o.side.Opposite()) && QueuedId(c, maker.id);
    TurnedMakers(c, c', o);
    forall p | p in c'.book.Queue(o.side) ensures Resting(c', p, o.side) {
      assert Resting(c, p, o.side);
      assert QueuedId(c, p.id);
    }
    assert !QueuedId(c', o.id) by {
      assert forall p :: c'.book.Queued(p) ==> c.book.Queued(p);
    }
  }

  lemma TurnedLive(c: Core, c': Core, o: Order)
    requires Sound(c) && Taking(c, o) && CanTrade(c, o) && Turned(c, c', o)
    ensures LiveSound(c')
  {
    var q := c.Makers(o);
    PoppedMembers(q);
    forall id | id in c'.book.live
      ensures c'.book.live[id].id == id && c'.book.Queued(c'.book.live[id])
    {
      assert c'.book.live[id] == c.book.live[id];
    }
  }

  lemma IteratedSound(c: Core, m: Market, o: Order)
    requires Sound(c) && Taking(c, o) && CanTrade(c, o)
    ensures Sound(Iterated(c, m, o)) && Taking(Iterated(c, m, o), o) && Turned(c, Iterated(c, m, o), o)
  {
    var c' := Iterated(c, m, o);
    IteratedTurns(c, m, o);
    assert Resting(c, c.Makers(o)[0], o.side.Opposite());
    TurnedMakers(c, c', o);
    TurnedOthers(c, c', o);
    TurnedLive(c, c', o);
  }

  lemma {:induction false} LoopSound(c: Core, m: Market, o: Order)
    requires Sound(c) && Taking(c, o)
    ensures Sound(TakerLoop(c, m, o).core) && Taking(TakerLoop(c, m, o).core, o)
    decreases |c.stops|, |c.Makers(o)|, if c.Left(o) > 0.0 then 1 else 0
  {
    if CanTrade(c, o) {
      IteratedSound(c, m, o);
      LoopSound(Iterated(c, m, o), m, o);
    }
  }

  // ---------- what a stop-free loop leaves alone ----------

  /** Outside this market's queues and the active orders, cells and IDs stand. */
  ghost predicate Apart(c: Core, c': Core, active: set<nat>) {
    && c.nextId <= c'.nextId
    && CellsFall(c, c')
    && (forall id :: id in c.table && id !in active && !QueuedId(c, id) ==> c'.table[id] == c.table[id])
  }

  lemma {:induction false} LoopApart(c: Core, m: Market, o: Order)
    requires Sound(c) && Taking(c, o)
    ensures Apart(c, TakerLoop(c, m, o).core, {o.id})
    decreases |c.stops|, |c.Makers(o)|, if c.Left(o) > 0.0 then 1 else 0
  {
    if CanTrade(c, o) {
      var c1 := Iterated(c, m, o);
      IteratedSound(c, m, o);
      LoopApart(c1, m, o);
      TurnedApart(c, c1, o);
      forall id | !QueuedId(c, id) ensures !QueuedId(c1, id) {
        TurnedMakers(c, c1, o);
        assert forall p :: c1.book.Queued(p) ==> c.book.Queued(p);
      }
      ApartTrans(c, c1, TakerLoop(c1, m, o).core, {o.id});
    }
  }

  lemma ApartTrans(a: Core, b: Core, c: Core, active: set<nat>)
    requires Apart(a, b, active) && Apart(b, c, active) && forall id :: !QueuedId(a, id) ==> !QueuedId(b, id)
    ensures Apart(a, c, active)
  {
  }

  lemma TurnedApart(c: Core, c': Core, o: Order)
    requires Sound(c) && Taking(c, o) && CanTrade(c, o) && Turned(c, c', o)
    ensures Apart(c, c', {o.id})
  {
    var maker := c.Makers(o)[0];
    assert Resting(c, maker, o.side.Opposite()) && QueuedId(c, maker.id);
  }

  // ---------- the calls ----------

  lemma PushedOnce(q: seq<Order>, x: Order)
    requires Once(q) && x !in q && IsHeap(q)
    ensures Once(Pushed(q, x)) && IsHeap(Pushed(q, x)) && forall o :: o in Pushed(q, x) <==> o in q || o == x
  {
    PushCorrect(q, x);
    PushedQueued(q, x);
    forall o | o in Pushed(q, x) ensures multiset(Pushed(q, x))[o] == 1 {
      assert o in q <==> o in multiset(q);
    }
  }

  /** `OrderBook.Add` of an order not yet in the book, seeded or just traded. */
  lemma AddedSound(c: Core, o: Order)
    requires Sound(c) && Taking(c, o) && o.price > 0.0 && c.Left(o) > 0.0
    requires c.Status(o) == Pending || c.Status(o) == Partial
    ensures Sound(AddedToBook(c, o))
  {
    var c' := AddedToBook(c, o);
    var q := c.book.Queue(o.side);
    assert o !in q by { assert c.book.Queued(o) ==> QueuedId(c, o.id); }
    PushedOnce(q, o);
    assert forall p :: c'.book.Queued(p) <==> c.book.Queued(p) || p == o;
    forall p, side | p in c'.book.Queue(side) ensures Resting(c', p, side) {
      if p != o {
        assert Resting(c, p, side);
        assert c.book.Queued(p) && QueuedId(c, p.id);
      }
    }
  }

  lemma WithStatusSound(c: Core, o: Order, s: Status)
    requires Sound(c) && Taking(c, o)
    ensures Sound(c.WithStatus(o, s)) && Taking(c.WithStatus(o, s), o)
  {
    var c1 := c.WithStatus(o, s);
    forall p, side | p in c1.book.Queue(side) ensures Resting(c1, p, side) {
      assert Resting(c, p, side);
      assert c.book.Queued(p) && QueuedId(c, p.id);
    }
    assert forall id :: QueuedId(c1, id) == QueuedId(c, id);
  }

  lemma RestedSound(c: Core, o: Order)
    requires Sound(c) && Taking(c, o) && o.price > 0.0
    ensures Sound(Rested(c, o))
  {
    var s := if 0.0 < c.Left(o) < o.amount then Partial else Finished;
    WithStatusSound(c, o, s);
    if 0.0 < c.Left(o) < o.amount { AddedSound(c.WithStatus(o, s), o); }
  }

  /** An order that may be placed: fresh ID, positive price and amount. */
  ghost predicate Fresh(c: Core, o: Order) {
    o.id == c.nextId + 1 && o.price > 0.0 && o.amount > 0.0
  }

  lemma EnteredSound(c: Core, l: Ledger, o: Order)
    requires Sound(c) && o.id == c.nextId + 1 && o.amount > 0.0
    ensures var c1 := Entered(c.(nextId := o.id).(ledger := l), o); Sound(c1) && Taking(c1, o) && c1.Left(o) == o.amount
  {
    var c0 := c.(nextId := o.id).(ledger := l);
    var c1 := Entered(c0, o);
    forall p, side | p in c1.book.Queue(side) ensures Resting(c1, p, side) && p.id != o.id {
      assert Resting(c, p, side) && Resting(c0, p, side);
    }
    assert !QueuedId(c1, o.id);
  }

  lemma PlaceSound(c: Core, m: Market, o: Order)
    requires Sound(c) && Fresh(c, o)
    ensures Sound(Place(c.(nextId := o.id), m, o).0)
  {
    match Freeze(c.ledger, LockAcct(m, o), Need(o, o.amount))
    case Refused(_) =>
    case Done(l) =>
      var c1 := Entered(c.(nextId := o.id).(ledger := l), o);
      EnteredSound(c, l, o);
      LoopSound(c1, m, o);
      RestedSound(TakerLoop(c1, m, o).core, o);
  }

  lemma CancelSound(c: Core, m: Market, id: nat)
    requires Sound(c)
    ensures Sound(Cancel(c, m, id))
  {
    var c' := Cancel(c, m, id);
    if id in c.book.live {
      var o := c.book.live[id];
      assert Resting(c, o, o.side);
      forall p, side | p in c'.book.Queue(side) ensures Resting(c', p, side) { assert Resting(c, p, side); }
    }
  }

  // ---------- never crossed ----------

  ghost predicate Uncrossed(b: Book) {
    forall x, y :: x in b.bids && y in b.asks ==> x.price < y.price
  }

  /** The loop ends because the taker is done, the queue empty or the root out of reach;
      it leaves the taker's own queue alone and takes makers only away. */
  lemma {:induction false} LoopStops(c: Core, m: Market, o: Order)
    requires Sound(c) && Taking(c, o)
    ensures var c' := TakerLoop(c, m, o).core;
            && !CanTrade(c', o)
            && c'.book.Queue(o.side) == c.book.Queue(o.side)
            && (forall p :: p in c'.Makers(o) ==> p in c.Makers(o))
            && c.nextId <= c'.nextId
    decreases |c.stops|, |c.Makers(o)|, if c.Left(o) > 0.0 then 1 else 0
  {
    if CanTrade(c, o) {
      IteratedSound(c, m, o);
      TurnedMakers(c, Iterated(c, m, o), o);
      LoopStops(Iterated(c, m, o), m, o);
    }
  }

  /** A taker that traded and still has something left has met every maker within reach. */
  lemma LoopExhausts(c: Core, m: Market, o: Order)
    requires Sound(c) && Taking(c, o) && CanTrade(c, o)
    requires TakerLoop(c, m, o).core.Left(o) > 0.0
    ensures forall p :: p in TakerLoop(c, m, o).core.Makers(o) ==> OutOfReach(o, p)
  {
    var c' := TakerLoop(c, m, o).core;
    LoopStops(c, m, o);
    LoopSound(c, m, o);
    RootIsDearest(c.Makers(o));
    if c'.Makers(o) != [] {
      RootIsDearest(c'.Makers(o));
      assert c'.Makers(o)[0] in c'.Makers(o);
    }
  }

  lemma PlaceUncrossed(c: Core, m: Market, o: Order)
    requires Sound(c) && Fresh(c, o) && Uncrossed(c.book)
    ensures Uncrossed(Place(c.(nextId := o.id), m, o).0.book)
  {
    match Freeze(c.ledger, LockAcct(m, o), Need(o, o.amount))
    case Refused(_) =>
    case Done(l) =>
      var c1 := Entered(c.(nextId := o.id).(ledger := l), o);
      var c2 := TakerLoop(c1, m, o).core;
      EnteredSound(c, l, o);
      LoopStops(c1, m, o);
      assert Uncrossed(c2.book);
      if 0.0 < c2.Left(o) < o.amount {
        LoopExhausts(c1, m, o);
        PushedQueued(c2.book.Queue(o.side), o);
      }
  }

  lemma CancelUncrossed(c: Core, m: Market, id: nat)
    requires Uncrossed(c.book)
    ensures Uncrossed(Cancel(c, m, id).book)
  {
  }

  // ---------- which takers trade ----------

  /** A bid trades exactly when it reaches the dearest ask, not the cheapest. */
  lemma BidTradesIff(c: Core, m: Market, o: Order)
    requires IsHeap(c.book.asks) && !c.halted && o.side == Bid && c.Left(o) > 0.0
    ensures TakerLoop(c, m, o).trades != [] <==>
            c.book.asks != [] && forall a :: a in c.book.asks ==> a.price <= o.price
  {
    if c.book.asks != [] {
      RootIsDearest(c.book.asks);
      assert c.book.asks[0] in c.book.asks;
    }
  }

  /** An ask trades exactly when some bid is at or above its limit. */
  lemma AskTradesIff(c: Core, m: Market, o: Order)
    requires IsHeap(c.book.bids) && !c.halted && o.side == Ask && c.Left(o) > 0.0
    ensures TakerLoop(c, m, o).trades != [] <==>
            exists b :: b in c.book.bids && b.price >= o.price
  {
    if c.book.bids != [] {
      RootIsDearest(c.book.bids);
      assert c.book.bids[0] in c.book.bids;
    }
  }
}
