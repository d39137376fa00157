/** Stop orders that fire on a market which is not configured: they fill orders of its book, and
    nothing is recorded, paid or published. */
module UnlistedTrades {
  import opened Orders
  import opened PriceQueues
  import opened Matching
  import opened FillLedger

  // ---------- what such a sweep leaves alone ----------

  /** Funds, trade lists, stop orders and what is published are as they were. */
  ghost predicate Silent(c: Core, c': Core) {
    && c'.ledger == c.ledger && c'.trades == c.trades && c'.journal == c.journal && c'.stops == c.stops
    && c'.halted == c.halted && c.nextId <= c'.nextId
  }

  lemma SilentTurn(c: Core, o: Order)
    requires CanTrade(c, o)
    ensures Silent(c, Iterated(c, Unlisted, o))
  {
    var maker := c.Makers(o)[0];
    PoppedFunds(Filled(c, o, maker, NextTrade(c, o, maker)), o.side.Opposite(), maker);
  }

  lemma {:induction false} SilentLoop(c: Core, o: Order)
    ensures Silent(c, TakerLoop(c, Unlisted, o).core)
    decreases |c.stops|, |c.Makers(o)|, if c.Left(o) > 0.0 then 1 else 0
  {
    if CanTrade(c, o) {
      SilentTurn(c, o);
      SilentLoop(Iterated(c, Unlisted, o), o);
    }
  }

  lemma SilentFired(c: Core, s: StopOrder)
    ensures Silent(c, Fired(c, Unlisted, s)) && c.nextId < Fired(c, Unlisted, s).nextId
  {
    var o := s.order.(id := c.nextId + 1);
    var c1 := Entered(c.(nextId := o.id), o);
    SilentLoop(c1, o);
    RestedFunds(TakerLoop(c1, Unlisted, o).core, o);
  }

  lemma {:induction false} SilentFireAll(c: Core, hit: seq<StopOrder>)
    ensures Silent(c, FireAll(c, Unlisted, hit))
    decreases |hit|
  {
    if hit != [] && !c.halted {
      SilentFired(c, hit[0]);
      SilentFireAll(Fired(c, Unlisted, hit[0]), hit[1..]);
    }
  }

  /** The stop orders that the price triggers are off the list; the rest is a silent change. */
  lemma SilentSweep(c: Core, price: real)
    ensures var hit := Hit(c.stops, price);
            Silent(c.(stops := Missed(c.stops, price), journal := c.journal.(fired := c.journal.fired + hit)),
                   Swept(c, Unlisted, price))
  {
    var hit := Hit(c.stops, price);
    SilentFireAll(c.(stops := Missed(c.stops, price), journal := c.journal.(fired := c.journal.fired + hit)), hit);
  }

  // ---------- the cells ----------

  /** What holds of the cells and the book in every run, whatever the trade lists say. */
  ghost predicate Bounded(c: Core) {
    && (forall id :: id in c.table ==> id <= c.nextId && c.table[id].order.id == id && InBounds(c.table[id]))
    && (forall id :: id in c.trades ==> id <= c.nextId)
    && BookKnown(c)
  }

  /** The fill of each order that its trade list does not account for. */
  ghost function Unrecorded(c: Core): Past {
    map id | id in c.table :: c.table[id].order.amount - c.table[id].left - Volume(TradesOf(c.trades, id))
  }

  lemma AccountedIsBounded(past: Past, c: Core)
    requires AllAccounted(past, c)
    ensures Bounded(c)
  {
    forall id | id in c.table ensures id <= c.nextId && c.table[id].order.id == id && InBounds(c.table[id]) {
      assert Accounted(past, c, id);
    }
  }

  lemma BoundedIsAccounted(c: Core)
    requires Bounded(c)
    ensures AllAccounted(Unrecorded(c), c)
  {
    forall id | id in c.table ensures Accounted(Unrecorded(c), c, id) {}
  }

  lemma RootMaker(c: Core, o: Order)
    requires Bounded(c) && Active(c, o) && CanTrade(c, o)
    ensures var maker := c.Makers(o)[0];
            c.book.Queued(maker) && Known(c, maker) && o.id != maker.id && c.Left(maker) >= 0.0
  {
    var maker := c.Makers(o)[0];
    assert c.book.Queued(maker) && Known(c, maker) && QueuedId(c, maker.id);
    assert InBounds(c.table[maker.id]);
  }

  /** What a turn leaves: both orders shrunk by what the smaller has left, the root perhaps gone. */
  lemma UnlistedTurn(c: Core, o: Order)
    requires CanTrade(c, o) && o.id != c.Makers(o)[0].id
    ensures var c', maker := Iterated(c, Unlisted, o), c.Makers(o)[0];
            var x := Min(c.Left(o), c.Left(maker));
            && c'.table == c.table[o.id := Cell(o, c.Left(o) - x, c.Status(o))]
                                  [maker.id := Cell(maker, c.Left(maker) - x, c.Status(maker))]
            && FewerIn(c.book, c'.book) && c'.nextId == c.nextId + 1 && c'.trades == c.trades
  {
    var maker := c.Makers(o)[0];
    var c0 := Filled(c, o, maker, NextTrade(c, o, maker));
    FilledShape(c, o, maker);
    PoppedShape(c0, o.side.Opposite(), maker);
    UnlistedIterated(c, o);
  }

  lemma UnlistedIterated(c: Core, o: Order)
    requires CanTrade(c, o)
    ensures var maker := c.Makers(o)[0];
            Iterated(c, Unlisted, o) == PopIfDone(Filled(c, o, maker, NextTrade(c, o, maker)), o.side.Opposite(), maker)
  {
  }

  lemma PoppedShape(c: Core, side: Side, maker: Order)
    ensures var c' := PopIfDone(c, side, maker);
            FewerIn(c.book, c'.book) && c'.nextId == c.nextId && c'.table == c.table && c'.trades == c.trades
  {
    PoppedFunds(c, side, maker);
    PoppedQueued(c, side, maker);
  }

  lemma FilledShape(c: Core, o: Order, maker: Order)
    requires o.id != maker.id
    ensures var c', x := Filled(c, o, maker, NextTrade(c, o, maker)), Min(c.Left(o), c.Left(maker));
            && c'.table == c.table[o.id := Cell(o, c.Left(o) - x, c.Status(o))]
                                  [maker.id := Cell(maker, c.Left(maker) - x, c.Status(maker))]
            && c'.book == c.book && c'.nextId == c.nextId + 1 && c'.trades == c.trades
  {
  }

  lemma TurnBounded(c: Core, c': Core, o: Order, maker: Order)
    requires Bounded(c) && Active(c, o) && c.Left(o) > 0.0
    requires Known(c, maker) && c.book.Queued(maker) && o.id != maker.id
    requires var x := Min(c.Left(o), c.Left(maker));
             c'.table == c.table[o.id := Cell(o, c.Left(o) - x, c.Status(o))]
                                [maker.id := Cell(maker, c.Left(maker) - x, c.Status(maker))]
    requires FewerIn(c.book, c'.book) && c'.nextId == c.nextId + 1 && c'.trades == c.trades
    ensures Bounded(c') && Active(c', o) && CellsFall(c, c') && c'.table.Keys == c.table.Keys
    ensures c'.table[maker.id].left == c.Left(maker) - Min(c.Left(o), c.Left(maker))
  {
    assert InBounds(c.table[o.id]) && InBounds(c.table[maker.id]);
    FewerKnown(c, c');
    assert forall id :: QueuedId(c', id) ==> QueuedId(c, id);
  }

  lemma {:induction false} LoopBounded(c: Core, o: Order)
    requires Bounded(c) && Active(c, o)
    ensures var c' := TakerLoop(c, Unlisted, o).core;
            Bounded(c') && Active(c', o) && CellsFall(c, c') && FewerIn(c.book, c'.book)
    decreases |c.stops|, |c.Makers(o)|, if c.Left(o) > 0.0 then 1 else 0
  {
    if CanTrade(c, o) {
      var c1 := Iterated(c, Unlisted, o);
      RootMaker(c, o);
      UnlistedTurn(c, o);
      TurnBounded(c, c1, o, c.Makers(o)[0]);
      LoopBounded(c1, o);
    }
  }

  /** A stop order that fires there enters, fills what it can, and rests or is finished. */
  lemma FiredBounded(c: Core, s: StopOrder)
    requires Bounded(c)
    ensures var c' := Fired(c, Unlisted, s); Bounded(c') && CellsFall(c, c')
  {
    var o := s.order.(id := c.nextId + 1);
    var c1 := Entered(c.(nextId := o.id), o);
    var c2 := TakerLoop(c1, Unlisted, o).core;
    BoundedIsAccounted(c);
    EnteredAccounted(Unrecorded(c), c, o);
    AccountedIsBounded(Unrecorded(c), c1);
    LoopBounded(c1, o);
    BoundedIsAccounted(c2);
    RestedAccounted(Unrecorded(c2), c2, o);
    AccountedIsBounded(Unrecorded(c2), Rested(c2, o));
    FiredCells(c, c1, c2, Rested(c2, o), o);
  }

  lemma FiredCells(c: Core, c1: Core, c2: Core, c3: Core, o: Order)
    requires o.id !in c.table && c1 == Entered(c.(nextId := o.id), o) && CellsFall(c1, c2)
    requires CellsFall(c2, c3)
    ensures CellsFall(c, c3)
  {
    assert forall id :: id in c.table ==> c1.table[id] == c.table[id];
  }

  lemma {:induction false} FireAllBounded(c: Core, hit: seq<StopOrder>)
    requires Bounded(c)
    ensures var c' := FireAll(c, Unlisted, hit); Bounded(c') && CellsFall(c, c')
    decreases |hit|
  {
    if hit != [] && !c.halted {
      FiredBounded(c, hit[0]);
      FireAllBounded(Fired(c, Unlisted, hit[0]), hit[1..]);
    }
  }

  lemma SweepBounded(c: Core, price: real)
    requires Bounded(c)
    ensures var c' := Swept(c, Unlisted, price); Bounded(c') && CellsFall(c, c')
  {
    var hit := Hit(c.stops, price);
    FireAllBounded(c.(stops := Missed(c.stops, price), journal := c.journal.(fired := c.journal.fired + hit)), hit);
  }

  // ---------- books with nothing left to fill ----------

  /** Nobody in the book has anything left. */
  ghost predicate Spent(c: Core) { forall o :: c.book.Queued(o) ==> c.Left(o) <= 0.0 }

  /** The old cells have what they had; new ones have their whole amount. */
  ghost predicate NothingFilled(c: Core, c': Core) {
    && (forall id :: id in c.table ==> id in c'.table && c'.table[id].left == c.table[id].left)
    && (forall id :: id in c'.table && id !in c.table ==>
          id > c.nextId && c'.table[id].left == c'.table[id].order.amount)
    && FewerIn(c.book, c'.book) && c.nextId <= c'.nextId
  }

  lemma {:induction false} LoopFillsNothing(c: Core, o: Order)
    requires Bounded(c) && Active(c, o) && Spent(c)
    ensures NothingFilled(c, TakerLoop(c, Unlisted, o).core)
    decreases |c.stops|, |c.Makers(o)|, if c.Left(o) > 0.0 then 1 else 0
  {
    if CanTrade(c, o) {
      var c1, maker := Iterated(c, Unlisted, o), c.Makers(o)[0];
      RootMaker(c, o);
      UnlistedTurn(c, o);
      TurnBounded(c, c1, o, maker);
      TurnFillsNothing(c, c1, o, maker);
      LoopFillsNothing(c1, o);
      LoopBounded(c1, o);
      FillsNothingTrans(c, c1, TakerLoop(c1, Unlisted, o).core);
    }
  }

  lemma TurnFillsNothing(c: Core, c': Core, o: Order, maker: Order)
    requires Bounded(c) && Spent(c) && Known(c, o) && c.Left(o) > 0.0 && Known(c, maker) && c.book.Queued(maker)
    requires o.id != maker.id && FewerIn(c.book, c'.book) && c'.nextId == c.nextId + 1
    requires var x := Min(c.Left(o), c.Left(maker));
             c'.table == c.table[o.id := Cell(o, c.Left(o) - x, c.Status(o))]
                                [maker.id := Cell(maker, c.Left(maker) - x, c.Status(maker))]
    ensures NothingFilled(c, c') && Spent(c')
  {
    assert InBounds(c.table[maker.id]) && c.Left(maker) == 0.0;
    StillSpent(c, c');
  }

  lemma FillsNothingTrans(a: Core, b: Core, c: Core)
    requires NothingFilled(a, b) && NothingFilled(b, c) && CellsFall(b, c)
    ensures NothingFilled(a, c)
  {
  }

  lemma FiredFillsNothing(c: Core, s: StopOrder)
    requires Bounded(c) && Spent(c)
    ensures NothingFilled(c, Fired(c, Unlisted, s))
  {
    var o := s.order.(id := c.nextId + 1);
    var c1 := Entered(c.(nextId := o.id), o);
    EntersUnfilled(c, c1, o);
    LoopFillsNothing(c1, o);
    LoopBounded(c1, o);
    FillsNothingTrans(c, c1, TakerLoop(c1, Unlisted, o).core);
    FinishedUntouched(c, TakerLoop(c1, Unlisted, o).core, o);
    FiredEnters(c, Unlisted, s);
  }

  lemma EnteredBounded(c: Core, c1: Core, o: Order)
    requires Bounded(c) && o.id == c.nextId + 1 && c1 == Entered(c.(nextId := o.id), o)
    ensures Bounded(c1) && Active(c1, o) && o.id !in c.table
  {
    BoundedIsAccounted(c);
    EnteredAccounted(Unrecorded(c), c, o);
    AccountedIsBounded(Unrecorded(c), c1);
  }

  lemma EntersUnfilled(c: Core, c1: Core, o: Order)
    requires Bounded(c) && Spent(c) && o.id == c.nextId + 1 && c1 == Entered(c.(nextId := o.id), o)
    ensures Bounded(c1) && Active(c1, o) && NothingFilled(c, c1) && Spent(c1)
    ensures o.id !in c.table && c1.Left(o) == o.amount
  {
    EnteredBounded(c, c1, o);
    assert NothingFilled(c, c1);
    StillSpent(c, c1);
  }

  lemma FinishedUntouched(a: Core, c: Core, o: Order)
    requires NothingFilled(a, c) && Known(c, o) && c.Left(o) == o.amount && o.id !in a.table
    ensures NothingFilled(a, Rested(c, o))
  {
    var c' := Rested(c, o);
    assert c'.book == c.book && c'.nextId == c.nextId;
    assert c'.table == c.table || c'.table == c.table[o.id := Cell(o, o.amount, Finished)];
  }

  lemma {:induction false} FireAllFillsNothing(c: Core, hit: seq<StopOrder>)
    requires Bounded(c) && Spent(c)
    ensures NothingFilled(c, FireAll(c, Unlisted, hit))
    decreases |hit|
  {
    if hit != [] && !c.halted {
      var c1 := Fired(c, Unlisted, hit[0]);
      FiredBounded(c, hit[0]);
      FiredFillsNothing(c, hit[0]);
      StillSpent(c, c1);
      FireAllFillsNothing(c1, hit[1..]);
      FireAllBounded(c1, hit[1..]);
      FillsNothingTrans(c, c1, FireAll(c1, Unlisted, hit[1..]));
    }
  }

  lemma StillSpent(c: Core, c': Core)
    requires Bounded(c) && Spent(c) && NothingFilled(c, c')
    ensures Spent(c')
  {
    forall o | c'.book.Queued(o) ensures c'.Left(o) <= 0.0 { assert c.book.Queued(o) && Known(c, o); }
  }

  lemma SweepFillsNothing(c: Core, price: real)
    requires Bounded(c) && Spent(c)
    ensures NothingFilled(c, Swept(c, Unlisted, price))
  {
    var hit := Hit(c.stops, price);
    var c1 := c.(stops := Missed(c.stops, price), journal := c.journal.(fired := c.journal.fired + hit));
    FireAllFillsNothing(c1, hit);
  }

  /** A sweep that fills nothing keeps the accounts. */
  lemma FillsNothingAccounted(past: Past, c: Core, c': Core)
    requires AllAccounted(past, c) && Bounded(c') && CellsFall(c, c') && NothingFilled(c, c') && c'.trades == c.trades
    ensures AllAccounted(past, c')
  {
    forall id | id in c'.table ensures Accounted(past, c', id) {
      if id in c.table { assert Accounted(past, c, id); }
    }
  }

  // ---------- books with something left to fill ----------

  /** Some cell other than that of `but` has less than before. */
  ghost predicate TookFromSome(t: map<nat, Cell>, t': map<nat, Cell>, but: nat) {
    exists id :: id in t && id != but && id in t' && t'[id].left < t[id].left
  }

  lemma TookNow(t: map<nat, Cell>, t1: map<nat, Cell>, t2: map<nat, Cell>, id: nat, but: nat)
    requires id in t && id in t1 && t1[id].left < t[id].left && id != but && TableFalls(t1, t2)
    ensures TookFromSome(t, t2, but)
  {
  }

  lemma TookBefore(t: map<nat, Cell>, t1: map<nat, Cell>, t2: map<nat, Cell>, but: nat)
    requires TableFalls(t, t1) && t1.Keys == t.Keys && TookFromSome(t1, t2, but)
    ensures TookFromSome(t, t2, but)
  {
  }

  /** A taker that reaches every maker takes from one of them if any has something left. */
  lemma {:induction false} LoopTakesSome(c: Core, o: Order, y: Order)
    requires Bounded(c) && Active(c, o) && !c.halted && c.Left(o) > 0.0
    requires y in c.Makers(o) && c.Left(y) > 0.0 && forall z :: z in c.Makers(o) ==> !OutOfReach(o, z)
    ensures TookFromSome(c.table, TakerLoop(c, Unlisted, o).core.table, o.id)
    decreases |c.stops|, |c.Makers(o)|, if c.Left(o) > 0.0 then 1 else 0
  {
    var c1, root := Iterated(c, Unlisted, o), c.Makers(o)[0];
    assert root in c.Makers(o) && CanTrade(c, o);
    RootMaker(c, o);
    UnlistedTurn(c, o);
    TurnBounded(c, c1, o, root);
    if c.Left(root) > 0.0 {
      LoopBounded(c1, o);
      TookNow(c.table, c1.table, TakerLoop(c1, Unlisted, o).core.table, root.id, o.id);
    } else {
      SilentTurn(c, o);
      ZeroRootLeaves(c, o, y);
      LoopTakesSome(c1, o, y);
      TookBefore(c.table, c1.table, TakerLoop(c1, Unlisted, o).core.table, o.id);
    }
  }

  lemma ZeroRootLeaves(c: Core, o: Order, y: Order)
    requires CanTrade(c, o) && o.id != c.Makers(o)[0].id && c.Left(c.Makers(o)[0]) == 0.0
    requires y in c.Makers(o) && c.Left(y) > 0.0
    ensures var c' := Iterated(c, Unlisted, o);
            && y in c'.Makers(o) && (forall z :: z in c'.Makers(o) ==> z in c.Makers(o))
            && c'.Left(o) == c.Left(o) && c'.Left(y) == c.Left(y)
  {
    var root, q := c.Makers(o)[0], c.Makers(o);
    UnlistedIterated(c, o);
    FilledShape(c, o, root);
    PopContents(q);
    assert y in multiset(q) && y != root;
    assert y in multiset(Popped(q));
    forall z | z in Popped(q) ensures z in q {
      assert z in multiset(Popped(q));
      assert z in multiset(q);
    }
  }
}
