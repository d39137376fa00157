/** Whole calls with one stop order waiting, on the taker's side or on the makers', judged by what
    the book holds before the call. */
module NestedCalls {
  import opened Orders
  import opened PriceQueues
  import opened Ledgers
  import opened Sums
  import opened Matching
  import opened SoundBooks
  import opened Acceptances
  import opened LevelSweep
  import opened Executions
  import opened NestedSweeps
  import opened OppositeSweeps

  // ---------- the maker at whose price the stop order fires ----------

  /** Makers from the dearest down, and what the taker then wants. */
  datatype Stand = Stand(makers: seq<Order>, left: real)

  /** Along the makers, each filled in turn, up to the first at whose price the stop order fires,
      or to where the loop ends. */
  function AtFiring(makers: seq<Order>, table: map<nat, Cell>, o: Order, left: real, s: StopOrder): Stand {
    if makers == [] || left <= 0.0 || OutOfReach(o, makers[0]) || Eligible(s, makers[0].price) then Stand(makers, left)
    else AtFiring(makers[1..], table, o, left - Min(left, LeftIn(table, makers[0])), s)
  }

  /** The same along the drained book before the call. */
  ghost function Firing(c: Core, o: Order, s: StopOrder): Stand {
    AtFiring(Drained(c.Makers(o)), c.table, o, o.amount, s)
  }

  lemma {:induction false} FiringSame(makers: seq<Order>, a: map<nat, Cell>, b: map<nat, Cell>, o: Order, left: real,
                                      s: StopOrder)
    requires forall y :: y in makers ==> LeftIn(a, y) == LeftIn(b, y)
    ensures AtFiring(makers, a, o, left, s) == AtFiring(makers, b, o, left, s)
  {
    if makers != [] {
      assert makers[0] in makers && forall y :: y in makers[1..] ==> y in makers;
      FiringSame(makers[1..], a, b, o, left - Min(left, LeftIn(a, makers[0])), s);
    }
  }

  lemma {:induction false} FiringIsPart(makers: seq<Order>, table: map<nat, Cell>, o: Order, left: real, s: StopOrder)
    ensures forall y :: y in AtFiring(makers, table, o, left, s).makers ==> y in makers
  {
    if makers != [] { FiringIsPart(makers[1..], table, o, left - Min(left, LeftIn(table, makers[0])), s); }
  }

  /** `d` is the core, and `st` says what it offers to a taker that still wants something. */
  ghost predicate StandsAt(d: Core, o: Order, st: Stand, table: map<nat, Cell>) {
    && d.Left(o) == st.left
    && (st.left > 0.0 ==>
          && Drained(d.Makers(o)) == st.makers
          && forall y :: y in st.makers ==> d.Left(y) == LeftIn(table, y))
  }

  lemma StandsEarlier(d: Core, o: Order, a: map<nat, Cell>, b: map<nat, Cell>, makers: seq<Order>, left: real,
                      s: StopOrder)
    requires forall y :: y in makers ==> LeftIn(a, y) == LeftIn(b, y)
    requires StandsAt(d, o, AtFiring(makers, b, o, left, s), b)
    ensures StandsAt(d, o, AtFiring(makers, a, o, left, s), a)
  {
    FiringSame(makers, a, b, o, left, s);
    FiringIsPart(makers, a, o, left, s);
  }

  lemma {:induction false} MetStands(c: Core, m: Market, o: Order, s: StopOrder)
    requires Sound(c) && Taking(c, o)
    ensures StandsAt(Met(c, m, o, s), o, AtFiring(Drained(c.Makers(o)), c.table, o, c.Left(o), s), c.table)
    ensures Sound(Met(c, m, o, s)) && Taking(Met(c, m, o, s), o)
    decreases |c.Makers(o)|, if c.Left(o) > 0.0 then 1 else 0
  {
    if CanTrade(c, o) && !Eligible(s, c.Makers(o)[0].price) {
      var c1 := Iterated(c, m, o);
      IteratedSound(c, m, o);
      MetStands(c1, m, o, s);
      TurnedStands(c, c1, o, s, Met(c1, m, o, s));
    }
  }

  lemma TurnedStands(c: Core, c1: Core, o: Order, s: StopOrder, d: Core)
    requires Sound(c) && Taking(c, o) && CanTrade(c, o) && Turned(c, c1, o) && !Eligible(s, c.Makers(o)[0].price)
    requires StandsAt(d, o, AtFiring(Drained(c1.Makers(o)), c1.table, o, c1.Left(o), s), c1.table)
    ensures StandsAt(d, o, AtFiring(Drained(c.Makers(o)), c.table, o, c.Left(o), s), c.table)
  {
    var makers := Drained(c.Makers(o));
    TurnedList(c, c1, o);
    if c1.Left(o) > 0.0 { StandsEarlier(d, o, c.table, c1.table, makers[1..], c1.Left(o), s); }
  }

  // ---------- the two failures ----------

  ghost function LeftOn(makers: seq<Order>, table: map<nat, Cell>): real { Total(makers, WeightIf(table, Anywhere())) }

  /** The stop order fires on the first of these makers and can trade with it itself. */
  predicate JoinsAt(st: Stand, o: Order, s: StopOrder) {
    && st.makers != [] && st.left > 0.0 && !OutOfReach(o, st.makers[0])
    && Eligible(s, st.makers[0].price) && s.order.amount > 0.0 && !OutOfReach(s.order, st.makers[0])
  }

  function WantAt(st: Stand, table: map<nat, Cell>, s: StopOrder): real
    requires st.makers != []
  {
    Min(st.left, LeftIn(table, st.makers[0])) + s.order.amount
  }

  /** With the taker it wants all that these makers have, and it reaches each of them. */
  ghost predicate PanicsAt(st: Stand, table: map<nat, Cell>, o: Order, s: StopOrder) {
    && JoinsAt(st, o, s) && WantAt(st, table, s) >= LeftOn(st.makers, table)
    && forall y :: y in st.makers ==> !OutOfReach(s.order, y)
  }

  /** They want at least what the first of them has, and not everything. */
  ghost predicate LosesAt(st: Stand, table: map<nat, Cell>, o: Order, s: StopOrder) {
    JoinsAt(st, o, s) && WantAt(st, table, s) >= LeftIn(table, st.makers[0]) && !PanicsAt(st, table, o, s)
  }

  lemma FailuresAt(d: Core, o: Order, s: StopOrder, st: Stand, table: map<nat, Cell>)
    requires OneWaits(d, o, s) && StandsAt(d, o, st, table)
    ensures CanTrade(d, o) && Panics(d, o, s) <==> PanicsAt(st, table, o, s)
    ensures CanTrade(d, o) && PopsAnother(d, o, s) <==> LosesAt(st, table, o, s)
  {
    if st.left > 0.0 {
      var q := d.Makers(o);
      assert QueueSound(Bare(d), o.side.Opposite());
      DrainSorts(q);
      DrainedMembers(q);
      TotalPermutation(q, st.makers, WeightIf(d.table, Anywhere()));
      TotalSame(st.makers, WeightIf(d.table, Anywhere()), WeightIf(table, Anywhere()));
      assert q != [] ==> st.makers[0] == q[0] && q[0] in st.makers;
    }
  }

  // ---------- the call ----------

  /** An affordable order makes the loop panic exactly when the stop order, firing on the maker that
      the drained book names, wants with the taker all that is offered from there down; and it
      loses a maker that still has something exactly when the two want at least that maker and not
      all. `MetWith` is where the loop stood then. */
  lemma PlacePanicsIff(c: Core, m: Market, o: Order, s: StopOrder)
    requires c.stops == [s] && !s.triggered && s.order.side == o.side && Sound(Bare(c)) && Fresh(c, o)
    ensures var (c', reply) := Place(c.(nextId := o.id), m, o);
            && (!Affordable(c.ledger, m, o) ==> reply.Rejected? && !c'.halted)
            && (Affordable(c.ledger, m, o) ==>
                  var l := Freeze(c.ledger, LockAcct(m, o), Need(o, o.amount)).ledger;
                  var d := MetWith(Entered(c.(nextId := o.id).(ledger := l), o), m, o, s);
                  && (c'.halted <==> PanicsAt(Firing(c, o, s), c.table, o, s))
                  && (Loses(d, c', o) <==> LosesAt(Firing(c, o, s), c.table, o, s)))
  {
    PlaceAcceptedIff(c.(nextId := o.id), m, o);
    match Freeze(c.ledger, LockAcct(m, o), Need(o, o.amount))
    case Refused(_) =>
    case Done(l) =>
      var c1 := Entered(c.(nextId := o.id).(ledger := l), o);
      EnteredSound(Bare(c), l, o);
      assert Bare(c1) == Entered(Bare(c).(nextId := o.id).(ledger := l), o);
      EnteredStands(c, c1, l, o, s);
      LoopFails(c1, m, o, s, Firing(c, o, s), c.table);
      RestedLoses(TakerLoop(c1, m, o).core, o, MetWith(c1, m, o, s));
  }

  lemma EnteredStands(c: Core, c1: Core, l: Ledger, o: Order, s: StopOrder)
    requires Sound(Bare(c)) && Fresh(c, o) && c1 == Entered(c.(nextId := o.id).(ledger := l), o)
    ensures c1.Left(o) == o.amount
    ensures forall y :: y in Drained(c.Makers(o)) ==> LeftIn(c.table, y) == LeftIn(c1.table, y)
  {
    assert QueueSound(Bare(c), o.side.Opposite());
    DrainedMembers(c.Makers(o));
    forall y | y in Drained(c.Makers(o)) ensures LeftIn(c.table, y) == LeftIn(c1.table, y) {
      assert Resting(Bare(c), y, o.side.Opposite());
    }
  }

  lemma LoopFails(c1: Core, m: Market, o: Order, s: StopOrder, st: Stand, table: map<nat, Cell>)
    requires OneWaits(c1, o, s) && st == AtFiring(Drained(c1.Makers(o)), table, o, c1.Left(o), s)
    requires forall y :: y in Drained(c1.Makers(o)) ==> LeftIn(table, y) == LeftIn(c1.table, y)
    ensures var d, e := MetWith(c1, m, o, s), TakerLoop(c1, m, o).core;
            && (e.halted <==> PanicsAt(st, table, o, s)) && (Loses(d, e, o) <==> LosesAt(st, table, o, s))
  {
    var d := MetWith(c1, m, o, s);
    MetStands(Bare(c1), m, o, s);
    StandsEarlier(Met(Bare(c1), m, o, s), o, table, c1.table, Drained(c1.Makers(o)), c1.Left(o), s);
    NestedLoop(c1, m, o, s);
    FailuresAt(d, o, s, st, table);
  }

  lemma RestedLoses(e: Core, o: Order, d: Core)
    ensures Rested(e, o).halted == e.halted && (Loses(d, Rested(e, o), o) <==> Loses(d, e, o))
  {
    var c' := Rested(e, o);
    assert c'.Makers(o) == e.Makers(o);
    forall y: Order ensures Lost(d, c', o, y) <==> Lost(d, e, o, y) { assert c'.Left(y) == e.Left(y); }
  }

  // ---------- a stop order on the makers' side ----------

  /** It fires on the first of these makers. */
  predicate FiresAt(st: Stand, o: Order, s: StopOrder) {
    st.makers != [] && st.left > 0.0 && !OutOfReach(o, st.makers[0]) && Eligible(s, st.makers[0].price)
  }

  /** The taker fills that maker, and the stop order is dearer. */
  predicate DropsAt(st: Stand, table: map<nat, Cell>, s: StopOrder)
    requires st.makers != []
  {
    LeftIn(table, st.makers[0]) <= st.left && s.order.price > st.makers[0].price
  }

  /** What a taker of the other side reaches depends on its side and limit and on the orders of
      `o`'s side alone. */
  lemma SameReach(c: Core, d: Core, o: Order, p: Order, r: Order)
    requires p.side == r.side == o.side.Opposite() && p.price == r.price
    requires d.book.Queue(o.side) == c.book.Queue(o.side)
    requires forall y :: y in c.book.Queue(o.side) ==> d.Left(y) == c.Left(y)
    ensures Reachable(d, p) == Reachable(c, r)
  {
    var v := WeightIf(c.table, if r.side.Ask? then WithinLimit(r) else Anywhere());
    var w := WeightIf(d.table, if p.side.Ask? then WithinLimit(p) else Anywhere());
    TotalSame(c.book.Queue(o.side), v, w);
  }

  lemma TurnedOwn(c: Core, c1: Core, o: Order)
    requires Sound(c) && Taking(c, o) && CanTrade(c, o) && Turned(c, c1, o)
    ensures c1.book.Queue(o.side) == c.book.Queue(o.side)
    ensures forall y :: y in c.book.Queue(o.side) ==> c1.Left(y) == c.Left(y)
  {
    TurnedLeft(c, c1, o);
    forall y | y in c.book.Queue(o.side) ensures c1.Left(y) == c.Left(y) {
      OwnSide(c, o, y);
      assert c.book.Queued(y);
    }
  }

  lemma {:induction false} MetKeepsOwn(c: Core, m: Market, o: Order, s: StopOrder)
    requires Sound(c) && Taking(c, o)
    ensures var d := Met(c, m, o, s);
            && d.book.Queue(o.side) == c.book.Queue(o.side)
            && forall y :: y in c.book.Queue(o.side) ==> d.Left(y) == c.Left(y)
    decreases |c.Makers(o)|, if c.Left(o) > 0.0 then 1 else 0
  {
    if CanTrade(c, o) && !Eligible(s, c.Makers(o)[0].price) {
      var c1 := Iterated(c, m, o);
      IteratedSound(c, m, o);
      MetKeepsOwn(c1, m, o, s);
      TurnedOwn(c, c1, o);
    }
  }

  lemma BehindAt(d: Core, o: Order, s: StopOrder, st: Stand, table: map<nat, Cell>)
    requires OneWaitsBehind(d, o, s) && StandsAt(d, o, st, table)
    requires CanTrade(d, o) ==> Eligible(s, d.Makers(o)[0].price)
    ensures CanTrade(d, o) <==> FiresAt(st, o, s)
    ensures CanTrade(d, o) ==>
              (PopsFired(d, o, FiredOrder(d, s)) <==> ComesToRest(d, FiredOrder(d, s)) && DropsAt(st, table, s))
  {
    if st.left > 0.0 {
      var q := d.Makers(o);
      assert QueueSound(Bare(d), o.side.Opposite());
      DrainedMembers(q);
      assert q != [] ==> st.makers != [] && st.makers[0] == q[0] && q[0] in st.makers;
    }
  }

  lemma {:induction false} MetIsEligible(c: Core, m: Market, o: Order, s: StopOrder)
    requires c.stops == []
    ensures var d := Met(c, m, o, s); CanTrade(d, o) ==> Eligible(s, d.Makers(o)[0].price)
    decreases |c.Makers(o)|, if c.Left(o) > 0.0 then 1 else 0
  {
    if CanTrade(c, o) && !Eligible(s, c.Makers(o)[0].price) { MetIsEligible(Iterated(c, m, o), m, o, s); }
  }

  lemma LoopBehindFails(c: Core, c1: Core, m: Market, o: Order, s: StopOrder)
    requires OneWaitsBehind(c1, o, s) && c1.Left(o) == o.amount && c1.book == c.book
    requires forall y :: y in Drained(c1.Makers(o)) ==> LeftIn(c.table, y) == LeftIn(c1.table, y)
    requires forall y :: y in c.book.Queue(o.side) ==> c1.Left(y) == c.Left(y)
    ensures var d, e, st := MetWith(c1, m, o, s), TakerLoop(c1, m, o).core, Firing(c, o, s);
            && !e.halted
            && (FiresAt(st, o, s) && ComesToRest(c, s.order) ==>
                  (Dropped(e, o, FiredOrder(d, s)) <==> DropsAt(st, c.table, s)))
  {
    var b, d := Bare(c1), MetWith(c1, m, o, s);
    MetStands(b, m, o, s);
    StandsEarlier(Met(b, m, o, s), o, c.table, c1.table, Drained(c1.Makers(o)), c1.Left(o), s);
    MetIsEligible(b, m, o, s);
    MetKeepsOwn(b, m, o, s);
    OppositeLoop(c1, m, o, s);
    BehindAt(d, o, s, Firing(c, o, s), c.table);
    SameReach(c, d, o, FiredOrder(d, s), s.order);
  }

  /** With the stop order on the makers' side no order makes the loop panic. If the stop
      order fires and comes to rest, which the book before the call decides, it is dropped from the
      queue exactly when it is dearer than the maker it fires on and the taker fills that maker. */
  lemma PlaceBehindIff(c: Core, m: Market, o: Order, s: StopOrder)
    requires c.stops == [s] && !s.triggered && s.order.side == o.side.Opposite() && Sound(Bare(c)) && Fresh(c, o)
    ensures var c' := Place(c.(nextId := o.id), m, o).0;
            var st := Firing(c, o, s);
            && !c'.halted
            && (Affordable(c.ledger, m, o) && FiresAt(st, o, s) && ComesToRest(c, s.order) ==>
                  var l := Freeze(c.ledger, LockAcct(m, o), Need(o, o.amount)).ledger;
                  var d := MetWith(Entered(c.(nextId := o.id).(ledger := l), o), m, o, s);
                  Dropped(c', o, FiredOrder(d, s)) <==> DropsAt(st, c.table, s))
  {
    PlaceAcceptedIff(c.(nextId := o.id), m, o);
    match Freeze(c.ledger, LockAcct(m, o), Need(o, o.amount))
    case Refused(_) =>
    case Done(l) =>
      var c1 := Entered(c.(nextId := o.id).(ledger := l), o);
      EnteredSound(Bare(c), l, o);
      assert Bare(c1) == Entered(Bare(c).(nextId := o.id).(ledger := l), o);
      EnteredStands(c, c1, l, o, s);
      EnteredOwn(c, c1, l, o);
      LoopBehindFails(c, c1, m, o, s);
      RestedDrops(TakerLoop(c1, m, o).core, o, FiredOrder(MetWith(c1, m, o, s), s));
  }

  lemma EnteredOwn(c: Core, c1: Core, l: Ledger, o: Order)
    requires Sound(Bare(c)) && Fresh(c, o) && c1 == Entered(c.(nextId := o.id).(ledger := l), o)
    ensures forall y :: y in c.book.Queue(o.side) ==> c1.Left(y) == c.Left(y)
  {
    forall y | y in c.book.Queue(o.side) ensures c1.Left(y) == c.Left(y) { assert Resting(Bare(c), y, o.side); }
  }

  lemma RestedDrops(e: Core, o: Order, p: Order)
    ensures Rested(e, o).halted == e.halted && (Dropped(Rested(e, o), o, p) <==> Dropped(e, o, p))
  {
    assert Rested(e, o).Makers(o) == e.Makers(o) && Rested(e, o).Left(p) == e.Left(p);
  }
}
