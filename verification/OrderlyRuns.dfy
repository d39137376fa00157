/** Runs of limit orders, cancels, deposits and withdrawals with no stop orders waiting:
    every book stays sound and uncrossed, and frozen funds cover all resting orders. */
module OrderlyRuns {
  import opened Orders
  import opened Ledgers
  import opened Sums
  import opened Matching
  import opened FillLedger
  import opened SoundBooks
  import opened Solvency
  import opened Exchanges
  import opened FillRuns

  // ---------- what a stop-free call leaves alone ----------

  lemma PlaceApart(c: Core, m: Market, o: Order)
    requires Sound(c) && Fresh(c, o)
    ensures var c' := Place(c.(nextId := o.id), m, o).0;
            Apart(c, c', {}) && forall p :: c'.book.Queued(p) ==> c.book.Queued(p) || p == o
  {
    match Freeze(c.ledger, LockAcct(m, o), Need(o, o.amount))
    case Refused(_) =>
    case Done(l) =>
      var c1 := Entered(c.(nextId := o.id).(ledger := l), o);
      var c2 := TakerLoop(c1, m, o).core;
      EnteredSound(c, l, o);
      LoopApart(c1, m, o);
      LoopStops(c1, m, o);
      RestedApart(c2, o);
      ChainApart(c, c1, c2, Rested(c2, o), o);
  }

  lemma RestedApart(c: Core, o: Order)
    requires Known(c, o)
    ensures var c' := Rested(c, o);
            && c'.nextId == c.nextId && CellsFall(c, c')
            && (forall id :: id in c.table && id != o.id ==> c'.table[id] == c.table[id])
            && forall p :: c'.book.Queued(p) ==> c.book.Queued(p) || p == o
  {
    PushedQueued(c.book.Queue(o.side), o);
  }

  lemma ChainApart(c: Core, c1: Core, c2: Core, c3: Core, o: Order)
    requires o.id !in c.table && c1.table == c.table[o.id := Cell(o, o.amount, Pending)]
    requires c1.book == c.book && c.nextId <= c1.nextId && Apart(c1, c2, {o.id})
    requires c3.nextId == c2.nextId && CellsFall(c2, c3)
    requires forall id :: id in c2.table && id != o.id ==> c3.table[id] == c2.table[id]
    ensures Apart(c, c3, {})
  {
    assert forall id :: QueuedId(c1, id) == QueuedId(c, id);
  }

  // ---------- the invariant of the whole engine ----------

  ghost predicate MarketSound(x: Exchange, name: string) {
    && Sound(x.Slice(name)) && Uncrossed(x.BookOf(name))
    && forall o :: x.BookOf(name).Queued(o) ==> o.market == name
  }

  ghost predicate Orderly(x: Exchange) {
    && x.books.Keys <= x.markets.Keys && x.stops == map[]
    && forall name :: MarketSound(x, name)
  }

  lemma StartIsOrderly(markets: Markets)
    ensures Orderly(Started(markets)) && Solvent(Started(markets))
  {
    var x := Started(markets);
    forall k: Acct ensures TotalClaim(x, k) == 0.0 {}
  }

  // ---------- cover over all markets ----------

  ghost function MarketClaim(x: Exchange, k: Acct, name: string): real {
    Claim(x.Slice(name), MarketIn(x.markets, name), k)
  }

  ghost function ClaimIn(x: Exchange, k: Acct): string -> real {
    (name: string) => MarketClaim(x, k, name)
  }

  /** What all resting orders of all markets may still need from an account. */
  ghost function TotalClaim(x: Exchange, k: Acct): real { SetTotal(x.books.Keys, ClaimIn(x, k)) }

  ghost predicate Solvent(x: Exchange) {
    forall k: Acct :: Held(x.ledger, k).frozen >= TotalClaim(x, k)
  }

  /** A call on one market that keeps its cover, and touches no other market's cells,
      keeps the engine solvent. */
  lemma OthersStay(x: Exchange, name: string, c: Core, other: string)
    requires Orderly(x) && name != other && Sound(c) && Apart(x.Slice(name), c, {})
    ensures var x' := x.With(name, c);
            && x'.Slice(other).book == x.Slice(other).book
            && MarketSound(x', other)
            && forall k :: ClaimIn(x', k)(other) == ClaimIn(x, k)(other)
  {
    var x' := x.With(name, c);
    var a, b := x.Slice(other), x'.Slice(other);
    SliceOfWith(x, name, c);
    assert MarketSound(x, name) && MarketSound(x, other);
    forall p | a.book.Queued(p) ensures p.id in c.table && c.table[p.id] == x.table[p.id] {
      QueuedElsewhere(x, name, other, p);
    }
    forall k: Acct ensures ClaimIn(x', k)(other) == ClaimIn(x, k)(other) {
      SameClaim(a, b, MarketIn(x.markets, other), k);
    }
    OtherSound(a, b);
  }

  /** No order is queued in two markets. */
  lemma QueuedElsewhere(x: Exchange, name: string, other: string, p: Order)
    requires Orderly(x) && name != other && x.BookOf(other).Queued(p)
    ensures p.id in x.table && !QueuedId(x.Slice(name), p.id)
  {
    assert MarketSound(x, name) && MarketSound(x, other);
    assert exists side: Side :: p in x.Slice(other).book.Queue(side) && Resting(x.Slice(other), p, side) by {
      if p in x.BookOf(other).bids { assert Resting(x.Slice(other), p, Bid); }
      else { assert Resting(x.Slice(other), p, Ask); }
    }
    forall q | x.BookOf(name).Queued(q) ensures q.id != p.id {
      if q in x.BookOf(name).bids { assert Resting(x.Slice(name), q, Bid); }
      else { assert Resting(x.Slice(name), q, Ask); }
    }
  }

  lemma OtherSound(a: Core, b: Core)
    requires Sound(a) && a.book == b.book && b.stops == [] && a.nextId <= b.nextId
    requires forall p :: a.book.Queued(p) ==> p.id in a.table && p.id in b.table && a.table[p.id] == b.table[p.id]
    requires !b.halted && forall id :: id in b.table ==> id <= b.nextId
    ensures Sound(b)
  {
    forall p, side | p in b.book.Queue(side) ensures Resting(b, p, side) { assert Resting(a, p, side); }
  }

  /** One market's call, seen from the whole engine. */
  lemma CallKeepsOrder(x: Exchange, name: string, c: Core)
    requires Orderly(x) && name in x.markets
    requires Sound(c) && Uncrossed(c.book) && Apart(x.Slice(name), c, {})
    requires forall p :: c.book.Queued(p) ==> p.market == name
    ensures Orderly(x.With(name, c))
  {
    var x' := x.With(name, c);
    SliceOfWith(x, name, c);
    assert x'.stops == map[];
    forall n ensures MarketSound(x', n) {
      if n != name { OthersStay(x, name, c, n); }
    }
  }

  /** The claims of all other markets stand, so the total moves with this market's claim. */
  lemma CallMovesClaim(x: Exchange, name: string, c: Core, k: Acct)
    requires Orderly(x) && name in x.markets && Sound(c) && Apart(x.Slice(name), c, {})
    ensures TotalClaim(x.With(name, c), k) - TotalClaim(x, k)
         == Claim(c, x.markets[name], k) - Claim(x.Slice(name), x.markets[name], k)
  {
    var x' := x.With(name, c);
    var f, g := ClaimIn(x, k), ClaimIn(x', k);
    OthersClaim(x, name, c, k);
    assert x'.books.Keys == x.books.Keys + {name};
    SetTotalPut(x.books.Keys, name, f, g);
  }

  lemma OthersClaim(x: Exchange, name: string, c: Core, k: Acct)
    requires Orderly(x) && name in x.markets && Sound(c) && Apart(x.Slice(name), c, {})
    ensures forall n :: n != name ==> ClaimIn(x, k)(n) == ClaimIn(x.With(name, c), k)(n)
    ensures ClaimIn(x.With(name, c), k)(name) == Claim(c, x.markets[name], k)
    ensures name !in x.books ==> ClaimIn(x, k)(name) == 0.0
  {
    SliceOfWith(x, name, c);
    forall n | n != name ensures ClaimIn(x, k)(n) == ClaimIn(x.With(name, c), k)(n) { OthersStay(x, name, c, n); }
  }

  lemma CoverOfOne(x: Exchange, name: string, k: Acct)
    requires Orderly(x) && Solvent(x) && name in x.markets
    ensures Slack(x.Slice(name), x.markets[name], k) >= 0.0
  {
    var f := ClaimIn(x, k);
    forall n ensures f(n) >= 0.0 {
      assert MarketSound(x, n);
      ClaimNonNegative(x.Slice(n), MarketIn(x.markets, n), k);
    }
    SetTotalNonNegative(x.books.Keys - {name}, f);
    if name in x.books { SetTotalRemove(x.books.Keys, name, f); } else { SetTotalNonNegative(x.books.Keys, f); }
  }

  lemma CallKeepsSolvent(x: Exchange, name: string, c: Core)
    requires Orderly(x) && Solvent(x) && name in x.markets && Sound(c) && Apart(x.Slice(name), c, {})
    requires forall k: Acct :: Slack(c, x.markets[name], k) >= Slack(x.Slice(name), x.markets[name], k)
    ensures Solvent(x.With(name, c))
  {
    forall k: Acct ensures Held(x.With(name, c).ledger, k).frozen >= TotalClaim(x.With(name, c), k) {
      CallMovesClaim(x, name, c, k);
      assert Slack(c, x.markets[name], k) >= Slack(x.Slice(name), x.markets[name], k);
    }
  }

  // ---------- steps and runs ----------

  lemma PlaceStep(x: Exchange, o: Order)
    requires Orderly(x) && Solvent(x) && o.id == x.nextId + 1 && o.price > 0.0 && o.amount > 0.0
    ensures var x' := PlaceNew(x, o);
            Orderly(x') && Solvent(x') && x'.journal.failedUnlocks == x.journal.failedUnlocks && x'.markets == x.markets
  {
    var x1 := x.(nextId := o.id);
    LaterId(x, o.id);
    if o.market in x.markets {
      var name, m := o.market, x.markets[o.market];
      var c := x.Slice(name);
      assert MarketSound(x, name) && x1.Slice(name) == c.(nextId := o.id);
      var c' := Place(c.(nextId := o.id), m, o).0;
      PlaceSound(c, m, o);
      PlaceUncrossed(c, m, o);
      PlaceApart(c, m, o);
      CallKeepsOrder(x, name, c');
      CoverOfOne(x, name, LockAcct(m, o));
      forall k: Acct ensures Slack(c', m, k) >= Slack(c, m, k) { PlaceSlack(c, m, o, k); }
      PlaceSlack(c, m, o, LockAcct(m, o));
      CallKeepsSolvent(x, name, c');
      assert x1.With(name, c') == x.With(name, c');
    }
  }

  lemma LaterId(x: Exchange, id: nat)
    requires Orderly(x) && id >= x.nextId
    ensures Orderly(x.(nextId := id)) && (Solvent(x) ==> Solvent(x.(nextId := id)))
  {
    var x1 := x.(nextId := id);
    forall n ensures MarketSound(x1, n) {
      assert MarketSound(x, n);
      assert x1.Slice(n) == x.Slice(n).(nextId := id);
    }
    forall k: Acct ensures TotalClaim(x1, k) == TotalClaim(x, k) { SameClaims(x, x1, k); }
  }

  lemma SameClaims(x: Exchange, x1: Exchange, k: Acct)
    requires x1.books == x.books && x1.table == x.table && x1.markets == x.markets
    ensures TotalClaim(x1, k) == TotalClaim(x, k)
  {
    forall n ensures ClaimIn(x, k)(n) == ClaimIn(x1, k)(n) {
      SameClaim(x.Slice(n), x1.Slice(n), MarketIn(x.markets, n), k);
    }
    SetTotalSame(x.books.Keys, ClaimIn(x, k), ClaimIn(x1, k));
  }

  lemma CancelStep(x: Exchange, id: nat, name: string)
    requires Orderly(x) && Solvent(x)
    ensures var x' := CancelOrder(x, id, name);
            Orderly(x') && Solvent(x') && x'.journal.failedUnlocks == x.journal.failedUnlocks && x'.markets == x.markets
  {
    if name in x.books {
      var c, m := x.Slice(name), x.markets[name];
      assert MarketSound(x, name);
      var c' := Cancel(c, m, id);
      CancelSound(c, m, id);
      CancelUncrossed(c, m, id);
      CancelApart(c, m, id);
      CallKeepsOrder(x, name, c');
      forall k: Acct ensures Slack(c', m, k) >= Slack(c, m, k) { CancelCover(x, name, id, k); }
      CancelCover(x, name, id, Acct(0, ""));
      CallKeepsSolvent(x, name, c');
    }
  }

  lemma CancelApart(c: Core, m: Market, id: nat)
    requires Sound(c)
    ensures Apart(c, Cancel(c, m, id), {})
    ensures forall p :: Cancel(c, m, id).book.Queued(p) <==> c.book.Queued(p)
  {
    if id in c.book.live {
      var o := c.book.live[id];
      assert c.book.Queued(o) && QueuedId(c, id);
      assert Resting(c, o, Ask) || Resting(c, o, Bid);
    }
  }

  lemma CancelCover(x: Exchange, name: string, id: nat, k: Acct)
    requires Orderly(x) && Solvent(x) && name in x.books
    ensures var c, m := x.Slice(name), x.markets[name];
            && Slack(Cancel(c, m, id), m, k) >= Slack(c, m, k)
            && Cancel(c, m, id).journal.failedUnlocks == c.journal.failedUnlocks
  {
    assert MarketSound(x, name);
    var c, m := x.Slice(name), x.markets[name];
    if id in c.book.live { CoverOfOne(x, name, LockAcct(m, c.book.live[id])); }
    CancelSlack(c, m, id, k);
  }

  lemma LedgerStep(x: Exchange, l: Ledger)
    requires Orderly(x) && Solvent(x)
    requires forall k: Acct :: Held(l, k).frozen == Held(x.ledger, k).frozen
    ensures Orderly(x.(ledger := l)) && Solvent(x.(ledger := l))
  {
    var x1 := x.(ledger := l);
    forall n ensures MarketSound(x1, n) {
      assert MarketSound(x, n);
      assert x1.Slice(n) == x.Slice(n).(nextId := x.nextId).(ledger := l);
    }
    forall k: Acct ensures TotalClaim(x1, k) == TotalClaim(x, k) { SameClaims(x, x1, k); }
  }

  lemma NotHalted(x: Exchange)
    requires Orderly(x)
    ensures !x.halted
  {
    assert MarketSound(x, "");
  }

  lemma NoStopsStep(x: Exchange, op: Op)
    requires Orderly(x) && Solvent(x) && Admitted(op) && !op.AddStop?
    ensures Orderly(Step(x, op)) && Solvent(Step(x, op))
    ensures Step(x, op).journal.failedUnlocks == x.journal.failedUnlocks
  {
    NotHalted(x);
    var x' := Step(x, op);
    if op.PlaceLimit? {
      var o := Order(x.nextId + 1, op.userId, op.market, op.side, op.price, op.amount);
      assert x' == PlaceNew(x, o);
      PlaceStep(x, o);
    } else if op.CancelLimit? {
      assert x' == CancelOrder(x, op.id, op.market);
      CancelStep(x, op.id, op.market);
    } else if op.Deposit? || op.Withdraw? {
      FundsStep(x, op);
    } else {
      assert x' == x;
    }
  }

  lemma FundsStep(x: Exchange, op: Op)
    requires Orderly(x) && Solvent(x) && (op.Deposit? || op.Withdraw?)
    ensures Orderly(Step(x, op)) && Solvent(Step(x, op))
    ensures Step(x, op).journal.failedUnlocks == x.journal.failedUnlocks
  {
    NotHalted(x);
    if op.Deposit? {
      LedgerStep(x, Add(x.ledger, Acct(op.userId, op.asset), op.amount));
    } else {
      LedgerStep(x, Sub(x.ledger, Acct(op.userId, op.asset), op.amount).Else(x.ledger));
    }
  }

  /** Over every run without stop orders: no book is ever crossed, map and queues agree,
      frozen funds cover all resting orders, and no unlock ever fails. */
  lemma {:induction false} RunIsOrderlyAndSolvent(x: Exchange, ops: seq<Op>)
    requires Orderly(x) && Solvent(x) && AllAdmitted(ops) && NoStops(ops)
    ensures Orderly(Run(x, ops)) && Solvent(Run(x, ops))
    ensures Run(x, ops).journal.failedUnlocks == x.journal.failedUnlocks
    decreases |ops|
  {
    if ops != [] {
      assert ops[0] in ops && forall op :: op in ops[1..] ==> op in ops;
      NoStopsStep(x, ops[0]);
      RunIsOrderlyAndSolvent(Step(x, ops[0]), ops[1..]);
    }
  }
}
