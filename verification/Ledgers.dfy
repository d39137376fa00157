/** Balances: the account view of the balance map, its four operations with their
    refusals, and the supply of an asset. */
module Ledgers {
  import opened Sums

  datatype Acct = Acct(userId: nat, asset: string)

  datatype Bal = Bal(available: real, frozen: real) {
    function Worth(): real { available + frozen }
  }

  type Ledger = map<Acct, Bal>

  datatype Error = InsufficientBalance | BalanceNotFound | InvalidAmount

  datatype Outcome = Done(ledger: Ledger) | Refused(error: Error) {
    /** The ledger after a call whose error is discarded. */
    function Else(l: Ledger): Ledger { if Done? then ledger else l }
  }

  function Held(l: Ledger, k: Acct): Bal { if k in l then l[k] else Bal(0.0, 0.0) }

  function Freeze(l: Ledger, k: Acct, x: real): Outcome {
    if k !in l || l[k].available < x then Refused(InsufficientBalance)
    else Done(l[k := Bal(l[k].available - x, l[k].frozen + x)])
  }

  function Unfreeze(l: Ledger, k: Acct, x: real): Outcome {
    if k !in l then Refused(BalanceNotFound)
    else if l[k].frozen < x then Refused(InvalidAmount)
    else Done(l[k := Bal(l[k].available + x, l[k].frozen - x)])
  }

  function Sub(l: Ledger, k: Acct, x: real): Outcome {
    if k !in l then Refused(BalanceNotFound)
    else if l[k].available < x then Refused(InsufficientBalance)
    else Done(l[k := Bal(l[k].available - x, l[k].frozen)])
  }

  function Add(l: Ledger, k: Acct, x: real): Ledger {
    if k !in l then l[k := Bal(x, 0.0)]
    else l[k := Bal(l[k].available + x, l[k].frozen)]
  }

  /** Locking and deducting take from what is available, unlocking from what is frozen; each succeeds
      exactly when the account is there and has as much, and says else what is missing. */
  lemma MovesIff(l: Ledger, k: Acct, x: real)
    ensures Freeze(l, k, x) == if k in l && l[k].available >= x
                               then Done(l[k := Bal(l[k].available - x, l[k].frozen + x)])
                               else Refused(InsufficientBalance)
    ensures Unfreeze(l, k, x) == if k in l && l[k].frozen >= x
                                 then Done(l[k := Bal(l[k].available + x, l[k].frozen - x)])
                                 else Refused(if k in l then InvalidAmount else BalanceNotFound)
    ensures Sub(l, k, x) == if k in l && l[k].available >= x
                            then Done(l[k := Bal(l[k].available - x, l[k].frozen)])
                            else Refused(if k in l then InsufficientBalance else BalanceNotFound)
    ensures Add(l, k, x) == l[k := Bal(Held(l, k).available + x, Held(l, k).frozen)]
  {
  }

  /** Unlocking takes back what locking did. */
  lemma FreezeUnfreeze(l: Ledger, k: Acct, x: real)
    requires k in l && l[k].available >= x && l[k].frozen >= 0.0
    ensures Freeze(l, k, x).Done? && Unfreeze(Freeze(l, k, x).ledger, k, x) == Done(l)
  {
    var b := l[k];
    assert l[k := Bal(b.available - x, b.frozen + x)][k := b] == l;
  }

  // ---------- supply ----------

  ghost function WorthIn(l: Ledger, asset: string): Acct -> real {
    (k: Acct) => if k.asset == asset then Held(l, k).Worth() else 0.0
  }

  /** Available plus frozen of one asset over all accounts. */
  ghost function Supply(l: Ledger, asset: string): real {
    SetTotal(l.Keys, WorthIn(l, asset))
  }

  /** Replacing one entry moves the supply of its asset by the change in worth, no other. */
  lemma SupplyUpdate(l: Ledger, l': Ledger, k: Acct, b: Bal, asset: string)
    requires l' == l[k := b]
    ensures Supply(l', asset) == Supply(l, asset) + WorthIn(l', asset)(k) - WorthIn(l, asset)(k)
  {
    var f, g := WorthIn(l, asset), WorthIn(l', asset);
    forall y: Acct | y != k ensures f(y) == g(y) {
      assert Held(l', y) == Held(l, y);
    }
    assert l'.Keys == l.Keys + {k};
    SetTotalPut(l.Keys, k, f, g);
  }

  predicate NonNegative(l: Ledger) {
    forall k :: k in l ==> l[k].available >= 0.0 && l[k].frozen >= 0.0
  }
}
