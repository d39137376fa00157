/** `BalanceManager`: the ledger kept in a map under composite string keys. */
module Balances {
  import opened Options
  import opened Text
  import opened Ledgers

  datatype Balance = Balance(userId: nat, asset: string, available: real, frozen: real)

  /** The string-keyed map holds exactly the accounts of the ledger, each under its own key. */
  ghost predicate Represents(m: map<string, Balance>, l: Ledger) {
    && (forall k :: k in m ==> k == Key(m[k].userId, m[k].asset))
    && (forall u, a {:trigger Key(u, a)} ::
          (Key(u, a) in m <==> Acct(u, a) in l)
          && (Key(u, a) in m ==> l[Acct(u, a)] == Bal(m[Key(u, a)].available, m[Key(u, a)].frozen)))
  }

  /** Writing an entry under its key writes the account: no other account has that key. */
  lemma PutRepresents(m: map<string, Balance>, l: Ledger, b: Balance)
    requires Represents(m, l)
    ensures Represents(m[Key(b.userId, b.asset) := b], l[Acct(b.userId, b.asset) := Bal(b.available, b.frozen)])
  {
    var m', l' := m[Key(b.userId, b.asset) := b], l[Acct(b.userId, b.asset) := Bal(b.available, b.frozen)];
    forall u, a
      ensures Key(u, a) in m' <==> Acct(u, a) in l'
      ensures Key(u, a) in m' ==> l'[Acct(u, a)] == Bal(m'[Key(u, a)].available, m'[Key(u, a)].frozen)
    {
      if Key(u, a) == Key(b.userId, b.asset) { KeyInjective(u, a, b.userId, b.asset); }
    }
  }

  lemma OwnEntry(m: map<string, Balance>, l: Ledger, u: nat, a: string)
    requires Represents(m, l) && Key(u, a) in m
    ensures m[Key(u, a)].userId == u && m[Key(u, a)].asset == a
  {
    KeyInjective(m[Key(u, a)].userId, m[Key(u, a)].asset, u, a);
  }

  function ErrorOf(o: Outcome): Option<Error> { if o.Done? then None else Some(o.error) }

  class BalanceManager {
    var balances: map<string, Balance>

    /** The balances by account. */
    ghost var ledger: Ledger

    ghost predicate Valid()
      reads this
    {
      Represents(balances, ledger)
    }

    constructor ()
      ensures Valid() && ledger == map[]
    {
      balances, ledger := map[], map[];
    }

    method GetBalance(userId: nat, asset: string) returns (available: real, frozen: real)
      requires Valid()
      ensures Bal(available, frozen) == Held(ledger, Acct(userId, asset))
    {
      var k := Key(userId, asset);
      if k !in balances { return 0.0, 0.0; }
      return balances[k].available, balances[k].frozen;
    }

    method Put(b: Balance)
      requires Valid()
      modifies this
      ensures Valid() && ledger == old(ledger)[Acct(b.userId, b.asset) := Bal(b.available, b.frozen)]
    {
      PutRepresents(balances, ledger, b);
      balances := balances[Key(b.userId, b.asset) := b];
      ledger := ledger[Acct(b.userId, b.asset) := Bal(b.available, b.frozen)];
    }

    method Freeze(userId: nat, asset: string, amount: real) returns (error: Option<Error>)
      requires Valid()
      modifies this
      ensures Valid()
      ensures ledger == Ledgers.Freeze(old(ledger), Acct(userId, asset), amount).Else(old(ledger))
      ensures error == ErrorOf(Ledgers.Freeze(old(ledger), Acct(userId, asset), amount))
      ensures error.None? <==> Acct(userId, asset) in old(ledger)
                               && old(ledger)[Acct(userId, asset)].available >= amount
    {
      var k := Key(userId, asset);
      if k !in balances { return Some(InsufficientBalance); }
      var b := balances[k];
      OwnEntry(balances, ledger, userId, asset);
      if b.available < amount { return Some(InsufficientBalance); }
      b := b.(available := b.available - amount);
      b := b.(frozen := b.frozen + amount);
      Put(b);
      return None;
    }

    method Unfreeze(userId: nat, asset: string, amount: real) returns (error: Option<Error>)
      requires Valid()
      modifies this
      ensures Valid()
      ensures ledger == Ledgers.Unfreeze(old(ledger), Acct(userId, asset), amount).Else(old(ledger))
      ensures error == ErrorOf(Ledgers.Unfreeze(old(ledger), Acct(userId, asset), amount))
    {
      var k := Key(userId, asset);
      if k !in balances { return Some(BalanceNotFound); }
      var b := balances[k];
      OwnEntry(balances, ledger, userId, asset);
      if b.frozen < amount { return Some(InvalidAmount); }
      b := b.(frozen := b.frozen - amount);
      b := b.(available := b.available + amount);
      Put(b);
      return None;
    }

    method Sub(userId: nat, asset: string, amount: real) returns (error: Option<Error>)
      requires Valid()
      modifies this
      ensures Valid()
      ensures ledger == Ledgers.Sub(old(ledger), Acct(userId, asset), amount).Else(old(ledger))
      ensures error == ErrorOf(Ledgers.Sub(old(ledger), Acct(userId, asset), amount))
    {
      var k := Key(userId, asset);
      if k !in balances { return Some(BalanceNotFound); }
      var b := balances[k];
      OwnEntry(balances, ledger, userId, asset);
      if b.available < amount { return Some(InsufficientBalance); }
      b := b.(available := b.available - amount);
      Put(b);
      return None;
    }

    method Add(userId: nat, asset: string, amount: real)
      requires Valid()
      modifies this
      ensures Valid()
      ensures ledger == Ledgers.Add(old(ledger), Acct(userId, asset), amount)
    {
      var k := Key(userId, asset);
      if k in balances { OwnEntry(balances, ledger, userId, asset); }
      var b := if k !in balances then Balance(userId, asset, amount, 0.0)
               else balances[k].(available := balances[k].available + amount);
      Put(b);
    }

    method SetBalance(userId: nat, asset: string, available: real, frozen: real)
      requires Valid()
      modifies this
      ensures Valid()
      ensures ledger == old(ledger)[Acct(userId, asset) := Bal(available, frozen)]
    {
      var b := Balance(userId, asset, available, frozen);
      Put(b);
    }
  }
}
