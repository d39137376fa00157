/** Which limit orders are accepted: the account that an order locks from must hold what the order
    may cost, and a balance of exactly that much is enough. */
module Acceptances {
  import opened Orders
  import opened Ledgers
  import opened Matching

  /** A bid needs its price times its amount in money, an ask its amount in stock. */
  predicate Affordable(l: Ledger, m: Market, o: Order) {
    var k := Acct(o.userId, if o.side.Bid? then m.money else m.stock);
    k in l && l[k].available >= if o.side.Bid? then o.price * o.amount else o.amount
  }

  /** An order is accepted exactly when it is affordable; otherwise nothing has changed. */
  lemma PlaceAcceptedIff(c: Core, m: Market, o: Order)
    ensures var (c', reply) := Place(c, m, o);
            && (reply.Accepted? <==> Affordable(c.ledger, m, o))
            && (!Affordable(c.ledger, m, o) ==> c' == c && reply == Rejected(InsufficientBalance))
  {
  }

  /** A positive need that is there is there in an account. */
  lemma HeldIsAffordable(l: Ledger, m: Market, o: Order)
    requires o.price > 0.0 && o.amount > 0.0 && Held(l, LockAcct(m, o)).available >= Need(o, o.amount)
    ensures Affordable(l, m, o)
  {
    ProductPositive(o.price, o.amount);
  }
}
