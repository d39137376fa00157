/** The price heap: `PriceQueue` driven by `container/heap`.

    `Less` puts the higher price first whatever side the queue serves, so the root
    is the dearest order of either queue. */
module PriceQueues {
  import opened Orders

  predicate Less(a: Order, b: Order) { a.price > b.price }

  function Parent(j: nat): nat
    requires j > 0
  {
    (j - 1) / 2
  }

  /** Element `j` does not come before its parent. */
  predicate InOrder(q: seq<Order>, j: nat)
    requires 0 < j < |q|
  {
    !Less(q[j], q[Parent(j)])
  }

  ghost predicate IsHeap(q: seq<Order>) {
    forall j :: 0 < j < |q| ==> InOrder(q, j)
  }

  function Swapped(q: seq<Order>, i: nat, j: nat): (r: seq<Order>)
    requires i < |q| && j < |q|
    ensures |r| == |q|
  {
    q[i := q[j]][j := q[i]]
  }

  lemma SwapIs(q: seq<Order>, r: seq<Order>, i: nat, j: nat)
    requires i < |q| == |r| && j < |q| && r[i] == q[j] && r[j] == q[i]
    requires forall k :: 0 <= k < |q| && k != i && k != j ==> r[k] == q[k]
    ensures r == Swapped(q, i, j)
  {
  }

  /** `up` of container/heap. */
  function SiftUp(q: seq<Order>, j: nat): (r: seq<Order>)
    requires j < |q|
    ensures |r| == |q|
    decreases j
  {
    if j == 0 || !Less(q[j], q[Parent(j)]) then q
    else SiftUp(Swapped(q, Parent(j), j), Parent(j))
  }

  /** The child that `down` compares with its parent `i`. */
  function Child(q: seq<Order>, i: nat, n: nat): (j: nat)
    requires 2 * i + 1 < n <= |q|
    ensures i < j < n && Parent(j) == i
    ensures forall k :: 0 < k < n && Parent(k) == i ==> !Less(q[k], q[j])
  {
    if 2 * i + 2 < n && Less(q[2 * i + 2], q[2 * i + 1]) then 2 * i + 2 else 2 * i + 1
  }

  /** `down` of container/heap on the first `n` elements. */
  function SiftDown(q: seq<Order>, i: nat, n: nat): (r: seq<Order>)
    requires i <= n <= |q|
    ensures |r| == |q|
    decreases n - i
  {
    if 2 * i + 1 >= n then q
    else
      var j := Child(q, i, n);
      if !Less(q[j], q[i]) then q else SiftDown(Swapped(q, i, j), j, n)
  }

  function Pushed(q: seq<Order>, x: Order): seq<Order> { SiftUp(q + [x], |q|) }

  /** What `heap.Pop` leaves behind; the element it returns is the old root. */
  function Popped(q: seq<Order>): seq<Order>
    requires q != []
  {
    var n := |q| - 1;
    SiftDown(Swapped(q, 0, n), 0, n)[..n]
  }

  // ---------- contents ----------

  lemma SwapContents(q: seq<Order>, i: nat, j: nat)
    requires i < |q| && j < |q|
    ensures multiset(Swapped(q, i, j)) == multiset(q)
  {
  }

  lemma {:induction false} SiftUpContents(q: seq<Order>, j: nat)
    requires j < |q|
    ensures multiset(SiftUp(q, j)) == multiset(q)
    decreases j
  {
    if j == 0 || !Less(q[j], q[Parent(j)]) {
    } else {
      SwapContents(q, Parent(j), j);
      SiftUpContents(Swapped(q, Parent(j), j), Parent(j));
    }
  }

  lemma {:induction false} SiftDownContents(q: seq<Order>, i: nat, n: nat)
    requires i <= n <= |q|
    ensures multiset(SiftDown(q, i, n)) == multiset(q) && SiftDown(q, i, n)[n..] == q[n..]
    decreases n - i
  {
    if 2 * i + 1 < n && Less(q[Child(q, i, n)], q[i]) {
      var j := Child(q, i, n);
      SwapContents(q, i, j);
      SiftDownContents(Swapped(q, i, j), j, n);
      assert Swapped(q, i, j)[n..] == q[n..];
    }
  }

  lemma PopContents(q: seq<Order>)
    requires q != []
    ensures |Popped(q)| == |q| - 1
    ensures multiset(q) == multiset(Popped(q)) + multiset{q[0]}
  {
    var n := |q| - 1;
    var s := Swapped(q, 0, n);
    var d := SiftDown(s, 0, n);
    SwapContents(q, 0, n);
    SiftDownContents(s, 0, n);
    assert d[n..] == s[n..] == [q[0]];
    assert d == d[..n] + d[n..];
  }

  // ---------- the heap order ----------

  /** Heap order except that `j` may be dearer than its parent. */
  ghost predicate HeapBelow(q: seq<Order>, j: nat)
    requires j < |q|
  {
    && (forall k :: 0 < k < |q| && k != j ==> InOrder(q, k))
    && (j > 0 ==> forall k :: 0 < k < |q| && Parent(k) == j ==> !Less(q[k], q[Parent(j)]))
  }

  lemma {:induction false} SiftUpOrders(q: seq<Order>, j: nat)
    requires j < |q| && HeapBelow(q, j)
    ensures IsHeap(SiftUp(q, j))
    decreases j
  {
    if j == 0 || !Less(q[j], q[Parent(j)]) {
    } else {
      var i := Parent(j);
      var s := Swapped(q, i, j);
      forall k | 0 < k < |s| && k != i ensures InOrder(s, k) {
        assert k != j ==> InOrder(q, k);
      }
      forall k | 0 < k < |s| && Parent(k) == i && i > 0 ensures !Less(s[k], s[Parent(i)]) {
        assert InOrder(q, i) && (k != j ==> InOrder(q, k));
      }
      SiftUpOrders(s, i);
    }
  }

  /** Heap order on the first `n` elements except that `i` may be cheaper than its children. */
  ghost predicate HeapAbove(q: seq<Order>, i: nat, n: nat)
    requires i <= n <= |q|
  {
    && (forall k :: 0 < k < n && Parent(k) != i ==> InOrder(q, k))
    && (i > 0 ==> forall k :: 0 < k < n && Parent(k) == i ==> !Less(q[k], q[Parent(i)]))
  }

  lemma {:induction false} SiftDownOrders(q: seq<Order>, i: nat, n: nat)
    requires i <= n <= |q| && HeapAbove(q, i, n)
    ensures IsHeap(SiftDown(q, i, n)[..n])
    decreases n - i
  {
    var r := SiftDown(q, i, n)[..n];
    if 2 * i + 1 < n && Less(q[Child(q, i, n)], q[i]) {
      var j := Child(q, i, n);
      var s := Swapped(q, i, j);
      forall k | 0 < k < n && Parent(k) != j ensures InOrder(s, k) {
        assert Parent(k) != i ==> InOrder(q, k);
      }
      forall k | 0 < k < n && Parent(k) == j ensures !Less(s[k], s[Parent(j)]) {
        assert InOrder(q, k);
      }
      SiftDownOrders(s, j, n);
    } else {
      forall k | 0 < k < n ensures InOrder(r, k) {
        assert Parent(k) != i ==> InOrder(q, k);
      }
    }
  }

  /** Push keeps the heap order and adds exactly the new order. */
  lemma PushCorrect(q: seq<Order>, x: Order)
    requires IsHeap(q)
    ensures IsHeap(Pushed(q, x)) && multiset(Pushed(q, x)) == multiset(q) + multiset{x}
  {
    var s := q + [x];
    forall k | 0 < k < |q| ensures InOrder(s, k) {
      assert InOrder(q, k);
    }
    SiftUpOrders(s, |q|);
    SiftUpContents(s, |q|);
  }

  /** Pop keeps the heap order and removes exactly the root. */
  lemma PopCorrect(q: seq<Order>)
    requires IsHeap(q) && q != []
    ensures IsHeap(Popped(q)) && multiset(q) == multiset(Popped(q)) + multiset{q[0]}
  {
    PopContents(q);
    var s := Swapped(q, 0, |q| - 1);
    forall k | 0 < k < |q| - 1 && Parent(k) != 0 ensures InOrder(s, k) {
      assert InOrder(q, k);
    }
    SiftDownOrders(Swapped(q, 0, |q| - 1), 0, |q| - 1);
  }

  lemma {:induction false} RootIsDearestAt(q: seq<Order>, j: nat)
    requires IsHeap(q) && j < |q|
    ensures q[j].price <= q[0].price
    decreases j
  {
    if j > 0 {
      assert InOrder(q, j);
      RootIsDearestAt(q, Parent(j));
    }
  }

  lemma RootIsDearest(q: seq<Order>)
    requires IsHeap(q) && q != []
    ensures forall o :: o in q ==> o.price <= q[0].price
  {
    forall o | o in q ensures o.price <= q[0].price {
      var j :| 0 <= j < |q| && q[j] == o;
      RootIsDearestAt(q, j);
    }
  }

  /** Popping a queue until it is empty. */
  ghost function Drained(q: seq<Order>): seq<Order>
    decreases |q|
  {
    if q == [] then [] else PopContents(q); [q[0]] + Drained(Popped(q))
  }

  lemma DearerThanAll(q: seq<Order>)
    requires IsHeap(q) && q != [] && multiset(Drained(Popped(q))) == multiset(Popped(q))
    ensures forall o :: o in Drained(Popped(q)) ==> o.price <= q[0].price
  {
    PopContents(q);
    RootIsDearest(q);
    forall o | o in Drained(Popped(q)) ensures o.price <= q[0].price {
      assert o in multiset(Drained(Popped(q)));
      assert o in multiset(q);
    }
  }

  /** Draining any heap lists all its orders, dearest first. */
  lemma {:induction false} DrainSorts(q: seq<Order>)
    requires IsHeap(q)
    ensures multiset(Drained(q)) == multiset(q)
    ensures forall i, j :: 0 <= i < j < |Drained(q)| ==> Drained(q)[i].price >= Drained(q)[j].price
    decreases |q|
  {
    if q != [] {
      PopCorrect(q);
      DrainSorts(Popped(q));
      DearerThanAll(q);
    }
  }

  // ---------- the heap in place ----------

  class PriceQueue {
    var orders: seq<Order>
    /** The market and side this queue serves; no two queues share them. */
    ghost const market: string
    ghost const side: Side

    constructor (ghost market: string, ghost side: Side)
      ensures orders == [] && this.market == market && this.side == side
    {
      orders := [];
      this.market, this.side := market, side;
    }

    method Swap(i: nat, j: nat)
      requires i < |orders| && j < |orders|
      modifies this
      ensures |orders| == |old(orders)| && orders[i] == old(orders)[j] && orders[j] == old(orders)[i]
      ensures forall k :: 0 <= k < |orders| && k != i && k != j ==> orders[k] == old(orders)[k]
    {
      orders := orders[i := orders[j]][j := orders[i]];
    }

    /** `heap.Push`: append, then `up`. */
    method Push(x: Order)
      modifies this
      ensures orders == Pushed(old(orders), x)
    {
      orders := orders + [x];
      var j := |orders| - 1;
      while true
        invariant 0 <= j < |orders| == |old(orders)| + 1
        invariant SiftUp(orders, j) == Pushed(old(orders), x)
        decreases j
      {
        var i := if j == 0 then 0 else (j - 1) / 2;
        if i == j || !Less(orders[j], orders[i]) { break; }
        ghost var was := orders;
        Swap(i, j);
        SwapIs(was, orders, i, j);
        j := i;
      }
    }

    /** `heap.Pop`: move the root to the end, `down`, then cut it off. */
    method Pop() returns (x: Order)
      requires orders != []
      modifies this
      ensures x == old(orders)[0] && orders == Popped(old(orders))
    {
      var n := |orders| - 1;
      Swap(0, n);
      SwapIs(old(orders), orders, 0, n);
      var i := 0;
      while true
        invariant 0 <= i <= n < |orders| == |old(orders)|
        invariant SiftDown(orders, i, n) == SiftDown(Swapped(old(orders), 0, n), 0, n)
        invariant orders[n] == old(orders)[0]
        decreases n - i
      {
        var j1 := 2 * i + 1;
        if j1 >= n { break; }
        var j := j1;
        var j2 := j1 + 1;
        if j2 < n && Less(orders[j2], orders[j1]) { j := j2; }
        if !Less(orders[j], orders[i]) { break; }
        ghost var was := orders;
        Swap(i, j);
        SwapIs(was, orders, i, j);
        i := j;
      }
      x := orders[n];
      orders := orders[..n];
    }
  }
}
