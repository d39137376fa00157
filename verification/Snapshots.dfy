/** Saving live orders and balances, and loading them into a fresh engine. Decimals are
    written exactly; order times are not part of the model. */
module Snapshots {
  import opened Orders
  import opened PriceQueues
  import opened Matching
  import opened SoundBooks

  datatype OrderData = OrderData(id: nat, userId: nat, market: string, side: nat, price: real, amount: real,
                                 left: real, status: nat)

  /** One line of the orders file. */
  datatype Row = Row(market: string, data: OrderData)

  // ---------- one order ----------

  function SideCode(s: Side): nat { if s.Ask? then 1 else 2 }

  function SideOf(code: nat): Side { if code == 1 then Ask else Bid }

  function StatusCode(s: Status): nat {
    match s case Pending => 1 case Partial => 2 case Finished => 3 case Canceled => 4
  }

  function StatusOf(code: nat): Status {
    if code == 1 then Pending else if code == 2 then Partial else if code == 3 then Finished else Canceled
  }

  function SerializeOrder(o: Order, left: real, status: Status): OrderData {
    OrderData(o.id, o.userId, o.market, SideCode(o.side), o.price, o.amount, left, StatusCode(status))
  }

  function OrderOf(d: OrderData): Order { Order(d.id, d.userId, d.market, SideOf(d.side), d.price, d.amount) }

  function CellOf(d: OrderData): Cell { Cell(OrderOf(d), d.left, StatusOf(d.status)) }

  predicate IsActive(d: OrderData) { d.status == 1 || d.status == 2 }

  lemma CellRoundTrip(o: Order, left: real, status: Status)
    ensures CellOf(SerializeOrder(o, left, status)) == Cell(o, left, status)
    ensures IsActive(SerializeOrder(o, left, status)) <==> status == Pending || status == Partial
    ensures var d := SerializeOrder(o, left, status);
            && d.id == o.id && d.userId == o.userId && d.market == o.market && d.price == o.price
            && d.amount == o.amount && d.left == left && d.side == (match o.side case Ask => 1 case Bid => 2)
            && d.status == (match status case Pending => 1 case Partial => 2 case Finished => 3 case Canceled => 4)
  {
  }

  // ---------- loading ----------

  /** `PutOrder` of each active order into an empty book. */
  function RestoredBook(list: seq<OrderData>): Book {
    if list == [] then EMPTY_BOOK
    else
      var b, d := RestoredBook(list[..|list| - 1]), list[|list| - 1];
      var side, o := SideOf(d.side), OrderOf(d);
      if IsActive(d) then b.WithQueue(side, Pushed(b.Queue(side), o)).(live := b.live[d.id := o])
      else b
  }

  predicate InList(list: seq<OrderData>, o: Order) {
    exists i :: 0 <= i < |list| && IsActive(list[i]) && OrderOf(list[i]) == o
  }

  predicate DistinctIds(list: seq<OrderData>) {
    forall i, j :: 0 <= i < j < |list| && IsActive(list[i]) && IsActive(list[j]) ==> list[i].id != list[j].id
  }

  ghost predicate QueueHolds(q: seq<Order>, list: seq<OrderData>, side: Side) {
    IsHeap(q) && Once(q) && forall o :: o in q <==> o.side == side && InList(list, o)
  }

  /** What a book holds that was loaded from `list`. */
  ghost predicate HoldsList(b: Book, list: seq<OrderData>) {
    && (forall o: Order :: (o.id in b.live && b.live[o.id] == o) <==> InList(list, o))
    && (forall id :: id in b.live ==> b.live[id].id == id)
    && QueueHolds(b.bids, list, Bid) && QueueHolds(b.asks, list, Ask)
  }

  lemma ListGrows(list: seq<OrderData>, next: seq<OrderData>)
    requires next != [] && list == next[..|next| - 1] && DistinctIds(next) && IsActive(next[|next| - 1])
    ensures var x := OrderOf(next[|next| - 1]);
            && (forall o: Order :: InList(next, o) <==> InList(list, o) || o == x)
            && (forall o: Order :: InList(list, o) ==> o.id != x.id)
  {
    var d := next[|next| - 1];
    forall o: Order ensures InList(next, o) <==> InList(list, o) || o == OrderOf(d) {}
    forall o: Order | InList(list, o) ensures o.id != d.id {
      var i :| 0 <= i < |list| && IsActive(list[i]) && OrderOf(list[i]) == o;
      assert next[i] == list[i];
    }
  }

  lemma PutHoldsList(b: Book, list: seq<OrderData>, next: seq<OrderData>, b': Book)
    requires next != [] && list == next[..|next| - 1] && DistinctIds(next) && HoldsList(b, list)
    requires var d := next[|next| - 1]; var side := SideOf(d.side);
             && IsActive(d)
             && b' == b.WithQueue(side, Pushed(b.Queue(side), OrderOf(d))).(live := b.live[d.id := OrderOf(d)])
    ensures HoldsList(b', next)
  {
    var x := OrderOf(next[|next| - 1]);
    ListGrows(list, next);
    QueueGrows(b.bids, list, next, Bid, x);
    QueueGrows(b.asks, list, next, Ask, x);
    LiveGrows(b.live, list, next, x);
  }

  lemma QueueGrows(q: seq<Order>, list: seq<OrderData>, next: seq<OrderData>, side: Side, x: Order)
    requires QueueHolds(q, list, side) && !InList(list, x)
    requires forall o: Order :: InList(next, o) <==> InList(list, o) || o == x
    ensures QueueHolds(if x.side == side then Pushed(q, x) else q, next, side)
  {
    if x.side == side { PushedOnce(q, x); }
  }

  lemma LiveGrows(live: map<nat, Order>, list: seq<OrderData>, next: seq<OrderData>, x: Order)
    requires forall o: Order :: (o.id in live && live[o.id] == o) <==> InList(list, o)
    requires forall o: Order :: InList(next, o) <==> InList(list, o) || o == x
    requires forall o: Order :: InList(list, o) ==> o.id != x.id
    ensures forall o: Order :: (o.id in live[x.id := x] && live[x.id := x][o.id] == o) <==> InList(next, o)
  {
  }

  lemma {:induction false} RestoredHoldsList(list: seq<OrderData>)
    requires DistinctIds(list)
    ensures HoldsList(RestoredBook(list), list)
  {
    if list == [] {
      assert forall o: Order :: !InList([], o);
    } else {
      var rest := list[..|list| - 1];
      RestoredHoldsList(rest);
      if IsActive(list[|list| - 1]) {
        PutHoldsList(RestoredBook(rest), rest, list, RestoredBook(list));
      } else {
        forall o: Order ensures InList(list, o) <==> InList(rest, o) {}
      }
    }
  }

  // ---------- one market, saved and loaded ----------

  function SavedOrder(c: Core, o: Order): OrderData { SerializeOrder(o, c.Left(o), c.Status(o)) }

  /** `list` has every order of the book's map once, in whatever order. */
  ghost predicate Lists(list: seq<OrderData>, c: Core) {
    && DistinctIds(list)
    && (forall i :: 0 <= i < |list| ==> list[i].id in c.book.live && list[i] == SavedOrder(c, c.book.live[list[i].id]))
    && (forall id :: id in c.book.live ==> exists i :: 0 <= i < |list| && list[i].id == id)
  }

  lemma LiveIsActive(c: Core, o: Order)
    requires Sound(c) && o.id in c.book.live && c.book.live[o.id] == o
    ensures IsActive(SavedOrder(c, o)) && OrderOf(SavedOrder(c, o)) == o
  {
    LiveIsUncanceled(c, o);
    assert exists side: Side :: o in c.book.Queue(side) && Resting(c, o, side) by {
      if o in c.book.bids { assert Resting(c, o, Bid); } else { assert Resting(c, o, Ask); }
    }
  }

  lemma ListedIsLive(list: seq<OrderData>, c: Core, o: Order)
    requires Sound(c) && Lists(list, c)
    ensures InList(list, o) <==> o.id in c.book.live && c.book.live[o.id] == o
  {
    if InList(list, o) {
      var i :| 0 <= i < |list| && IsActive(list[i]) && OrderOf(list[i]) == o;
      LiveIsActive(c, c.book.live[list[i].id]);
    }
    if o.id in c.book.live && c.book.live[o.id] == o {
      var i :| 0 <= i < |list| && list[i].id == o.id;
      LiveIsActive(c, o);
    }
  }

  lemma LiveRestored(list: seq<OrderData>, c: Core, live: map<nat, Order>)
    requires Sound(c) && forall o: Order :: InList(list, o) <==> o.id in c.book.live && c.book.live[o.id] == o
    requires forall o: Order :: (o.id in live && live[o.id] == o) <==> InList(list, o)
    requires forall id :: id in live ==> live[id].id == id
    ensures live == c.book.live
  {
    forall id | id in live ensures id in c.book.live && c.book.live[id] == live[id] {
      assert InList(list, live[id]);
    }
    forall id | id in c.book.live ensures id in live {
      assert InList(list, c.book.live[id]);
    }
  }

  lemma QueueRestored(list: seq<OrderData>, c: Core, q: seq<Order>, side: Side)
    requires Sound(c) && forall o: Order :: InList(list, o) <==> o.id in c.book.live && c.book.live[o.id] == o
    requires QueueHolds(q, list, side)
    ensures forall o :: o in q <==> o in c.book.Queue(side) && c.Status(o) != Canceled
  {
    forall o ensures o in q <==> o in c.book.Queue(side) && c.Status(o) != Canceled {
      LiveIsUncanceled(c, o);
      assert c.book.Queued(o) <==> o in c.book.Queue(Ask) || o in c.book.Queue(Bid);
    }
  }

  /** The loaded book has the same order map, and heaps of exactly the live orders: the
      canceled orders that stayed in the heaps are gone. */
  lemma BookRestored(list: seq<OrderData>, c: Core)
    requires Sound(c) && Lists(list, c)
    ensures var b := RestoredBook(list);
            && b.live == c.book.live
            && forall side: Side :: IsHeap(b.Queue(side)) && Once(b.Queue(side))
                 && forall o :: o in b.Queue(side) <==> o in c.book.Queue(side) && c.Status(o) != Canceled
  {
    var b := RestoredBook(list);
    RestoredHoldsList(list);
    forall o: Order ensures InList(list, o) <==> o.id in c.book.live && c.book.live[o.id] == o {
      ListedIsLive(list, c, o);
    }
    LiveRestored(list, c, b.live);
    QueueRestored(list, c, b.bids, Bid);
    QueueRestored(list, c, b.asks, Ask);
  }

}
