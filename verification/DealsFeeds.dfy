/** The deals feed: a market's window of deals, the polls that read it, and the buffer that
    drops what it has seen. */
module DealsFeeds {

  datatype Deal = Deal(id: int, time: real, kind: string, amount: string, price: string)

  const WINDOW := 100

  // ---------- sequences of deals ----------

  function Suffix(s: seq<Deal>, n: nat): (r: seq<Deal>)
    ensures |r| <= n && |r| <= |s|
  {
    if |s| <= n then s else s[|s| - n..]
  }

  /** The deals with a greater ID, in the same order. */
  function After(s: seq<Deal>, id: int): seq<Deal> {
    if s == [] then []
    else if s[|s| - 1].id > id then After(s[..|s| - 1], id) + [s[|s| - 1]]
    else After(s[..|s| - 1], id)
  }

  predicate Ascending(s: seq<Deal>) {
    forall i, j :: 0 <= i < j < |s| ==> s[i].id < s[j].id
  }

  /** In an ascending sequence the later deals are exactly those behind the ID. */
  lemma {:induction false} AfterIsTail(s: seq<Deal>, id: int, k: nat)
    requires Ascending(s) && k <= |s|
    requires forall i :: 0 <= i < |s| ==> (s[i].id > id <==> i >= k)
    ensures After(s, id) == s[k..]
  {
    if s != [] {
      var n := |s| - 1;
      if k <= n {
        AfterIsTail(s[..n], id, k);
        assert s[k..] == s[..n][k..] + [s[n]];
      } else {
        AfterIsTail(s[..n], id, n);
      }
    }
  }

  lemma SuffixOfSuffix(s: seq<Deal>, d: Deal, n: nat)
    ensures Suffix(Suffix(s, n) + [d], n) == Suffix(s + [d], n)
  {
  }

  // ---------- the market's side ----------

  /** `getDealsAfterID`: the newest `limit` of the deals behind `lastId`, oldest first. */
  function DealsAfter(deals: seq<Deal>, lastId: int, limit: int): seq<Deal> {
    Suffix(After(deals, lastId), if limit < 0 then 0 else limit)
  }

  class MarketInfo {
    var deals: seq<Deal>
    var lastPrice: string
    var updateTime: real

    constructor ()
      ensures deals == []
    {
      deals, lastPrice, updateTime := [], "0", 0.0;
    }

    method AddDeal(deal: Deal)
      modifies this
      ensures deals == Suffix(old(deals) + [deal], WINDOW)
      ensures deals == (if |old(deals)| < 100 then old(deals) else old(deals)[|old(deals)| - 99..]) + [deal]
      ensures lastPrice == deal.price && updateTime == deal.time
    {
      deals := deals + [deal];
      if |deals| > WINDOW { deals := deals[|deals| - WINDOW..]; }
      lastPrice, updateTime := deal.price, deal.time;
    }

    method GetDealsAfterID(lastId: int, limit: int) returns (result: seq<Deal>)
      ensures result == DealsAfter(deals, lastId, limit)
    {
      var found := ScanBack(lastId, limit);
      result := Reverse(found);
    }

    /** The scan goes backwards, so it finds the newest first. */
    method ScanBack(lastId: int, limit: int) returns (result: seq<Deal>)
      ensures Reversed(result) == DealsAfter(deals, lastId, limit)
    {
      result := [];
      var i := |deals| - 1;
      ghost var room: nat := if limit < 0 then 0 else limit;
      ghost var goal := DealsAfter(deals, lastId, limit);
      assert deals[..i + 1] == deals;
      while i >= 0 && |result| < limit
        invariant -1 <= i < |deals|
        invariant limit >= 0 ==> room == limit - |result|
        invariant limit < 0 ==> room == 0
        invariant goal == Scanned(deals[..i + 1], lastId, room, result)
      {
        ScanStep(deals, i, lastId, room, result);
        if deals[i].id > lastId {
          result := result + [deals[i]];
          room := room - 1;
        }
        i := i - 1;
      }
      ScanDone(deals[..i + 1], lastId, room, result);
    }
  }

  lemma ScanDone(s: seq<Deal>, lastId: int, room: nat, result: seq<Deal>)
    requires s == [] || room == 0
    ensures Scanned(s, lastId, room, result) == Reversed(result)
  {
    assert [] + Reversed(result) == Reversed(result);
  }

  /** What the scan will have found, `s` and `room` being left and `result` found. */
  function Scanned(s: seq<Deal>, lastId: int, room: nat, result: seq<Deal>): seq<Deal> {
    Suffix(After(s, lastId), room) + Reversed(result)
  }

  lemma ScanStep(s: seq<Deal>, i: nat, lastId: int, room: nat, result: seq<Deal>)
    requires i < |s| && room > 0
    ensures Scanned(s[..i + 1], lastId, room, result)
         == if s[i].id > lastId then Scanned(s[..i], lastId, room - 1, result + [s[i]])
            else Scanned(s[..i], lastId, room, result)
  {
    var d, front := s[i], After(s[..i], lastId);
    assert s[..i + 1][..i] == s[..i];
    if d.id > lastId {
      SuffixSnoc(front, d, room);
      ReversedGrows(result, d);
      assert After(s[..i + 1], lastId) == front + [d];
      assert Suffix(front, room - 1) + [d] + Reversed(result) == Suffix(front, room - 1) + ([d] + Reversed(result));
    }
  }

  lemma SuffixSnoc(s: seq<Deal>, d: Deal, n: nat)
    requires n > 0
    ensures Suffix(s + [d], n) == Suffix(s, n - 1) + [d]
  {
  }

  function Reversed(s: seq<Deal>): (r: seq<Deal>)
    ensures |r| == |s| && forall k :: 0 <= k < |s| ==> r[k] == s[|s| - 1 - k]
  {
    seq(|s|, k requires 0 <= k < |s| => s[|s| - 1 - k])
  }

  lemma ReversedGrows(s: seq<Deal>, d: Deal)
    ensures Reversed(s + [d]) == [d] + Reversed(s)
  {
  }

  /** The in-place reversal at the end of the scan. */
  method Reverse(s: seq<Deal>) returns (r: seq<Deal>)
    ensures r == Reversed(s)
  {
    r := s;
    var i, j := 0, |r| - 1;
    while i < j
      invariant 0 <= i <= j + 1 && i + j == |s| - 1 && |r| == |s|
      invariant forall k :: 0 <= k < i ==> r[k] == s[|s| - 1 - k] && r[|s| - 1 - k] == s[k]
      invariant forall k :: i <= k <= j ==> r[k] == s[k]
      decreases j - i
    {
      var a, b := r[i], r[j];
      r := r[i := b][j := a];
      i, j := i + 1, j - 1;
    }
    forall k | 0 <= k < |s| ensures r[k] == s[|s| - 1 - k] {
      if k > j { assert r[|s| - 1 - (|s| - 1 - k)] == s[|s| - 1 - k]; }
    }
  }

  // ---------- the buffer ----------

  datatype Buffer = Buffer(records: seq<Deal>, lastId: int, maxSize: nat)

  function Added(b: Buffer, deal: Deal): Buffer {
    if deal.id <= b.lastId then b
    else Buffer(Suffix(b.records + [deal], b.maxSize), deal.id, b.maxSize)
  }

  function AllAdded(b: Buffer, deals: seq<Deal>): Buffer {
    if deals == [] then b else Added(AllAdded(b, deals[..|deals| - 1]), deals[|deals| - 1])
  }

  /** The deals offered that the buffer takes. */
  function Accepted(lastId: int, deals: seq<Deal>): (r: seq<Deal>)
    ensures Ascending(r) && forall d :: d in r ==> d.id > lastId
  {
    if deals == [] then []
    else
      var taken := Accepted(lastId, deals[..|deals| - 1]);
      var d := deals[|deals| - 1];
      if d.id > NewestId(lastId, taken) then taken + [d] else taken
  }

  function NewestId(lastId: int, taken: seq<Deal>): int {
    if taken == [] then lastId else taken[|taken| - 1].id
  }

  /** The buffer is the last `maxSize` deals it has taken, and knows the newest of them. */
  lemma {:induction false} BufferHoldsNewest(maxSize: nat, deals: seq<Deal>)
    ensures var taken := Accepted(0, deals);
            AllAdded(Buffer([], 0, maxSize), deals) == Buffer(Suffix(taken, maxSize), NewestId(0, taken), maxSize)
  {
    if deals != [] {
      var rest, d := deals[..|deals| - 1], deals[|deals| - 1];
      BufferHoldsNewest(maxSize, rest);
      SuffixOfSuffix(Accepted(0, rest), d, maxSize);
    }
  }

  lemma {:induction false} AfterOnlyGreater(s: seq<Deal>, id: int)
    ensures forall d :: d in After(s, id) <==> d in s && d.id > id
  {
    if s != [] { AfterOnlyGreater(s[..|s| - 1], id); }
  }

  /** Only what is not behind the ID was cut off. */
  lemma AfterOfTail(s: seq<Deal>, id: int, cut: nat)
    requires Ascending(s) && cut <= |s| && (cut > 0 ==> s[cut - 1].id <= id)
    ensures After(s[cut..], id) == After(s, id)
  {
    var k := FirstAfter(s, id);
    AfterIsTail(s, id, k);
    AfterIsTail(s[cut..], id, k - cut);
    assert s[cut..][k - cut..] == s[k..];
  }

  lemma DroppedIsMissed(s: seq<Deal>, id: int, cut: nat)
    requires Ascending(s) && 0 < cut <= |s| && s[cut - 1].id > id
    ensures After(s[cut..], id) != After(s, id)
  {
    AfterOnlyGreater(s, id);
    AfterOnlyGreater(s[cut..], id);
    assert s[cut - 1] in After(s, id);
    assert s[cut - 1] !in s[cut..];
  }

  /** Asking the buffer for what came after `sinceId` misses nothing exactly when `sinceId`
      is not before the newest deal that was dropped. */
  lemma SinceIsCompleteIff(taken: seq<Deal>, maxSize: nat, sinceId: int)
    requires Ascending(taken)
    ensures After(Suffix(taken, maxSize), sinceId) == After(taken, sinceId)
            <==> |taken| <= maxSize || sinceId >= taken[|taken| - maxSize - 1].id
  {
    if |taken| > maxSize {
      var cut := |taken| - maxSize;
      if sinceId >= taken[cut - 1].id {
        AfterOfTail(taken, sinceId, cut);
      } else {
        DroppedIsMissed(taken, sinceId, cut);
      }
    }
  }

  lemma {:induction false} FirstAfter(s: seq<Deal>, id: int) returns (k: nat)
    requires Ascending(s)
    ensures k <= |s| && forall i :: 0 <= i < |s| ==> (s[i].id > id <==> i >= k)
  {
    if s == [] || s[|s| - 1].id <= id {
      k := |s|;
    } else {
      k := FirstAfter(s[..|s| - 1], id);
    }
  }

  class DealsBuffer {
    var records: seq<Deal>
    var lastId: int
    const maxSize: nat

    ghost function Value(): Buffer
      reads this
    {
      Buffer(records, lastId, maxSize)
    }

    constructor (maxSize: nat)
      ensures Value() == Buffer([], 0, maxSize)
    {
      records, lastId := [], 0;
      this.maxSize := maxSize;
    }

    method Add(deal: Deal)
      modifies this
      ensures Value() == Added(old(Value()), deal)
    {
      if deal.id <= lastId { return; }
      records := records + [deal];
      lastId := deal.id;
      if |records| > maxSize { records := records[|records| - maxSize..]; }
    }

    method GetSince(sinceId: int) returns (result: seq<Deal>)
      ensures result == After(records, sinceId)
    {
      result := [];
      for i := 0 to |records|
        invariant result == After(records[..i], sinceId)
      {
        assert records[..i + 1][..i] == records[..i];
        if records[i].id > sinceId { result := result + [records[i]]; }
      }
      assert records[..|records|] == records;
    }
  }

  // ---------- polling, over whole runs ----------

  datatype Event = Trade(deal: Deal) | Poll | PollFails
  datatype State = State(window: seq<Deal>, buffer: Buffer, sent: seq<Deal>)

  function Start(maxSize: nat): State { State([], Buffer([], 0, maxSize), []) }

  /** One poll of one market: what it reads goes into the buffer and to the subscribers. */
  function Polled(s: State): State {
    var deals := DealsAfter(s.window, s.buffer.lastId, WINDOW);
    State(s.window, AllAdded(s.buffer, deals), s.sent + After(deals, s.buffer.lastId))
  }

  function Step(s: State, e: Event): State {
    match e
    case Trade(d) => s.(window := Suffix(s.window + [d], WINDOW))
    case Poll => Polled(s)
    case PollFails => s
  }

  function Run(s: State, events: seq<Event>): State {
    if events == [] then s else Step(Run(s, events[..|events| - 1]), events[|events| - 1])
  }

  function Trades(events: seq<Event>): seq<Deal> {
    if events == [] then []
    else
      var rest := Trades(events[..|events| - 1]);
      match events[|events| - 1] case Trade(d) => rest + [d] case _ => rest
  }

  /** How many deals there were at the last poll that was answered. */
  function KnownAtPoll(events: seq<Event>): (n: nat)
    ensures n <= |Trades(events)|
  {
    if events == [] then 0
    else if events[|events| - 1].Poll? then |Trades(events)|
    else KnownAtPoll(events[..|events| - 1])
  }

  /** The simple form: each answered poll sends the newest hundred deals since the last one. */
  function Broadcast(events: seq<Event>): seq<Deal> {
    if events == [] then []
    else
      var rest := events[..|events| - 1];
      if events[|events| - 1].Poll? then Broadcast(rest) + Suffix(Trades(rest)[KnownAtPoll(rest)..], WINDOW)
      else Broadcast(rest)
  }

  /** The deals that were gone from the window when the first poll found any. */
  function Before(events: seq<Event>): (n: nat)
    ensures n <= KnownAtPoll(events)
  {
    if events == [] then 0
    else
      var rest := events[..|events| - 1];
      if events[|events| - 1].Poll? && KnownAtPoll(rest) == 0
      then if |Trades(rest)| > WINDOW then |Trades(rest)| - WINDOW else 0
      else Before(rest)
  }

  /** After the first poll that found deals, no more than a hundred came between two polls. */
  predicate InTime(events: seq<Event>) {
    events == [] ||
    var rest := events[..|events| - 1];
    && InTime(rest)
    && (events[|events| - 1].Poll? && KnownAtPoll(rest) > 0 ==> |Trades(rest)| - KnownAtPoll(rest) <= WINDOW)
  }

  predicate GoodIds(events: seq<Event>) {
    Ascending(Trades(events)) && forall d :: d in Trades(events) ==> d.id > 0
  }

  lemma {:induction false} AllTaken(b: Buffer, deals: seq<Deal>)
    requires Ascending(deals) && forall d :: d in deals ==> d.id > b.lastId
    ensures AllAdded(b, deals).lastId == NewestId(b.lastId, deals) && AllAdded(b, deals).maxSize == b.maxSize
  {
    if deals != [] { AllTaken(b, deals[..|deals| - 1]); }
  }

  lemma {:induction false} AllTakenRecords(sent: seq<Deal>, b: Buffer, deals: seq<Deal>)
    requires Ascending(deals) && forall d :: d in deals ==> d.id > b.lastId
    requires b.records == Suffix(sent, b.maxSize)
    ensures AllAdded(b, deals).records == Suffix(sent + deals, b.maxSize)
  {
    if deals == [] {
      assert sent + deals == sent;
    } else {
      var rest, d := deals[..|deals| - 1], deals[|deals| - 1];
      AllTakenRecords(sent, b, rest);
      AllTaken(b, rest);
      SuffixOfSuffix(sent + rest, d, b.maxSize);
      assert sent + rest + [d] == sent + deals;
    }
  }

  lemma GoodIdsBefore(events: seq<Event>)
    requires events != [] && GoodIds(events)
    ensures GoodIds(events[..|events| - 1])
  {
    var rest := Trades(events[..|events| - 1]);
    assert forall i :: 0 <= i < |rest| ==> rest[i] == Trades(events)[i];
  }

  /** What a poll reads from the window is what it would read from the whole history. */
  lemma PollReads(all: seq<Deal>, known: nat, lastId: int)
    requires Ascending(all) && known <= |all|
    requires forall i :: 0 <= i < |all| ==> (all[i].id > lastId <==> i >= known)
    ensures DealsAfter(Suffix(all, WINDOW), lastId, WINDOW) == Suffix(all[known..], WINDOW)
  {
    var cut := |all| - |Suffix(all, WINDOW)|;
    var window := all[cut..];
    assert window == Suffix(all, WINDOW);
    var k: nat := if known > cut then known - cut else 0;
    WindowTail(all, cut, known, lastId);
    assert window[k..] == all[cut + k..];
  }

  lemma WindowTail(all: seq<Deal>, cut: nat, known: nat, lastId: int)
    requires Ascending(all) && known <= |all| && cut <= |all|
    requires forall i :: 0 <= i < |all| ==> (all[i].id > lastId <==> i >= known)
    ensures After(all[cut..], lastId) == all[cut..][if known > cut then known - cut else 0..]
  {
    AfterIsTail(all[cut..], lastId, if known > cut then known - cut else 0);
  }

  lemma {:induction false} AllAfter(deals: seq<Deal>, lastId: int)
    requires forall d :: d in deals ==> d.id > lastId
    ensures After(deals, lastId) == deals
  {
    if deals != [] { AllAfter(deals[..|deals| - 1], lastId); }
  }

  /** The run sends what the simple form says, and the buffer holds the end of it. */
  lemma {:induction false} RunBroadcasts(maxSize: nat, events: seq<Event>)
    requires GoodIds(events)
    ensures var s := Run(Start(maxSize), events); var known := KnownAtPoll(events);
            && s.window == Suffix(Trades(events), WINDOW)
            && s.sent == Broadcast(events)
            && s.buffer == Buffer(Suffix(s.sent, maxSize), NewestId(0, Trades(events)[..known]), maxSize)
  {
    if events != [] {
      var rest, e := events[..|events| - 1], events[|events| - 1];
      GoodIdsBefore(events);
      RunBroadcasts(maxSize, rest);
      match e
      case Trade(d) =>
        SuffixOfSuffix(Trades(rest), d, WINDOW);
        assert Trades(events)[..KnownAtPoll(rest)] == Trades(rest)[..KnownAtPoll(rest)];
      case Poll => PollBroadcasts(Run(Start(maxSize), rest), Trades(rest), KnownAtPoll(rest));
      case PollFails =>
    }
  }

  lemma KnownSplits(all: seq<Deal>, known: nat)
    requires Ascending(all) && (forall d :: d in all ==> d.id > 0) && known <= |all|
    ensures forall i :: 0 <= i < |all| ==> (all[i].id > NewestId(0, all[..known]) <==> i >= known)
  {
    assert forall i :: 0 <= i < |all| ==> all[i] in all;
  }

  lemma BehindKnown(all: seq<Deal>, known: nat, lastId: int)
    requires Ascending(all) && known <= |all| && forall i :: 0 <= i < |all| ==> (all[i].id > lastId <==> i >= known)
    ensures var deals := Suffix(all[known..], WINDOW);
            && Ascending(deals) && (forall d :: d in deals ==> d.id > lastId)
            && NewestId(lastId, deals) == if known == |all| then lastId else all[|all| - 1].id
  {
    var deals := Suffix(all[known..], WINDOW);
    var cut := |all| - |deals|;
    assert deals == all[cut..];
  }

  lemma PollBroadcasts(s: State, all: seq<Deal>, known: nat)
    requires Ascending(all) && (forall d :: d in all ==> d.id > 0) && known <= |all|
    requires s.window == Suffix(all, WINDOW)
    requires s.buffer == Buffer(Suffix(s.sent, s.buffer.maxSize), NewestId(0, all[..known]), s.buffer.maxSize)
    ensures var sent := s.sent + Suffix(all[known..], WINDOW);
            Polled(s)
            == State(s.window, Buffer(Suffix(sent, s.buffer.maxSize), NewestId(0, all), s.buffer.maxSize), sent)
  {
    var deals := Suffix(all[known..], WINDOW);
    KnownSplits(all, known);
    PollReads(all, known, s.buffer.lastId);
    BehindKnown(all, known, s.buffer.lastId);
    AllAfter(deals, s.buffer.lastId);
    AllTaken(s.buffer, deals);
    AllTakenRecords(s.sent, s.buffer, deals);
  }

  /** Every deal that is sent is sent once and in order. */
  lemma {:induction false} SentOnceInOrder(events: seq<Event>)
    requires GoodIds(events)
    ensures Ascending(Broadcast(events))
    ensures forall d :: d in Broadcast(events) ==> d in Trades(events)[..KnownAtPoll(events)]
  {
    if events != [] {
      var rest := events[..|events| - 1];
      GoodIdsBefore(events);
      SentOnceInOrder(rest);
      if events[|events| - 1].Poll? {
        SentNext(Broadcast(rest), Trades(rest), KnownAtPoll(rest));
      } else {
        assert Trades(events)[..KnownAtPoll(rest)] == Trades(rest)[..KnownAtPoll(rest)];
      }
    }
  }

  lemma SentNext(sent: seq<Deal>, all: seq<Deal>, known: nat)
    requires Ascending(all) && Ascending(sent) && known <= |all|
    requires forall d :: d in sent ==> d in all[..known]
    ensures var next := sent + Suffix(all[known..], WINDOW); Ascending(next) && forall d :: d in next ==> d in all
  {
    var tail := Suffix(all[known..], WINDOW);
    var cut := |all| - |tail|;
    assert tail == all[cut..];
    forall i, j | 0 <= i < |sent| && 0 <= j < |tail|
      ensures sent[i].id < tail[j].id
    {
      assert sent[i] in all[..known];
      assert tail[j] == all[cut + j];
    }
  }

  /** Of the deals from `before` to `known`, `sent` is missing none exactly when `ok`. */
  predicate MissesNoneIff(sent: seq<Deal>, all: seq<Deal>, before: nat, known: nat, ok: bool) {
    && before <= known <= |all| && |sent| <= known - before
    && (sent == all[before..known] <==> ok)
    && (|sent| == known - before <==> ok)
  }

  lemma NextPoll(sent: seq<Deal>, all: seq<Deal>, before: nat, known: nat, ok: bool)
    requires MissesNoneIff(sent, all, before, known, ok) && (known == 0 ==> sent == [])
    ensures var cut: nat := if known == 0 then |all| - |Suffix(all, WINDOW)| else before;
            MissesNoneIff(sent + Suffix(all[known..], WINDOW), all, cut, |all|,
                          ok && (known > 0 ==> |all| - known <= WINDOW))
  {
    if known > 0 && |all| - known <= WINDOW && ok {
      assert all[before..] == all[before..known] + all[known..];
    }
    if known == 0 { assert all[0..] == all; }
  }

  lemma NextTrade(sent: seq<Deal>, all: seq<Deal>, d: Deal, before: nat, known: nat, ok: bool)
    requires MissesNoneIff(sent, all, before, known, ok)
    ensures MissesNoneIff(sent, all + [d], before, known, ok)
  {
    assert (all + [d])[before..known] == all[before..known];
  }

  lemma {:induction false} NothingLost(events: seq<Event>)
    ensures MissesNoneIff(Broadcast(events), Trades(events), Before(events), KnownAtPoll(events), InTime(events))
    ensures KnownAtPoll(events) == 0 ==> Broadcast(events) == []
  {
    if events != [] {
      var rest, e := events[..|events| - 1], events[|events| - 1];
      NothingLost(rest);
      if e.Poll? {
        NextPoll(Broadcast(rest), Trades(rest), Before(rest), KnownAtPoll(rest), InTime(rest));
      } else if e.Trade? {
        NextTrade(Broadcast(rest), Trades(rest), e.deal, Before(rest), KnownAtPoll(rest), InTime(rest));
      }
    }
  }

  /** Nothing is lost from the first window on exactly when the polls come in time. */
  lemma NothingLostIff(events: seq<Event>)
    ensures Broadcast(events) == Trades(events)[Before(events)..KnownAtPoll(events)] <==> InTime(events)
  {
    NothingLost(events);
  }

  method PollDeals(info: MarketInfo, buffer: DealsBuffer) returns (broadcast: seq<Deal>)
    modifies buffer
    ensures forall sent ::
              Polled(State(info.deals, old(buffer.Value()), sent))
                == State(info.deals, buffer.Value(), sent + broadcast)
  {
    var lastId := buffer.lastId;
    var deals := info.GetDealsAfterID(lastId, WINDOW);
    broadcast := [];
    if |deals| == 0 { return; }
    for i := 0 to |deals|
      invariant buffer.Value() == AllAdded(old(buffer.Value()), deals[..i])
    {
      assert deals[..i + 1][..i] == deals[..i];
      buffer.Add(deals[i]);
    }
    assert deals[..|deals|] == deals;
    for i := 0 to |deals|
      invariant broadcast == After(deals[..i], lastId)
    {
      assert deals[..i + 1][..i] == deals[..i];
      if deals[i].id > lastId { broadcast := broadcast + [deals[i]]; }
    }
  }
}
