/** Reading packages off a connection. */
module Streams {
  import opened Options
  import opened Crcs
  import opened LittleEndian
  import opened Frames

  const BLANK := Pkg(0, 0, 0, 0, 0, 0, 0, 0, 0, None)

  datatype Reading = Failed | Got(pkg: Pkg, rest: seq<Byte>)

  /** The bytes handed to `Unpack`, and those left unread. The ext bytes of a frame without
      a body are not read: zeros stand for them. */
  function Collected(s: seq<Byte>): Option<(seq<Byte>, seq<Byte>)> {
    if |s| < HEAD_SIZE then None
    else
      var head := s[..HEAD_SIZE];
      var total := HEAD_SIZE + ExtSizeOf(head) + BodySizeOf(head);
      if BodySizeOf(head) == 0 then Some((head + Zeros(ExtSizeOf(head)), s[HEAD_SIZE..]))
      else if |s| < total then None
      else Some((s[..total], s[total..]))
  }

  function ReadOne(s: seq<Byte>): Reading {
    match Collected(s)
    case None => Failed
    case Some((full, rest)) =>
      var (p, error) := Unpacked(BLANK, full);
      if error.Some? then Failed else Got(p, rest)
  }

  lemma ReadingShrinks(s: seq<Byte>)
    ensures ReadOne(s).Got? ==> |ReadOne(s).rest| < |s|
  {
  }

  /** Everything a connection delivers before its first error. */
  function ReadAll(s: seq<Byte>): seq<Pkg>
    decreases |s|
  {
    ReadingShrinks(s);
    match ReadOne(s)
    case Failed => []
    case Got(p, rest) => [p] + ReadAll(rest)
  }

  // ---------- frames in a row ----------

  function Stream(ps: seq<Pkg>): seq<Byte> {
    if ps == [] then [] else Packed(ps[0]) + Stream(ps[1..])
  }

  predicate Genuine(ps: seq<Pkg>) {
    forall p :: p in ps ==> p.magic == MAGIC
  }

  /** What the far side makes of `p`. */
  function Arrived(p: Pkg): Pkg { Received(BLANK, p) }

  function AllArrived(ps: seq<Pkg>): seq<Pkg> {
    if ps == [] then [] else [Arrived(ps[0])] + AllArrived(ps[1..])
  }

  /** The reader steps over the whole frame. */
  predicate SteppedOver(p: Pkg) {
    p.extSize == 0 || SentBody(p) != []
  }

  /** How many packages come before the reader loses its place. */
  function ReadCount(ps: seq<Pkg>): (n: nat)
    ensures n <= |ps|
  {
    if ps == [] then 0
    else if SteppedOver(ps[0]) then 1 + ReadCount(ps[1..])
    else 1
  }

  lemma HeadOfFrame(p: Pkg, rest: seq<Byte>)
    ensures var s := Packed(p) + rest;
            |s| >= HEAD_SIZE && BodySizeOf(s[..HEAD_SIZE]) == |SentBody(p)| && ExtSizeOf(s[..HEAD_SIZE]) == p.extSize
  {
    PackedFields(BLANK, p);
    PackedParts(p);
    HeadOf(Packed(p), rest);
  }

  lemma HeadOf(d: seq<Byte>, rest: seq<Byte>)
    requires |d| >= HEAD_SIZE
    ensures (d + rest)[..HEAD_SIZE][30..34] == d[30..34] && (d + rest)[..HEAD_SIZE][34..36] == d[34..36]
  {
  }

  lemma FrameCollected(p: Pkg, rest: seq<Byte>)
    ensures Collected(Packed(p) + rest) == Some((Packed(p), if SteppedOver(p) then rest else Zeros(p.extSize) + rest))
  {
    var s, d := Packed(p) + rest, Packed(p);
    HeadOfFrame(p, rest);
    PackedParts(p);
    var head := s[..HEAD_SIZE];
    assert head == d[..HEAD_SIZE];
    if SentBody(p) == [] {
      assert d == d[..HEAD_SIZE] + d[36..36 + p.extSize] + d[36 + p.extSize..];
      assert d == head + Zeros(p.extSize);
      assert s[HEAD_SIZE..] == Zeros(p.extSize) + rest;
      if p.extSize == 0 { assert Zeros(0) + rest == rest; }
    } else {
      assert s[..|d|] == d && s[|d|..] == rest;
    }
  }

  /** A magic number never starts with a zero byte. */
  lemma ZeroIsNoMagic(s: seq<Byte>)
    requires s != [] && s[0] == 0
    ensures ReadOne(s).Failed?
  {
    if |s| >= HEAD_SIZE {
      var four := s[..4];
      assert Get(four) == 256 * Get(four[1..]);
      match Collected(s)
      case None =>
      case Some((full, _)) => assert full[0..4] == four;
    }
  }

  lemma FrameRead(p: Pkg, rest: seq<Byte>)
    requires p.magic == MAGIC
    ensures ReadOne(Packed(p) + rest) == Got(Arrived(p), if SteppedOver(p) then rest else Zeros(p.extSize) + rest)
  {
    FrameCollected(p, rest);
    UnpackPacked(BLANK, p);
  }

  lemma FirstFrame(p: Pkg, rest: seq<Byte>)
    requires p.magic == MAGIC
    ensures ReadAll(Packed(p) + rest) == [Arrived(p)] + if SteppedOver(p) then ReadAll(rest) else []
  {
    FrameRead(p, rest);
    if !SteppedOver(p) { ZeroIsNoMagic(Zeros(p.extSize) + rest); }
  }

  function Delivered(ps: seq<Pkg>): seq<Pkg> {
    if ps == [] then []
    else [Arrived(ps[0])] + if SteppedOver(ps[0]) then Delivered(ps[1..]) else []
  }

  lemma {:induction false} DeliveredIsPrefix(ps: seq<Pkg>)
    ensures Delivered(ps) == AllArrived(ps[..ReadCount(ps)])
  {
    if ps != [] {
      if SteppedOver(ps[0]) {
        DeliveredIsPrefix(ps[1..]);
        assert ps[..ReadCount(ps)][1..] == ps[1..][..ReadCount(ps[1..])];
      } else {
        assert ps[..1] == [ps[0]];
      }
    }
  }

  lemma {:induction false} StreamDelivers(ps: seq<Pkg>)
    requires Genuine(ps)
    ensures ReadAll(Stream(ps)) == Delivered(ps)
  {
    if ps != [] {
      FirstFrame(ps[0], Stream(ps[1..]));
      StreamDelivers(ps[1..]);
    }
  }

  /** Packages written one after another are read back in order, up to and including the
      first one that has ext bytes but no body. */
  lemma StreamRead(ps: seq<Pkg>)
    requires Genuine(ps)
    ensures ReadAll(Stream(ps)) == AllArrived(ps[..ReadCount(ps)])
  {
    StreamDelivers(ps);
    DeliveredIsPrefix(ps);
  }

  lemma {:induction false} CountIsAllIff(ps: seq<Pkg>)
    ensures ReadCount(ps) == |ps| <==> forall i :: 0 <= i < |ps| - 1 ==> SteppedOver(ps[i])
  {
    if |ps| > 1 {
      CountIsAllIff(ps[1..]);
      if ReadCount(ps) == |ps| {
        forall i | 0 <= i < |ps| - 1 ensures SteppedOver(ps[i]) {
          if i > 0 { assert ps[i] == ps[1..][i - 1]; }
        }
      }
    }
  }

  lemma {:induction false} ArrivedLength(ps: seq<Pkg>)
    ensures |AllArrived(ps)| == |ps|
  {
    if ps != [] { ArrivedLength(ps[1..]); }
  }

  /** The reader returns every package exactly when all but the last are stepped over. */
  lemma AllReadIff(ps: seq<Pkg>)
    requires Genuine(ps)
    ensures ReadAll(Stream(ps)) == AllArrived(ps) <==> forall i :: 0 <= i < |ps| - 1 ==> SteppedOver(ps[i])
  {
    StreamRead(ps);
    CountIsAllIff(ps);
    ArrivedLength(ps);
    ArrivedLength(ps[..ReadCount(ps)]);
    if ReadCount(ps) == |ps| { assert ps[..ReadCount(ps)] == ps; }
  }

  // ---------- the connection handler ----------

  class Conn {
    var unread: seq<Byte>

    constructor (bytes: seq<Byte>)
      ensures unread == bytes
    {
      unread := bytes;
    }

    /** `io.ReadFull`: all the bytes asked for, or an error. */
    method ReadFull(n: nat) returns (data: seq<Byte>, ok: bool)
      modifies this
      ensures ok <==> n <= |old(unread)|
      ensures ok ==> data == old(unread)[..n] && unread == old(unread)[n..]
      ensures !ok ==> data == old(unread) && unread == []
    {
      if |unread| < n {
        data, ok, unread := unread, false, [];
      } else {
        data, ok, unread := unread[..n], true, unread[n..];
      }
    }
  }

  /** The first half of `readPkg`: the header, and the rest only where there is a body. */
  method Collect(conn: Conn) returns (fullData: seq<Byte>, ok: bool)
    modifies conn
    ensures ok <==> Collected(old(conn.unread)).Some?
    ensures ok ==> Collected(old(conn.unread)) == Some((fullData, conn.unread))
  {
    var header, read := conn.ReadFull(HEAD_SIZE);
    if !read { return [], false; }
    var bodySize: nat, extSize: nat := BodySizeOf(header), ExtSizeOf(header);
    fullData := header + Zeros(extSize + bodySize);
    ok := true;
    if bodySize > 0 {
      var rest, more := conn.ReadFull(extSize + bodySize);
      if !more { return [], false; }
      fullData := header + rest;
      assert fullData == old(conn.unread)[..HEAD_SIZE + extSize + bodySize];
    }
  }

  method ReadPkg(conn: Conn) returns (pkg: RPCPkg, ok: bool)
    modifies conn
    ensures fresh(pkg)
    ensures ok <==> ReadOne(old(conn.unread)).Got?
    ensures ok ==> ReadOne(old(conn.unread)) == Got(pkg.Value(), conn.unread)
  {
    pkg := new RPCPkg();
    var fullData, read := Collect(conn);
    if !read { return pkg, false; }
    var error := pkg.Unpack(fullData);
    ok := error.None?;
  }

  /** One connection: packages go to `dispatch` until the first error. */
  method HandleConnection(conn: Conn) returns (dispatched: seq<Pkg>)
    modifies conn
    ensures dispatched == ReadAll(old(conn.unread))
  {
    dispatched := [];
    var open := true;
    while open
      invariant dispatched + (if open then ReadAll(conn.unread) else []) == ReadAll(old(conn.unread))
      decreases open, |conn.unread|
    {
      ReadingShrinks(conn.unread);
      var pkg, ok := ReadPkg(conn);
      if ok {
        dispatched := dispatched + [Pkg(pkg.magic, pkg.command, pkg.pkgType, pkg.result, pkg.crc32, pkg.sequence,
                                        pkg.reqId, pkg.bodySize, pkg.extSize, pkg.body)];
      } else {
        open := false;
      }
    }
  }
}
