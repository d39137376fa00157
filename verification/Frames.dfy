/** The RPC package and its frame: a 36-byte header, the ext bytes, the body. */
module Frames {
  import opened Options
  import opened Crcs
  import opened LittleEndian

  const MAGIC: Uint32 := 0x7065_6562
  const HEAD_SIZE := 36
  const CRC_AT := 14

  datatype FrameError = InvalidMagic | InvalidCRC | BufferTooSmall

  /** `body` is absent where the program's slice is nil. */
  datatype Pkg = Pkg(magic: Uint32, command: Uint32, pkgType: Uint16, result: Uint32, crc: bv32,
                     sequence: Uint32, reqId: Uint64, bodySize: Uint32, extSize: Uint16,
                     body: Option<seq<Byte>>)

  function Zeros(n: nat): (s: seq<Byte>)
    ensures |s| == n
  {
    seq(n, _ => 0)
  }

  // ---------- what `Pack` writes ----------

  /** The body size is a 32-bit field, and only that many bytes are copied. */
  function SentBody(p: Pkg): (s: seq<Byte>)
    ensures |s| < 0x1_0000_0000
  {
    match p.body
    case None => Zeros(p.bodySize)
    case Some(b) => b[..|b| % 0x1_0000_0000]
  }

  function Front(p: Pkg): (s: seq<Byte>)
    ensures |s| == CRC_AT
  {
    Put(p.magic, 4) + Put(p.command, 4) + Put(p.pkgType, 2) + Put(p.result, 4)
  }

  function Back(p: Pkg): (s: seq<Byte>)
    ensures |s| == 18
  {
    Put(p.sequence, 4) + Put(p.reqId, 8) + Put(|SentBody(p)|, 4) + Put(p.extSize, 2)
  }

  /** The bytes after the checksum field. */
  function Tail(p: Pkg): seq<Byte> {
    Back(p) + Zeros(p.extSize) + SentBody(p)
  }

  /** The checksum runs from its own field, still zero, to the end. */
  function CrcOver(tail: seq<Byte>): bv32 {
    Checksum(Zeros(4) + tail)
  }

  function Packed(p: Pkg): seq<Byte> {
    Front(p) + PutCrc(CrcOver(Tail(p))) + Tail(p)
  }

  // ---------- what `Unpack` reads ----------

  function MagicOf(data: seq<Byte>): Uint32
    requires |data| >= HEAD_SIZE
  {
    GetUint32(data[0..4])
  }

  function BodySizeOf(data: seq<Byte>): Uint32
    requires |data| >= HEAD_SIZE
  {
    GetUint32(data[30..34])
  }

  function ExtSizeOf(data: seq<Byte>): Uint16
    requires |data| >= HEAD_SIZE
  {
    GetUint16(data[34..36])
  }

  function Fields(p: Pkg, data: seq<Byte>): Pkg
    requires |data| >= HEAD_SIZE
  {
    Pkg(MagicOf(data), GetUint32(data[4..8]), GetUint16(data[8..10]), GetUint32(data[10..14]), Word(data[14..18]),
        GetUint32(data[18..22]), GetUint64(data[22..30]), BodySizeOf(data), ExtSizeOf(data), p.body)
  }

  function Unpacked(p: Pkg, data: seq<Byte>): (Pkg, Option<FrameError>) {
    if |data| < HEAD_SIZE then (p, Some(BufferTooSmall))
    else if MagicOf(data) != MAGIC then (p.(magic := MagicOf(data)), Some(InvalidMagic))
    else WithBody(Fields(p, data), data)
  }

  /** The header has been read into `q`. */
  function WithBody(q: Pkg, data: seq<Byte>): (Pkg, Option<FrameError>)
    requires |data| >= HEAD_SIZE
  {
    var headerSize := HEAD_SIZE + q.extSize;
    if |data| < headerSize + q.bodySize then (q, Some(BufferTooSmall))
    else if CrcOver(data[18..]) != q.crc then (q, Some(InvalidCRC))
    else if q.bodySize > 0 then (q.(body := Some(data[headerSize..headerSize + q.bodySize])), None)
    else (q, None)
  }

  /** No part of the receiver decides whether a frame is accepted. */
  predicate Accepted(data: seq<Byte>) {
    && |data| >= HEAD_SIZE
    && MagicOf(data) == MAGIC
    && |data| >= HEAD_SIZE + ExtSizeOf(data) + BodySizeOf(data)
    && CrcOver(data[18..]) == Word(data[14..18])
  }

  lemma AcceptedMeans(p: Pkg, data: seq<Byte>)
    ensures Unpacked(p, data).1.None? <==> Accepted(data)
  {
  }

  // ---------- a packed frame comes back ----------

  /** What the receiver `q` holds after unpacking the frame of `p`. */
  function Received(q: Pkg, p: Pkg): Pkg {
    p.(crc := CrcOver(Tail(p)), bodySize := |SentBody(p)|,
       body := if SentBody(p) != [] then Some(SentBody(p)) else q.body)
  }

  lemma FrontFields(p: Pkg)
    ensures var d := Front(p);
            GetUint32(d[0..4]) == p.magic && GetUint32(d[4..8]) == p.command
            && GetUint16(d[8..10]) == p.pkgType && GetUint32(d[10..14]) == p.result
  {
    GetPut(p.magic, 4);
    GetPut(p.command, 4);
    GetPut(p.pkgType, 2);
    GetPut(p.result, 4);
    var d := Front(p);
    assert d[0..4] == Put(p.magic, 4);
    assert d[4..8] == Put(p.command, 4);
    assert d[8..10] == Put(p.pkgType, 2);
    assert d[10..14] == Put(p.result, 4);
  }

  lemma BackFields(p: Pkg)
    ensures var d := Back(p);
            GetUint32(d[0..4]) == p.sequence && GetUint64(d[4..12]) == p.reqId
            && GetUint32(d[12..16]) == |SentBody(p)| && GetUint16(d[16..18]) == p.extSize
  {
    GetPut(p.sequence, 4);
    GetPut(p.reqId, 8);
    GetPut(|SentBody(p)|, 4);
    GetPut(p.extSize, 2);
    var d := Back(p);
    assert d[0..4] == Put(p.sequence, 4);
    assert d[4..12] == Put(p.reqId, 8);
    assert d[12..16] == Put(|SentBody(p)|, 4);
    assert d[16..18] == Put(p.extSize, 2);
  }

  lemma PackedParts(p: Pkg)
    ensures var d := Packed(p);
            |d| == HEAD_SIZE + p.extSize + |SentBody(p)|
            && d[..14] == Front(p) && d[14..18] == PutCrc(CrcOver(Tail(p))) && d[18..] == Tail(p)
               && d[18..36] == Back(p)
            && d[36..36 + p.extSize] == Zeros(p.extSize) && d[36 + p.extSize..] == SentBody(p)
  {
    var d := Packed(p);
    assert d[18..] == Tail(p);
    assert d[18..36] == d[18..][..18] == Back(p);
    assert d[36..36 + p.extSize] == d[18..][18..18 + p.extSize];
    assert d[36 + p.extSize..] == d[18..][18 + p.extSize..];
  }

  lemma HeadSlices(d: seq<Byte>)
    requires |d| >= HEAD_SIZE
    ensures d[0..4] == d[..14][0..4] && d[4..8] == d[..14][4..8] && d[8..10] == d[..14][8..10]
        && d[10..14] == d[..14][10..14]
    ensures d[18..22] == d[18..36][0..4] && d[22..30] == d[18..36][4..12] && d[30..34] == d[18..36][12..16]
    ensures d[34..36] == d[18..36][16..18]
  {
  }

  lemma PackedFields(q: Pkg, p: Pkg)
    ensures Fields(q, Packed(p)) == p.(crc := CrcOver(Tail(p)), bodySize := |SentBody(p)|, body := q.body)
  {
    var d := Packed(p);
    PackedParts(p);
    FrontFields(p);
    BackFields(p);
    WordPutCrc(CrcOver(Tail(p)));
    HeadSlices(d);
  }

  lemma UnpackByFields(q: Pkg, data: seq<Byte>, f: Pkg, body: seq<Byte>)
    requires |data| >= HEAD_SIZE && f == Fields(q, data) && f.magic == MAGIC
    requires |data| == HEAD_SIZE + f.extSize + f.bodySize && body == data[HEAD_SIZE + f.extSize..]
    requires CrcOver(data[18..]) == f.crc
    ensures Unpacked(q, data) == (if body != [] then f.(body := Some(body)) else f, None)
  {
    assert data[HEAD_SIZE + f.extSize..|data|] == body;
  }

  lemma UnpackPacked(q: Pkg, p: Pkg)
    requires p.magic == MAGIC
    ensures Unpacked(q, Packed(p)) == (Received(q, p), None)
  {
    PackedParts(p);
    PackedFields(q, p);
    UnpackByFields(q, Packed(p), Fields(q, Packed(p)), SentBody(p));
  }

  // ---------- the bytes of a frame ----------

  /** Where each field of a package stands in its frame; the checksum is that of everything from
      its own field on, with the field zero. */
  lemma Layout(p: Pkg)
    ensures var d := Packed(p);
            && |d| == 36 + p.extSize + |SentBody(p)|
            && Get(d[0..4]) == p.magic && Get(d[4..8]) == p.command && Get(d[8..10]) == p.pkgType
            && Get(d[10..14]) == p.result && Word(d[14..18]) == Checksum([0, 0, 0, 0] + d[18..])
            && Get(d[18..22]) == p.sequence && Get(d[22..30]) == p.reqId
            && Get(d[30..34]) == |SentBody(p)| && Get(d[34..36]) == p.extSize
            && (forall i :: 36 <= i < 36 + p.extSize ==> d[i] == 0) && d[36 + p.extSize..] == SentBody(p)
  {
    var d := Packed(p);
    PackedParts(p);
    PackedFields(p, p);
    LayoutFields(p, d);
    assert Zeros(4) == [0, 0, 0, 0];
    forall i | 36 <= i < 36 + p.extSize ensures d[i] == 0 { assert d[i] == d[36..36 + p.extSize][i - 36]; }
  }

  lemma LayoutFields(p: Pkg, d: seq<Byte>)
    requires |d| >= HEAD_SIZE
    ensures var f := Fields(p, d);
            && Get(d[0..4]) == f.magic && Get(d[4..8]) == f.command && Get(d[8..10]) == f.pkgType
            && Get(d[10..14]) == f.result && Word(d[14..18]) == f.crc && Get(d[18..22]) == f.sequence
            && Get(d[22..30]) == f.reqId && Get(d[30..34]) == f.bodySize && Get(d[34..36]) == f.extSize
  {
  }

  /** A frame is refused for its size, its magic number or its checksum, in this order; a body is
      taken from an accepted one where there is one. */
  lemma UnpackErrors(q: Pkg, data: seq<Byte>)
    ensures var (p, error) := Unpacked(q, data);
            if |data| < 36 then error == Some(BufferTooSmall)
            else if Get(data[0..4]) != 0x7065_6562 then error == Some(InvalidMagic)
            else
              var ext, size := Get(data[34..36]), Get(data[30..34]);
              if |data| < 36 + ext + size then error == Some(BufferTooSmall) && p.body == q.body
              else if Word(data[14..18]) != Checksum([0, 0, 0, 0] + data[18..])
              then error == Some(InvalidCRC) && p.body == q.body
              else error.None? && p.body == if size > 0 then Some(data[36 + ext..36 + ext + size]) else q.body
  {
    if |data| >= HEAD_SIZE {
      var f := Fields(q, data);
      assert f.body == q.body && f.extSize == Get(data[34..36]) && f.bodySize == Get(data[30..34]);
      BodyErrors(f, data);
    }
  }

  lemma BodyErrors(q: Pkg, data: seq<Byte>)
    requires |data| >= HEAD_SIZE
    ensures var (p, error) := WithBody(q, data); var body := HEAD_SIZE + q.extSize;
            if |data| < body + q.bodySize then error == Some(BufferTooSmall) && p.body == q.body
            else if q.crc != Checksum([0, 0, 0, 0] + data[18..]) then error == Some(InvalidCRC) && p.body == q.body
            else error.None? && p.body == if q.bodySize > 0 then Some(data[body..body + q.bodySize]) else q.body
  {
    assert Zeros(4) == [0, 0, 0, 0];
  }

  /** Which bytes the fields are read from; of a frame without the magic number only the first. */
  lemma UnpackFields(q: Pkg, data: seq<Byte>)
    ensures var p := Unpacked(q, data).0;
            if |data| < 36 then p == q
            else if Get(data[0..4]) != 0x7065_6562 then p == q.(magic := p.magic) && p.magic == Get(data[0..4])
            else
              && p.magic == 0x7065_6562 && p.command == Get(data[4..8]) && p.pkgType == Get(data[8..10])
              && p.result == Get(data[10..14]) && p.crc == Word(data[14..18]) && p.sequence == Get(data[18..22])
              && p.reqId == Get(data[22..30]) && p.bodySize == Get(data[30..34]) && p.extSize == Get(data[34..36])
  {
    if |data| >= HEAD_SIZE && MagicOf(data) == MAGIC {
      LayoutFields(q, data);
      BodyOnly(Fields(q, data), data);
    }
  }

  lemma BodyOnly(q: Pkg, data: seq<Byte>)
    requires |data| >= HEAD_SIZE
    ensures WithBody(q, data).0 == q.(body := WithBody(q, data).0.body)
  {
  }

  // ---------- an accepted frame packs again ----------

  /** The header bytes are the header fields, byte for byte. */
  lemma FrontIsFields(q: Pkg, d: seq<Byte>)
    requires |d| >= HEAD_SIZE
    ensures Front(Fields(q, d)) == d[..14]
  {
    PutGet(d[0..4]);
    PutGet(d[4..8]);
    PutGet(d[8..10]);
    PutGet(d[10..14]);
    assert d[..14] == d[0..4] + d[4..8] + d[8..10] + d[10..14];
  }

  lemma BackIsFields(q: Pkg, d: seq<Byte>)
    requires |d| >= HEAD_SIZE
    ensures var f := Fields(q, d);
            Put(f.sequence, 4) + Put(f.reqId, 8) + Put(f.bodySize, 4) + Put(f.extSize, 2) == d[18..36]
  {
    PutGet(d[18..22]);
    PutGet(d[22..30]);
    PutGet(d[30..34]);
    PutGet(d[34..36]);
    assert d[18..36] == d[18..22] + d[22..30] + d[30..34] + d[34..36];
  }

  predicate ExactLength(data: seq<Byte>)
    requires |data| >= HEAD_SIZE
  {
    |data| == HEAD_SIZE + ExtSizeOf(data) + BodySizeOf(data)
  }

  predicate ExtIsZero(data: seq<Byte>)
    requires |data| >= HEAD_SIZE && |data| >= HEAD_SIZE + ExtSizeOf(data)
  {
    data[HEAD_SIZE..HEAD_SIZE + ExtSizeOf(data)] == Zeros(ExtSizeOf(data))
  }

  lemma TakenBody(q: Pkg, data: seq<Byte>)
    requires Accepted(data) && q.body.None?
    ensures var p := Unpacked(q, data).0; var h := HEAD_SIZE + p.extSize;
            p.extSize == ExtSizeOf(data) && SentBody(p) == data[h..h + BodySizeOf(data)]
  {
    AcceptedMeans(q, data);
  }

  lemma TakenHead(q: Pkg, data: seq<Byte>)
    requires Accepted(data) && q.body.None?
    ensures var p := Unpacked(q, data).0; Front(p) == data[..14] && Back(p) == data[18..36]
  {
    AcceptedMeans(q, data);
    TakenBody(q, data);
    FrontIsFields(q, data);
    BackIsFields(q, data);
  }

  lemma FrameParts(data: seq<Byte>, ext: nat)
    requires |data| >= HEAD_SIZE + ext
    ensures data[18..] == data[18..36] + data[36..36 + ext] + data[36 + ext..]
    ensures data == data[..14] + data[14..18] + data[18..]
  {
  }

  lemma RepackExact(q: Pkg, data: seq<Byte>)
    requires Accepted(data) && q.body.None? && ExactLength(data) && ExtIsZero(data)
    ensures Packed(Unpacked(q, data).0) == data
  {
    var p := Unpacked(q, data).0;
    TakenBody(q, data);
    TakenHead(q, data);
    FrameParts(data, p.extSize);
    assert data[36 + p.extSize..] == SentBody(p);
    PutCrcWord(data[14..18]);
  }

  /** Packing what a fresh package took from an accepted frame gives the frame back exactly
      when nothing follows the body and the ext bytes, which `Unpack` drops, are zero. */
  lemma RepackIff(q: Pkg, data: seq<Byte>)
    requires Accepted(data) && q.body.None?
    ensures Packed(Unpacked(q, data).0) == data <==> ExactLength(data) && ExtIsZero(data)
  {
    var p := Unpacked(q, data).0;
    TakenBody(q, data);
    if ExactLength(data) && ExtIsZero(data) { RepackExact(q, data); }
    if Packed(p) == data { PackedParts(p); }
  }

  // ---------- what the checksum catches ----------

  lemma SameSizes(data: seq<Byte>, data': seq<Byte>)
    requires |data| == |data'| >= HEAD_SIZE && data[18..] == data'[18..]
    ensures BodySizeOf(data) == BodySizeOf(data') && ExtSizeOf(data) == ExtSizeOf(data')
  {
    HeadSlices(data);
    HeadSlices(data');
    assert data[18..36] == data[18..][..18] == data'[18..][..18] == data'[18..36];
  }

  lemma BurstBehind(a: seq<Byte>, v: seq<Byte>, w: seq<Byte>, b: seq<Byte>)
    requires Accepted(a + v + b)
    requires |v| == |w| <= 4 && v != w && 18 <= |a|
    ensures !Accepted(a + w + b)
  {
    var d, e := a + v + b, a + w + b;
    assert d[18..] == a[18..] + v + b && e[18..] == a[18..] + w + b;
    assert Zeros(4) + d[18..] == (Zeros(4) + a[18..]) + v + b;
    assert Zeros(4) + e[18..] == (Zeros(4) + a[18..]) + w + b;
    BurstChangesChecksum(Zeros(4) + a[18..], v, w, b);
    assert d[14..18] == a[14..18] == e[14..18];
  }

  lemma MiddleOfField(a: seq<Byte>, v: seq<Byte>, b: seq<Byte>)
    requires 14 <= |a| && |a| + |v| <= 18 <= |a + v + b|
    ensures (a + v + b)[14..18][|a| - 14..|a| + |v| - 14] == v
  {
    var d := a + v + b;
    assert forall i :: 0 <= i < |v| ==> d[14..18][|a| - 14 + i] == v[i];
  }

  lemma BurstInField(a: seq<Byte>, v: seq<Byte>, w: seq<Byte>, b: seq<Byte>)
    requires Accepted(a + v + b)
    requires |v| == |w| <= 4 && v != w && 14 <= |a| && |a| + |v| <= 18
    ensures !Accepted(a + w + b)
  {
    var d, e := a + v + b, a + w + b;
    assert d[18..] == b[18 - |a| - |v|..] == e[18..];
    assert d[14..18] != e[14..18] by {
      MiddleOfField(a, v, b);
      MiddleOfField(a, w, b);
    }
    if Word(d[14..18]) == Word(e[14..18]) { WordInjective(d[14..18], e[14..18]); }
  }

  /** A change to no more than four consecutive bytes, inside the checksum field or after it. */
  lemma BurstCaught(a: seq<Byte>, v: seq<Byte>, w: seq<Byte>, b: seq<Byte>)
    requires Accepted(a + v + b)
    requires |v| == |w| <= 4 && v != w
    requires 18 <= |a| || (14 <= |a| && |a| + |v| <= 18)
    ensures !Accepted(a + w + b)
  {
    if 18 <= |a| { BurstBehind(a, v, w, b); } else { BurstInField(a, v, w, b); }
  }

  /** One wrong byte is caught exactly when it is in the magic number, the checksum or
      anything behind it; a wrong command, type or result goes through. */
  lemma WrongByteCaughtIff(data: seq<Byte>, i: nat, x: Byte)
    requires Accepted(data) && i < |data| && x != data[i]
    ensures Accepted(data[i := x]) <==> 4 <= i < 14
  {
    var bad := data[i := x];
    if 14 <= i {
      assert data == data[..i] + [data[i]] + data[i + 1..];
      assert bad == data[..i] + [x] + data[i + 1..];
      BurstCaught(data[..i], [data[i]], [x], data[i + 1..]);
    } else {
      assert bad[18..] == data[18..] && bad[14..18] == data[14..18];
      SameSizes(data, bad);
      if i < 4 {
        PutGet(data[0..4]);
        PutGet(bad[0..4]);
        assert bad[0..4][i] == x && data[0..4][i] == data[i];
      } else {
        assert bad[0..4] == data[0..4];
      }
    }
  }

  // ---------- the package object ----------

  function Spliced(s: seq<Byte>, at: nat, w: seq<Byte>): seq<Byte>
    requires at + |w| <= |s|
  {
    s[..at] + w + s[at + |w|..]
  }

  lemma FieldThenTail(front: seq<Byte>, field: seq<Byte>, tail: seq<Byte>, crc: seq<Byte>)
    requires |front| == CRC_AT && |field| == 4 == |crc|
    ensures (front + field + tail)[CRC_AT..] == field + tail
    ensures Spliced(front + field + tail, CRC_AT, crc) == front + crc + tail
  {
  }

  /** `copy` into a slice of the buffer. */
  method CopyInto(buf: array<Byte>, at: nat, w: seq<Byte>)
    requires at + |w| <= buf.Length
    modifies buf
    ensures buf[..] == Spliced(old(buf[..]), at, w)
  {
    for i := 0 to |w|
      invariant buf[at..at + i] == w[..i]
      invariant forall k :: 0 <= k < buf.Length && !(at <= k < at + i) ==> buf[k] == old(buf[k])
    {
      buf[at + i] := w[i];
    }
    assert buf[..at] == old(buf[..])[..at] && buf[at + |w|..] == old(buf[..])[at + |w|..];
    assert buf[..] == buf[..at] + buf[at..at + |w|] + buf[at + |w|..];
  }

  /** The next field of a buffer that is zero from there on. */
  method PutField(buf: array<Byte>, at: nat, w: seq<Byte>, ghost pre: seq<Byte>)
    requires |pre| == at && at + |w| <= buf.Length && buf[..] == pre + Zeros(buf.Length - at)
    modifies buf
    ensures buf[..] == pre + w + Zeros(buf.Length - at - |w|)
  {
    CopyInto(buf, at, w);
  }

  lemma FieldsJoin(pre: seq<Byte>, a: seq<Byte>, b: seq<Byte>, c: seq<Byte>, d: seq<Byte>, rest: seq<Byte>)
    ensures pre + a + b + c + d + rest == pre + (a + b + c + d) + rest
  {
  }

  lemma ZerosJoin(pre: seq<Byte>, m: nat, n: nat)
    ensures pre + Zeros(m + n) == pre + Zeros(m) + Zeros(n)
  {
  }

  lemma TailJoins(front: seq<Byte>, back: seq<Byte>, ext: seq<Byte>, body: seq<Byte>)
    ensures (front + back) + ext + body == front + (back + ext + body)
  {
  }

  /** The fields behind the checksum, written after `pre`. */
  method WriteBack(buf: array<Byte>, ghost pre: seq<Byte>, sequence: Uint32, reqId: Uint64, size: Uint32,
                   extSize: Uint16)
    requires buf.Length >= HEAD_SIZE && |pre| == 18 && buf[..] == pre + Zeros(buf.Length - 18)
    modifies buf
    ensures buf[..] == pre + (Put(sequence, 4) + Put(reqId, 8) + Put(size, 4) + Put(extSize, 2))
                       + Zeros(buf.Length - HEAD_SIZE)
  {
    PutField(buf, 18, Put(sequence, 4), pre);
    PutField(buf, 22, Put(reqId, 8), pre + Put(sequence, 4));
    PutField(buf, 30, Put(size, 4), pre + Put(sequence, 4) + Put(reqId, 8));
    PutField(buf, 34, Put(extSize, 2), pre + Put(sequence, 4) + Put(reqId, 8) + Put(size, 4));
    FieldsJoin(pre, Put(sequence, 4), Put(reqId, 8), Put(size, 4), Put(extSize, 2), Zeros(buf.Length - HEAD_SIZE));
  }

  class RPCPkg {
    var magic: Uint32
    var command: Uint32
    var pkgType: Uint16
    var result: Uint32
    var crc32: bv32
    var sequence: Uint32
    var reqId: Uint64
    var bodySize: Uint32
    var extSize: Uint16
    var body: Option<seq<Byte>>

    ghost function Value(): Pkg
      reads this
    {
      Pkg(magic, command, pkgType, result, crc32, sequence, reqId, bodySize, extSize, body)
    }

    constructor ()
      ensures Value() == Pkg(0, 0, 0, 0, 0, 0, 0, 0, 0, None)
    {
      magic, command, pkgType, result, crc32 := 0, 0, 0, 0, 0;
      sequence, reqId, bodySize, extSize, body := 0, 0, 0, 0, None;
    }

    method Pack() returns (buf: array<Byte>)
      ensures fresh(buf) && buf[..] == Packed(Value())
    {
      var size: Uint32 := bodySize;
      if body.Some? { size := |body.value| % 0x1_0000_0000; }
      var headerSize := HEAD_SIZE + extSize;
      var totalSize := headerSize + size;
      buf := new Byte[totalSize](_ => 0);
      assert buf[..] == Zeros(totalSize) == [] + Zeros(totalSize);
      WriteFront(buf);
      assert Front(Value()) + Zeros(totalSize - 14) == (Front(Value()) + Zeros(4)) + Zeros(totalSize - 18);
      WriteBack(buf, Front(Value()) + Zeros(4), sequence, reqId, size, extSize);
      WriteBody(buf, size);
      WriteCrc(buf);
    }

    method WriteCrc(buf: array<Byte>)
      requires buf[..] == Front(Value()) + Zeros(4) + Tail(Value())
      modifies buf
      ensures buf[..] == Packed(Value())
    {
      ghost var p := Value();
      FieldThenTail(Front(p), Zeros(4), Tail(p), PutCrc(CrcOver(Tail(p))));
      assert buf[CRC_AT..] == buf[..][CRC_AT..];
      var crc := Checksum(buf[CRC_AT..]);
      CopyInto(buf, CRC_AT, PutCrc(crc));
    }

    method WriteBody(buf: array<Byte>, size: Uint32)
      requires size == |SentBody(Value())| && buf.Length == HEAD_SIZE + extSize + size
      requires buf[..] == Front(Value()) + Zeros(4) + Back(Value()) + Zeros(buf.Length - HEAD_SIZE)
      modifies buf
      ensures buf[..] == Front(Value()) + Zeros(4) + Tail(Value())
    {
      ghost var head := Front(Value()) + Zeros(4) + Back(Value());
      ZerosJoin(head, extSize, size);
      if body.Some? {
        PutField(buf, HEAD_SIZE + extSize, body.value[..size], head + Zeros(extSize));
      }
      TailJoins(Front(Value()) + Zeros(4), Back(Value()), Zeros(extSize), SentBody(Value()));
    }

    method WriteFront(buf: array<Byte>)
      requires buf.Length >= HEAD_SIZE && buf[..] == Zeros(buf.Length)
      modifies buf
      ensures buf[..] == Front(Value()) + Zeros(buf.Length - 14)
    {
      assert [] + Zeros(buf.Length) == Zeros(buf.Length) && [] + Put(magic, 4) == Put(magic, 4);
      PutField(buf, 0, Put(magic, 4), []);
      PutField(buf, 4, Put(command, 4), Put(magic, 4));
      PutField(buf, 8, Put(pkgType, 2), Put(magic, 4) + Put(command, 4));
      PutField(buf, 10, Put(result, 4), Put(magic, 4) + Put(command, 4) + Put(pkgType, 2));
    }

    method Unpack(data: seq<Byte>) returns (error: Option<FrameError>)
      modifies this
      ensures (Value(), error) == Unpacked(old(Value()), data)
    {
      if |data| < HEAD_SIZE { return Some(BufferTooSmall); }
      magic := GetUint32(data[0..4]);
      if magic != MAGIC { return Some(InvalidMagic); }
      ReadFields(data);
      error := ReadBody(data);
    }

    method ReadBody(data: seq<Byte>) returns (error: Option<FrameError>)
      requires |data| >= HEAD_SIZE
      modifies this`body
      ensures (Value(), error) == WithBody(old(Value()), data)
    {
      var headerSize := HEAD_SIZE + extSize;
      if |data| < headerSize + bodySize { return Some(BufferTooSmall); }
      var crcData := Zeros(4) + data[CRC_AT..][4..];
      assert crcData == Zeros(4) + data[18..];
      if Checksum(crcData) != crc32 { return Some(InvalidCRC); }
      if bodySize > 0 { body := Some(data[headerSize..headerSize + bodySize]); }
      return None;
    }

    method ReadFields(data: seq<Byte>)
      requires |data| >= HEAD_SIZE && magic == MagicOf(data)
      modifies this
      ensures Value() == Fields(old(Value()), data)
    {
      command := GetUint32(data[4..8]);
      pkgType := GetUint16(data[8..10]);
      result := GetUint32(data[10..14]);
      crc32 := Word(data[14..18]);
      sequence := GetUint32(data[18..22]);
      reqId := GetUint64(data[22..30]);
      bodySize := GetUint32(data[30..34]);
      extSize := GetUint16(data[34..36]);
    }
  }
}
