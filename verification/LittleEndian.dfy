/** Unsigned integers in little-endian order, as `binary.LittleEndian` reads and writes them. */
module LittleEndian {
  import opened Crcs

  type Uint16 = n: nat | n < 0x1_0000
  type Uint32 = n: nat | n < 0x1_0000_0000
  type Uint64 = n: nat | n < 0x1_0000_0000_0000_0000

  function ByteOf(n: nat): Byte
    requires n < 256
  {
    n as Byte
  }

  function ValueOf(b: Byte): (n: nat)
    ensures n < 256
  {
    b as int
  }

  function Put(n: nat, width: nat): (s: seq<Byte>)
    ensures |s| == width
  {
    if width == 0 then [] else [ByteOf(n % 256)] + Put(n / 256, width - 1)
  }

  function Get(s: seq<Byte>): nat {
    if s == [] then 0 else ValueOf(s[0]) + 256 * Get(s[1..])
  }

  function Limit(width: nat): nat {
    if width == 0 then 1 else 256 * Limit(width - 1)
  }

  lemma {:induction false} SomeByte(n: nat) returns (b: Byte)
    requires n < 256
    ensures ValueOf(b) == n
  {
    if n == 0 {
      b := 0;
    } else {
      b := SomeByte(n - 1);
      b := b + 1;
    }
  }

  lemma ByteThroughInt(n: nat)
    requires n < 256
    ensures ValueOf(ByteOf(n)) == n
  {
    var _ := SomeByte(n);
  }

  lemma {:induction false} GetPut(n: nat, width: nat)
    requires n < Limit(width)
    ensures Get(Put(n, width)) == n
  {
    if width > 0 {
      ByteThroughInt(n % 256);
      GetPut(n / 256, width - 1);
    }
  }

  lemma PutDigits(low: nat, high: nat, width: nat)
    requires low < 256
    ensures Put(low + 256 * high, width + 1) == [ByteOf(low)] + Put(high, width)
  {
    assert (low + 256 * high) % 256 == low && (low + 256 * high) / 256 == high;
  }

  lemma {:induction false} PutGet(s: seq<Byte>)
    ensures Get(s) < Limit(|s|) && Put(Get(s), |s|) == s
  {
    if s != [] {
      PutGet(s[1..]);
      var low := ValueOf(s[0]);
      PutDigits(low, Get(s[1..]), |s[1..]|);
    }
  }

  /** The lowest byte comes first. */
  lemma TwoBytes(s: seq<Byte>)
    requires |s| == 2
    ensures Get(s) == ValueOf(s[0]) + 0x100 * ValueOf(s[1])
  {
    GetFirst(s);
    GetFirst(s[1..]);
  }

  lemma FourBytes(s: seq<Byte>)
    requires |s| == 4
    ensures Get(s) == ValueOf(s[0]) + 0x100 * ValueOf(s[1]) + 0x1_0000 * ValueOf(s[2]) + 0x100_0000 * ValueOf(s[3])
  {
    GetFirst(s);
    GetFirst(s[1..]);
    TwoBytes(s[2..]);
    assert s[1..][1..] == s[2..];
  }

  lemma EightBytes(s: seq<Byte>)
    requires |s| == 8
    ensures Get(s) == Get(s[..4]) + 0x1_0000_0000 * Get(s[4..])
  {
    FourBytes(s[..4]);
    GetFirst(s);
    GetFirst(s[1..]);
    GetFirst(s[2..]);
    GetFirst(s[3..]);
    assert s[1..][1..] == s[2..] && s[2..][1..] == s[3..] && s[3..][1..] == s[4..];
  }

  lemma GetFirst(s: seq<Byte>)
    requires s != []
    ensures Get(s) == ValueOf(s[0]) + 256 * Get(s[1..])
    ensures |s| == 1 ==> Get(s) == ValueOf(s[0])
  {
  }

  function GetUint16(s: seq<Byte>): Uint16
    requires |s| == 2
  {
    PutGet(s);
    Get(s)
  }

  function GetUint32(s: seq<Byte>): Uint32
    requires |s| == 4
  {
    PutGet(s);
    Get(s)
  }

  function GetUint64(s: seq<Byte>): Uint64
    requires |s| == 8
  {
    PutGet(s);
    Get(s)
  }

  // ---------- the checksum field ----------

  function Narrow(x: bv32): Byte { (x & 0xFF) as Byte }

  function PutCrc(c: bv32): (s: seq<Byte>)
    ensures |s| == 4
  {
    [Narrow(c), Narrow(DownByte(c)), Narrow(DownByte(DownByte(c))), Narrow(DownByte(DownByte(DownByte(c))))]
  }

  lemma ShiftsAdd(c: bv32)
    ensures (c >> 8) >> 8 == c >> 16 && ((c >> 8) >> 8) >> 8 == c >> 24
  {
  }

  /** The lowest byte of the checksum comes first too. */
  lemma CrcBytes(c: bv32)
    ensures PutCrc(c) == [Narrow(c), Narrow(c >> 8), Narrow(c >> 16), Narrow(c >> 24)]
  {
    ShiftsAdd(c);
    assert DownByte(c) == c >> 8 && DownByte(DownByte(c)) == (c >> 8) >> 8;
  }

  lemma LowNarrow(x: bv32)
    ensures Low(Narrow(x)) == LowByte(x)
  {
  }

  lemma WordPutCrc(c: bv32)
    ensures Word(PutCrc(c)) == c
  {
    var d := DownByte(c);
    var e := DownByte(d);
    var f := DownByte(e);
    Rejoined(c);
    Rejoined(d);
    Rejoined(e);
    Rejoined(f);
    LowNarrow(c);
    LowNarrow(d);
    LowNarrow(e);
    LowNarrow(f);
    var s := PutCrc(c);
    assert Word(s[3..]) == f;
    assert s[2..][1..] == s[3..];
    assert Word(s[2..]) == e;
    assert s[1..][1..] == s[2..];
    assert Word(s[1..]) == d;
  }

  lemma PutCrcWord(w: seq<Byte>)
    requires |w| == 4
    ensures PutCrc(Word(w)) == w
  {
    WordPutCrc(Word(w));
    WordInjective(PutCrc(Word(w)), w);
  }
}
