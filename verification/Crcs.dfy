/** The IEEE 802.3 frame check sequence that `crc32.ChecksumIEEE` computes. */
module Crcs {
  type Byte = bv8

  const POLYNOMIAL: bv32 := 0xEDB8_8320

  function Xor(x: bv32, y: bv32): bv32 { x ^ y }
  function Double(x: bv32): bv32 { x << 1 }
  function Half(x: bv32): bv32 { x >> 1 }
  predicate Odd(x: bv32) { x & 1 == 1 }
  function UpByte(x: bv32): bv32 { x << 8 }
  function Low(b: Byte): bv32 { b as bv32 }
  predicate TopBitClear(x: bv32) { x < 0x8000_0000 }
  predicate TopByteClear(x: bv32) { x < 0x100_0000 }

  /** One bit leaves the register at its low end. */
  function Round(c: bv32): bv32 {
    if Odd(c) then Xor(Half(c), POLYNOMIAL) else Half(c)
  }

  function Rounds(n: nat, c: bv32): bv32 {
    if n == 0 then c else Rounds(n - 1, Round(c))
  }

  function Update(c: bv32, b: Byte): bv32 {
    Rounds(8, Xor(c, Low(b)))
  }

  function Register(c: bv32, data: seq<Byte>): bv32
    decreases |data|
  {
    if data == [] then c else Register(Update(c, data[0]), data[1..])
  }

  function Checksum(data: seq<Byte>): bv32 {
    Xor(Register(0xFFFF_FFFF, data), 0xFFFF_FFFF)
  }

  // ---------- the register forgets nothing ----------

  lemma RoundInjective(c: bv32, d: bv32)
    requires Round(c) == Round(d)
    ensures c == d
  {
  }

  lemma XorCancels(c: bv32, d: bv32, x: bv32)
    requires Xor(c, x) == Xor(d, x) || Xor(x, c) == Xor(x, d)
    ensures c == d
  {
  }

  lemma {:induction false} RoundsInjective(n: nat, c: bv32, d: bv32)
    requires Rounds(n, c) == Rounds(n, d)
    ensures c == d
  {
    if n > 0 {
      RoundsInjective(n - 1, Round(c), Round(d));
      RoundInjective(c, d);
    }
  }

  lemma {:induction false} RegisterInjective(c: bv32, d: bv32, data: seq<Byte>)
    requires Register(c, data) == Register(d, data)
    ensures c == d
    decreases |data|
  {
    if data != [] {
      RegisterInjective(Update(c, data[0]), Update(d, data[0]), data[1..]);
      UpdateInjective(c, d, data[0]);
    }
  }

  lemma UpdateInjective(c: bv32, d: bv32, b: Byte)
    requires Update(c, b) == Update(d, b)
    ensures c == d
  {
    RoundsInjective(8, Xor(c, Low(b)), Xor(d, Low(b)));
    XorCancels(c, d, Low(b));
  }

  lemma {:induction false} RegisterSplits(c: bv32, x: seq<Byte>, y: seq<Byte>)
    ensures Register(c, x + y) == Register(Register(c, x), y)
    decreases |x|
  {
    if x == [] {
      assert x + y == y;
    } else {
      assert (x + y)[1..] == x[1..] + y;
      RegisterSplits(Update(c, x[0]), x[1..], y);
    }
  }

  // ---------- bits above those that leave only move down ----------

  lemma LowBitStays(x: bv32, y: bv32)
    ensures Odd(Xor(x, Double(y))) == Odd(x)
  {
  }

  lemma RestMovesDown(x: bv32, y: bv32)
    requires y < 0x8000_0000
    ensures (x ^ (y << 1)) >> 1 == (x >> 1) ^ y
  {
  }

  lemma HalfShifts(x: bv32, y: bv32)
    requires TopBitClear(y)
    ensures Half(Xor(x, Double(y))) == Xor(Half(x), y)
  {
    RestMovesDown(x, y);
  }

  lemma XorAssociates(x: bv32, y: bv32, z: bv32)
    ensures Xor(Xor(x, y), z) == Xor(x, Xor(y, z))
  {
  }

  lemma XorCommutes(x: bv32, y: bv32)
    ensures Xor(x, y) == Xor(y, x)
  {
  }

  lemma XorSwaps(x: bv32, y: bv32, z: bv32)
    ensures Xor(Xor(x, y), z) == Xor(Xor(x, z), y)
  {
    XorAssociates(x, y, z);
    XorAssociates(x, z, y);
    XorCommutes(y, z);
  }

  lemma RoundShifts(x: bv32, y: bv32)
    requires TopBitClear(y)
    ensures Round(Xor(x, Double(y))) == Xor(Round(x), y)
  {
    LowBitStays(x, y);
    HalfShifts(x, y);
    XorSwaps(Half(x), y, POLYNOMIAL);
  }

  function Up(n: nat, y: bv32): bv32 {
    if n == 0 then y else Double(Up(n - 1, y))
  }

  /** No bit is lost on the way up. */
  predicate Fits(n: nat, y: bv32) {
    n == 0 || (TopBitClear(Up(n - 1, y)) && Fits(n - 1, y))
  }

  lemma {:induction false} RoundsShift(n: nat, x: bv32, y: bv32)
    requires Fits(n, y)
    ensures Rounds(n, Xor(x, Up(n, y))) == Xor(Rounds(n, x), y)
  {
    if n > 0 {
      RoundShifts(x, Up(n - 1, y));
      RoundsShift(n - 1, Round(x), y);
    }
  }

  lemma EightDoublings(y: bv32)
    requires y < 0x100_0000
    ensures y << 8 == (y << 7) << 1 && y << 7 == (y << 6) << 1 && y << 6 == (y << 5) << 1 && y << 5 == (y << 4) << 1
    ensures y << 4 == (y << 3) << 1 && y << 3 == (y << 2) << 1 && y << 2 == (y << 1) << 1
    ensures y << 7 < 0x8000_0000 && y << 6 < 0x8000_0000 && y << 5 < 0x8000_0000 && y << 4 < 0x8000_0000
    ensures y << 3 < 0x8000_0000 && y << 2 < 0x8000_0000 && y << 1 < 0x8000_0000 && y < 0x8000_0000
  {
  }

  lemma EightDoubled(y: bv32)
    requires TopByteClear(y)
    ensures var y4 := Double(Double(Double(Double(y)))); UpByte(y) == Double(Double(Double(Double(y4))))
    ensures TopBitClear(y) && TopBitClear(Double(y)) && TopBitClear(Double(Double(y)))
    ensures TopBitClear(Double(Double(Double(y))))
    ensures var y4 := Double(Double(Double(Double(y))));
            TopBitClear(y4) && TopBitClear(Double(y4)) && TopBitClear(Double(Double(y4)))
    ensures var y4 := Double(Double(Double(Double(y)))); TopBitClear(Double(Double(Double(y4))))
  {
    EightDoublings(y);
  }

  lemma EightUp(y: bv32)
    requires TopByteClear(y)
    ensures Fits(8, y) && Up(8, y) == UpByte(y)
  {
    EightDoubled(y);
    var y4 := Double(Double(Double(Double(y))));
    assert Up(1, y) == Double(y) && Fits(1, y);
    assert Up(2, y) == Double(Double(y)) && Fits(2, y);
    assert Up(3, y) == Double(Double(Double(y))) && Fits(3, y);
    assert Up(4, y) == y4 && Fits(4, y);
    assert Up(5, y) == Double(y4) && Fits(5, y);
    assert Up(6, y) == Double(Double(y4)) && Fits(6, y);
    assert Up(7, y) == Double(Double(Double(y4))) && Fits(7, y);
  }

  /** What sits above the lowest byte is moved down unchanged by eight rounds. */
  lemma EightRounds(x: bv32, y: bv32)
    requires TopByteClear(y)
    ensures Rounds(8, Xor(x, UpByte(y))) == Xor(Rounds(8, x), y)
  {
    EightUp(y);
    RoundsShift(8, x, y);
  }

  // ---------- up to four bytes enter as one word ----------

  /** The low-order byte comes first. */
  function Word(w: seq<Byte>): bv32
    requires |w| <= 4
  {
    if w == [] then 0 else Xor(Low(w[0]), UpByte(Word(w[1..])))
  }

  predicate Below(x: bv32, bytes: nat)
    requires bytes <= 3
  {
    x < if bytes == 0 then 1 else if bytes == 1 then 0x100 else if bytes == 2 then 0x1_0000 else 0x100_0000
  }

  lemma WordBound(w: seq<Byte>)
    requires |w| <= 3
    ensures Below(Word(w), |w|) && TopByteClear(Word(w))
  {
    if |w| > 0 { WordBound(w[1..]); }
  }

  function LowByte(x: bv32): bv32 { x & 0xFF }
  function DownByte(x: bv32): bv32 { x >> 8 }

  lemma Halves(a: Byte, x: bv32)
    requires x < 0x100_0000
    ensures ((a as bv32) ^ (x << 8)) & 0xFF == a as bv32
    ensures ((a as bv32) ^ (x << 8)) >> 8 == x
  {
  }

  lemma HalvesOf(a: Byte, x: bv32)
    requires TopByteClear(x)
    ensures LowByte(Xor(Low(a), UpByte(x))) == Low(a)
    ensures DownByte(Xor(Low(a), UpByte(x))) == x
  {
    Halves(a, x);
  }

  lemma LowInjective(a: Byte, b: Byte)
    requires Low(a) == Low(b)
    ensures a == b
  {
  }

  lemma {:induction false} WordInjective(v: seq<Byte>, w: seq<Byte>)
    requires |v| == |w| <= 4 && Word(v) == Word(w)
    ensures v == w
  {
    if v != [] {
      WordBound(v[1..]);
      WordBound(w[1..]);
      HalvesOf(v[0], Word(v[1..]));
      HalvesOf(w[0], Word(w[1..]));
      LowInjective(v[0], w[0]);
      WordInjective(v[1..], w[1..]);
    }
  }

  lemma {:induction false} RoundsAdd(m: nat, n: nat, c: bv32)
    ensures Rounds(m + n, c) == Rounds(n, Rounds(m, c))
  {
    if m > 0 { RoundsAdd(m - 1, n, Round(c)); }
  }

  lemma XorZero(x: bv32)
    ensures Xor(x, 0) == x
  {
  }

  /** The register absorbs up to four bytes as if they came in one word. */
  lemma {:induction false} RegisterTakesWord(c: bv32, w: seq<Byte>)
    requires |w| <= 4
    ensures Register(c, w) == Rounds(8 * |w|, Xor(c, Word(w)))
    decreases |w|
  {
    if w == [] {
      XorZero(c);
    } else {
      var b, rest := Low(w[0]), Word(w[1..]);
      RegisterTakesWord(Update(c, w[0]), w[1..]);
      WordBound(w[1..]);
      EightRounds(Xor(c, b), rest);
      XorAssociates(c, b, UpByte(rest));
      RoundsAdd(8, 8 * |w[1..]|, Xor(c, Word(w)));
    }
  }

  lemma WordsDiffer(c: bv32, v: seq<Byte>, w: seq<Byte>)
    requires |v| == |w| <= 4 && v != w
    ensures Register(c, v) != Register(c, w)
  {
    if Register(c, v) == Register(c, w) {
      RegisterTakesWord(c, v);
      RegisterTakesWord(c, w);
      RoundsInjective(8 * |v|, Xor(c, Word(v)), Xor(c, Word(w)));
      XorCancels(Word(v), Word(w), c);
      WordInjective(v, w);
    }
  }

  /** A change within four consecutive bytes always reaches the checksum. */
  lemma BurstChangesChecksum(before: seq<Byte>, v: seq<Byte>, w: seq<Byte>, after: seq<Byte>)
    requires |v| == |w| <= 4 && v != w
    ensures Checksum(before + v + after) != Checksum(before + w + after)
  {
    var c := Register(0xFFFF_FFFF, before);
    RegisterSplits(0xFFFF_FFFF, before + v, after);
    RegisterSplits(0xFFFF_FFFF, before, v);
    RegisterSplits(0xFFFF_FFFF, before + w, after);
    RegisterSplits(0xFFFF_FFFF, before, w);
    var x, y := Register(Register(c, v), after), Register(Register(c, w), after);
    WordsDiffer(c, v, w);
    if Xor(x, 0xFFFF_FFFF) == Xor(y, 0xFFFF_FFFF) {
      XorCancels(x, y, 0xFFFF_FFFF);
      RegisterInjective(Register(c, v), Register(c, w), after);
    }
  }

  // ---------- the table form of RFC 1952, section 8 ----------

  lemma Rejoined(x: bv32)
    ensures x == Xor(LowByte(x), UpByte(DownByte(x))) && TopByteClear(DownByte(x))
  {
  }

  lemma LowXor(c: bv32, b: Byte)
    ensures DownByte(Xor(c, Low(b))) == DownByte(c)
  {
  }

  /** One look-up for each byte does what the eight rounds do. */
  lemma UpdateByTable(c: bv32, b: Byte)
    ensures Update(c, b) == Xor(Rounds(8, LowByte(Xor(c, Low(b)))), DownByte(c))
  {
    var x := Xor(c, Low(b));
    Rejoined(x);
    LowXor(c, b);
    EightRounds(LowByte(x), DownByte(c));
  }

  /** The published check value of this polynomial: the checksum of "123456789". */
  lemma CheckValue()
    ensures Checksum([0x31, 0x32, 0x33, 0x34, 0x35, 0x36, 0x37, 0x38, 0x39]) == 0xCBF4_3926
  {
    assert Update(0xFFFF_FFFF, 0x31) == 0x7C23_1048;
    assert Update(0x7C23_1048, 0x32) == 0xB0AC_BB32;
    assert Update(0xB0AC_BB32, 0x33) == 0x77B7_9C2D;
    assert Update(0x77B7_9C2D, 0x34) == 0x641C_1F5C;
    assert Update(0x641C_1F5C, 0x35) == 0x340A_C5E3;
    assert Update(0x340A_C5E3, 0x36) == 0xF68D_2C9E;
    assert Update(0xF68D_2C9E, 0x37) == 0xAFFC_9660;
    assert Update(0xAFFC_9660, 0x38) == 0x651F_2550;
    assert Update(0x651F_2550, 0x39) == 0x340B_C6D9;
  }
}
