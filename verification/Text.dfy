/** Decimal printing of integers, and composite string keys. */
module Text {

  predicate IsDigit(c: char) { '0' <= c <= '9' }

  function DigitChar(d: nat): (c: char)
    requires d < 10
    ensures IsDigit(c)
  {
    '0' + d as char
  }

  function DigitValue(c: char): (d: nat)
    requires IsDigit(c)
    ensures d < 10
  {
    (c - '0') as nat
  }

  function NatToString(n: nat): string {
    if n < 10 then [DigitChar(n)] else NatToString(n / 10) + [DigitChar(n % 10)]
  }

  /** The value of a string of digits; 0 where the string is no number, as the callers
      that drop the parse error see it. */
  function StringToNat(s: string): nat {
    if s == [] then 0
    else if !IsDigit(s[|s| - 1]) then 0
    else 10 * StringToNat(s[..|s| - 1]) + DigitValue(s[|s| - 1])
  }

  lemma {:induction false} NatRoundTrip(n: nat)
    ensures StringToNat(NatToString(n)) == n
    ensures NatToString(n) != [] && forall i :: 0 <= i < |NatToString(n)| ==> IsDigit(NatToString(n)[i])
  {
    if n >= 10 {
      NatRoundTrip(n / 10);
      assert NatToString(n)[..|NatToString(n)| - 1] == NatToString(n / 10);
    } else {
      assert StringToNat([]) == 0;
      assert [DigitChar(n)][..0] == [];
    }
  }

  function IntToString(n: int): string {
    if n < 0 then "-" + NatToString(-n) else NatToString(n)
  }

  function StringToInt(s: string): int {
    if s != [] && s[0] == '-' then -(StringToNat(s[1..]) as int) else StringToNat(s)
  }

  lemma IntRoundTrip(n: int)
    ensures StringToInt(IntToString(n)) == n
    ensures forall c :: c in IntToString(n) ==> IsDigit(c) || c == '-'
  {
    NatRoundTrip(if n < 0 then -n else n);
    if n < 0 {
      assert IntToString(n)[1..] == NatToString(-n);
    }
  }

  /** The balance map's key, `"%d:%s"`. */
  function Key(userId: nat, asset: string): string { NatToString(userId) + ":" + asset }

  lemma DigitsHaveNoColon(n: nat)
    ensures ':' !in NatToString(n)
  {
    NatRoundTrip(n);
  }

  lemma SplitsUniquely(p: string, a: string, q: string, b: string, c: char)
    requires c !in p && c !in q && p + [c] + a == q + [c] + b
    ensures p == q && a == b
  {
    var s := p + [c] + a;
    assert s[|p|] == c && s[|q|] == c;
    assert forall i :: 0 <= i < |p| ==> s[i] == p[i] && s[i] in p;
    assert forall i :: 0 <= i < |q| ==> s[i] == q[i] && s[i] in q;
    assert s[..|p|] == p && s[..|q|] == q;
    assert s[|p| + 1..] == a && s[|q| + 1..] == b;
  }

  /** Two accounts never share a key, whatever the asset names contain. */
  lemma KeyInjective(u: nat, a: string, v: nat, b: string)
    requires Key(u, a) == Key(v, b)
    ensures u == v && a == b
  {
    DigitsHaveNoColon(u);
    DigitsHaveNoColon(v);
    SplitsUniquely(NatToString(u), a, NatToString(v), b, ':');
    NatRoundTrip(u);
    NatRoundTrip(v);
  }
}
