/** Splitting text at a separator, and joining it again. */
module Splits {

  /** `sep` stands in `s` at `i`, character by character. */
  predicate At(s: string, sep: string, i: nat)
    decreases |sep|
  {
    sep == "" || (i < |s| && s[i] == sep[0] && At(s, sep[1..], i + 1))
  }

  lemma {:induction false} AtIsSlice(s: string, sep: string, i: nat)
    requires i <= |s|
    ensures At(s, sep, i) <==> i + |sep| <= |s| && s[i..i + |sep|] == sep
    decreases |sep|
  {
    if sep != "" && i < |s| {
      AtIsSlice(s, sep[1..], i + 1);
      assert sep == [sep[0]] + sep[1..];
      if i + |sep| <= |s| { assert s[i..i + |sep|] == [s[i]] + s[i + 1..i + |sep|]; }
    }
  }

  /** The first place at or after `from` where `sep` stands; the length of `s` if there is none. */
  function First(s: string, sep: string, from: nat): (k: nat)
    requires sep != "" && from <= |s|
    ensures from <= k <= |s|
    ensures k < |s| ==> k + |sep| <= |s|
    decreases |s| - from
  {
    AtIsSlice(s, sep, from);
    if from == |s| then |s| else if At(s, sep, from) then from else First(s, sep, from + 1)
  }

  predicate NoneIn(s: string, sep: string, from: nat, to: nat) {
    forall j :: from <= j < to ==> !At(s, sep, j)
  }

  lemma {:induction false} FirstMeans(s: string, sep: string, from: nat)
    requires sep != "" && from <= |s|
    ensures var k := First(s, sep, from); NoneIn(s, sep, from, k) && (k < |s| ==> At(s, sep, k))
    decreases |s| - from
  {
    if from < |s| && !At(s, sep, from) { FirstMeans(s, sep, from + 1); }
  }

  lemma {:induction false} FirstIs(s: string, sep: string, from: nat, k: nat)
    requires sep != "" && from <= k <= |s| && NoneIn(s, sep, from, k) && (k < |s| ==> At(s, sep, k))
    ensures First(s, sep, from) == k
    decreases k - from
  {
    if from < k {
      assert !At(s, sep, from);
      FirstIs(s, sep, from + 1, k);
    }
  }

  /** The parts of `s` from `start` on. */
  function Parts(s: string, sep: string, start: nat): seq<string>
    requires sep != "" && start <= |s|
    decreases |s| - start
  {
    var k := First(s, sep, start);
    if k == |s| then [s[start..]] else [s[start..k]] + Parts(s, sep, k + |sep|)
  }

  function Split(s: string, sep: string): seq<string>
    requires sep != ""
  {
    Parts(s, sep, 0)
  }

  function Join(parts: seq<string>, sep: string): string {
    if parts == [] then ""
    else if |parts| == 1 then parts[0]
    else parts[0] + sep + Join(parts[1..], sep)
  }

  // ---------- joining undoes splitting ----------

  lemma ThreeSlices(s: string, a: nat, b: nat, c: nat)
    requires a <= b <= c <= |s|
    ensures s[a..] == s[a..b] + s[b..c] + s[c..]
  {
  }

  lemma JoinCons(part: string, rest: seq<string>, sep: string)
    requires rest != []
    ensures Join([part] + rest, sep) == part + sep + Join(rest, sep)
  {
    assert ([part] + rest)[1..] == rest;
  }

  lemma {:induction false} JoinParts(s: string, sep: string, start: nat)
    requires sep != "" && start <= |s|
    ensures Parts(s, sep, start) != [] && Join(Parts(s, sep, start), sep) == s[start..]
    decreases |s| - start
  {
    var k := First(s, sep, start);
    if k < |s| {
      FirstMeans(s, sep, start);
      JoinParts(s, sep, k + |sep|);
      AtIsSlice(s, sep, k);
      ThreeSlices(s, start, k, k + |sep|);
      JoinCons(s[start..k], Parts(s, sep, k + |sep|), sep);
    }
  }

  lemma JoinSplit(s: string, sep: string)
    requires sep != ""
    ensures Split(s, sep) != [] && Join(Split(s, sep), sep) == s
  {
    JoinParts(s, sep, 0);
    assert s[0..] == s;
  }

  // ---------- the parts ----------

  /** The separator stands nowhere in the part. */
  predicate Free(part: string, sep: string) {
    forall j :: 0 <= j <= |part| ==> !At(part, sep, j)
  }

  lemma {:induction false} AtInSlice(s: string, a: nat, b: nat, sep: string, j: nat)
    requires sep != "" && a <= b <= |s| && At(s[a..b], sep, j)
    ensures a + j < b && At(s, sep, a + j)
    decreases |sep|
  {
    if |sep| > 1 { AtInSlice(s, a, b, sep[1..], j + 1); }
  }

  lemma SliceIsFree(s: string, a: nat, b: nat, sep: string)
    requires sep != "" && a <= b <= |s|
    requires NoneIn(s, sep, a, b)
    ensures Free(s[a..b], sep)
  {
    forall j | 0 <= j <= b - a
      ensures !At(s[a..b], sep, j)
    {
      if At(s[a..b], sep, j) { AtInSlice(s, a, b, sep, j); }
    }
  }

  lemma {:induction false} PartsAreFree(s: string, sep: string, start: nat)
    requires sep != "" && start <= |s|
    ensures forall part :: part in Parts(s, sep, start) ==> Free(part, sep)
    decreases |s| - start
  {
    var k := First(s, sep, start);
    FirstMeans(s, sep, start);
    SliceIsFree(s, start, k, sep);
    if k < |s| { PartsAreFree(s, sep, k + |sep|); } else { assert s[start..k] == s[start..]; }
  }

  /** No part contains the separator, however long it is. */
  lemma SplitIsFree(s: string, sep: string)
    requires sep != ""
    ensures forall part :: part in Split(s, sep) ==> Free(part, sep)
  {
    PartsAreFree(s, sep, 0);
  }

  lemma AtChar(s: string, c: char, j: nat)
    requires j < |s|
    ensures At(s, [c], j) <==> s[j] == c
  {
    assert At(s, [c][1..], j + 1);
  }

  lemma FreeOfChar(part: string, c: char)
    ensures Free(part, [c]) <==> c !in part
  {
    forall j | 0 <= j < |part|
      ensures At(part, [c], j) <==> part[j] == c
    {
      AtChar(part, c, j);
    }
    if Free(part, [c]) {
      forall j | 0 <= j < |part| ensures part[j] != c { assert !At(part, [c], j); }
    }
  }

  // ---------- splitting undoes joining ----------

  /** Where the rest of `s` is the joined parts, splitting it from there gives the parts. */
  lemma {:induction false} PartsOfJoined(s: string, start: nat, parts: seq<string>, c: char)
    requires start <= |s| && s[start..] == Join(parts, [c])
    requires parts != [] && forall part :: part in parts ==> c !in part
    ensures Parts(s, [c], start) == parts
    decreases |parts|
  {
    var part := parts[0];
    var k := start + |part|;
    LeadingPart(s, start, part, c);
    if |parts| > 1 {
      assert s[k + 1..] == s[start..][|part| + 1..];
      PartsOfJoined(s, k + 1, parts[1..], c);
    }
  }

  lemma LeadingPart(s: string, start: nat, part: string, c: char)
    requires c !in part && start + |part| <= |s| && s[start..start + |part|] == part
    requires start + |part| < |s| ==> s[start + |part|] == c
    ensures First(s, [c], start) == start + |part|
  {
    var k := start + |part|;
    if k < |s| { AtChar(s, c, k); }
    forall j | start <= j < k
      ensures !At(s, [c], j)
    {
      AtChar(s, c, j);
      assert s[j] == part[j - start];
    }
    FirstIs(s, [c], start, k);
  }

  lemma SplitJoined(parts: seq<string>, c: char)
    requires parts != [] && forall part :: part in parts ==> c !in part
    ensures Split(Join(parts, [c]), [c]) == parts
  {
    var s := Join(parts, [c]);
    assert s[0..] == s;
    PartsOfJoined(s, 0, parts, c);
  }

  /** For a separator of one character, splitting undoes joining exactly when there is a
      part and no part contains the character. */
  lemma SplitJoinIff(parts: seq<string>, c: char)
    ensures Split(Join(parts, [c]), [c]) == parts <==> parts != [] && forall part :: part in parts ==> c !in part
  {
    if parts != [] && forall part :: part in parts ==> c !in part { SplitJoined(parts, c); }
    if Split(Join(parts, [c]), [c]) == parts {
      JoinSplit(Join(parts, [c]), [c]);
      SplitIsFree(Join(parts, [c]), [c]);
      forall part | part in parts ensures c !in part { FreeOfChar(part, c); }
    }
  }

  // ---------- the loop ----------

  lemma PartsNext(s: string, sep: string, start: nat, i: nat, result: seq<string>)
    requires sep != "" && start <= i <= |s|
    requires NoneIn(s, sep, start, i) && (i < |s| ==> i + |sep| <= |s| && At(s, sep, i))
    ensures result + Parts(s, sep, start)
            == if i < |s| then (result + [s[start..i]]) + Parts(s, sep, i + |sep|) else result + [s[start..]]
  {
    FirstIs(s, sep, start, i);
    if i < |s| {
      var part, rest := s[start..i], Parts(s, sep, i + |sep|);
      assert result + ([part] + rest) == (result + [part]) + rest;
    }
  }

  method FoundAt(s: string, sep: string, i: nat) returns (found: bool)
    requires i < |s|
    ensures found <==> At(s, sep, i)
    ensures found ==> i + |sep| <= |s|
  {
    AtIsSlice(s, sep, i);
    found := i + |sep| <= |s| && s[i..i + |sep|] == sep;
  }

  method SplitString(s: string, sep: string) returns (result: seq<string>)
    requires sep != ""
    ensures result == Split(s, sep)
  {
    result := [];
    var start, i := 0, 0;
    ghost var whole := Split(s, sep);
    while i < |s|
      invariant 0 <= start <= i <= |s|
      invariant NoneIn(s, sep, start, i)
      invariant whole == result + Parts(s, sep, start)
    {
      var found := FoundAt(s, sep, i);
      if found {
        PartsNext(s, sep, start, i, result);
        result := result + [s[start..i]];
        start := i + |sep|;
        i := start - 1;
      }
      i := i + 1;
    }
    PartsNext(s, sep, start, |s|, result);
    result := result + [s[start..]];
  }
}
