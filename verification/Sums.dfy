/** Finite sums over sequences, sets and maps, and how a single change moves them. */
module Sums {

  ghost function Total<T>(s: seq<T>, f: T -> real): real {
    if s == [] then 0.0 else f(s[0]) + Total(s[1..], f)
  }

  lemma {:induction false} TotalAppend<T>(a: seq<T>, b: seq<T>, f: T -> real)
    ensures Total(a + b, f) == Total(a, f) + Total(b, f)
  {
    if a == [] {
      assert a + b == b;
    } else {
      assert (a + b)[1..] == a[1..] + b;
      TotalAppend(a[1..], b, f);
    }
  }

  lemma TotalSnoc<T>(s: seq<T>, x: T, f: T -> real)
    ensures Total(s + [x], f) == Total(s, f) + f(x)
  {
    TotalAppend(s, [x], f);
    assert Total([x], f) == f(x) + Total([x][1..], f);
  }

  lemma TotalExtract<T>(s: seq<T>, i: nat, f: T -> real)
    requires i < |s|
    ensures Total(s, f) == f(s[i]) + Total(s[..i] + s[i + 1..], f)
  {
    TotalAppend(s[..i], s[i..], f);
    TotalAppend(s[..i], s[i + 1..], f);
    assert s == s[..i] + s[i..];
    assert s[i..][1..] == s[i + 1..];
  }

  lemma {:induction false} TotalPermutation<T>(a: seq<T>, b: seq<T>, f: T -> real)
    requires multiset(a) == multiset(b)
    ensures Total(a, f) == Total(b, f)
  {
    if a == [] {
      assert |multiset(b)| == 0;
    } else {
      var x := a[0];
      assert a == [x] + a[1..];
      assert x in multiset(b);
      var i :| 0 <= i < |b| && b[i] == x;
      assert b == b[..i] + [x] + b[i + 1..];
      assert multiset(a[1..]) == multiset(a) - multiset{x};
      assert multiset(b[..i] + b[i + 1..]) == multiset(b) - multiset{x};
      TotalExtract(b, i, f);
      TotalPermutation(a[1..], b[..i] + b[i + 1..], f);
    }
  }

  lemma {:induction false} TotalSame<T>(s: seq<T>, f: T -> real, g: T -> real)
    requires forall x :: x in s ==> f(x) == g(x)
    ensures Total(s, f) == Total(s, g)
  {
    if s != [] {
      assert s[0] in s;
      assert forall x :: x in s[1..] ==> x in s;
      TotalSame(s[1..], f, g);
    }
  }

  /** Where `x` occurs once, giving it another weight moves the total by the difference. */
  lemma TotalReweigh<T>(s: seq<T>, x: T, f: T -> real, g: T -> real)
    requires multiset(s)[x] == 1
    requires forall y :: y in s && y != x ==> f(y) == g(y)
    ensures Total(s, g) == Total(s, f) + g(x) - f(x)
  {
    assert x in multiset(s);
    var i :| 0 <= i < |s| && s[i] == x;
    var rest := s[..i] + s[i + 1..];
    assert s == s[..i] + [x] + s[i + 1..];
    assert multiset(s) == multiset(rest) + multiset{x};
    forall y | y in rest ensures f(y) == g(y) {
      assert y in multiset(rest);
      assert y in multiset(s);
    }
    TotalExtract(s, i, f);
    TotalExtract(s, i, g);
    TotalSame(rest, f, g);
  }

  lemma {:induction false} TotalNonNegative<T>(s: seq<T>, f: T -> real)
    requires forall x :: x in s ==> f(x) >= 0.0
    ensures Total(s, f) >= 0.0
  {
    if s != [] {
      assert s[0] in s;
      assert forall x :: x in s[1..] ==> x in s;
      TotalNonNegative(s[1..], f);
    }
  }

  lemma {:induction false} TotalGrows<T>(s: seq<T>, f: T -> real, g: T -> real)
    requires forall x :: x in s ==> f(x) <= g(x)
    ensures Total(s, f) <= Total(s, g)
  {
    if s != [] {
      assert s[0] in s;
      assert forall x :: x in s[1..] ==> x in s;
      TotalGrows(s[1..], f, g);
    }
  }

  lemma TotalAtLeast<T>(s: seq<T>, x: T, f: T -> real)
    requires x in s
    requires forall y :: y in s ==> f(y) >= 0.0
    ensures Total(s, f) >= f(x)
  {
    var i :| 0 <= i < |s| && s[i] == x;
    TotalExtract(s, i, f);
    TotalNonNegative(s[..i] + s[i + 1..], f);
  }

  ghost function SetTotal<T(!new)>(s: set<T>, f: T -> real): real {
    if s == {} then 0.0 else
      var x :| x in s;
      f(x) + SetTotal(s - {x}, f)
  }

  lemma SomeMember<T>(s: set<T>) returns (x: T)
    requires s != {}
    ensures x in s
  {
    x :| x in s;
  }

  lemma {:induction false} SetTotalRemove<T(!new)>(s: set<T>, x: T, f: T -> real)
    requires x in s
    ensures SetTotal(s, f) == f(x) + SetTotal(s - {x}, f)
    decreases s
  {
    var y :| y in s && SetTotal(s, f) == f(y) + SetTotal(s - {y}, f);
    if y != x {
      SetTotalRemove(s - {y}, x, f);
      SetTotalRemove(s - {x}, y, f);
      assert s - {y} - {x} == s - {x} - {y};
    }
  }

  lemma SetTotalAdd<T(!new)>(s: set<T>, x: T, f: T -> real)
    requires x !in s
    ensures SetTotal(s + {x}, f) == SetTotal(s, f) + f(x)
  {
    SetTotalRemove(s + {x}, x, f);
    assert s + {x} - {x} == s;
  }

  lemma {:induction false} SetTotalSame<T(!new)>(s: set<T>, f: T -> real, g: T -> real)
    requires forall x :: x in s ==> f(x) == g(x)
    ensures SetTotal(s, f) == SetTotal(s, g)
    decreases s
  {
    if s != {} {
      var x :| x in s && SetTotal(s, f) == f(x) + SetTotal(s - {x}, f);
      SetTotalRemove(s, x, g);
      SetTotalSame(s - {x}, f, g);
    }
  }

  lemma SetTotalReweigh<T(!new)>(s: set<T>, x: T, f: T -> real, g: T -> real)
    requires x in s
    requires forall y :: y in s && y != x ==> f(y) == g(y)
    ensures SetTotal(s, g) == SetTotal(s, f) + g(x) - f(x)
  {
    SetTotalRemove(s, x, f);
    SetTotalRemove(s, x, g);
    SetTotalSame(s - {x}, f, g);
  }

  /** One element added or reweighed, where an absent element weighs nothing. */
  lemma SetTotalPut<T(!new)>(s: set<T>, x: T, f: T -> real, g: T -> real)
    requires forall y :: y != x ==> f(y) == g(y)
    requires x !in s ==> f(x) == 0.0
    ensures SetTotal(s + {x}, g) == SetTotal(s, f) + g(x) - f(x)
  {
    if x in s {
      assert s + {x} == s;
      SetTotalReweigh(s, x, f, g);
    } else {
      SetTotalSame(s, f, g);
      SetTotalAdd(s, x, g);
    }
  }

  lemma {:induction false} SetTotalNonNegative<T(!new)>(s: set<T>, f: T -> real)
    requires forall x :: x in s ==> f(x) >= 0.0
    ensures SetTotal(s, f) >= 0.0
    decreases s
  {
    if s != {} {
      var x :| x in s && SetTotal(s, f) == f(x) + SetTotal(s - {x}, f);
      SetTotalNonNegative(s - {x}, f);
    }
  }
}
