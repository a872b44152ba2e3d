/** Sums over sequences, and what changing or appending one element does to them. */
module Sums {

  function SumInt<T>(s: seq<T>, f: T -> int): int {
    if s == [] then 0 else SumInt(s[..|s| - 1], f) + f(s[|s| - 1])
  }

  function SumReal<T>(s: seq<T>, f: T -> real): real {
    if s == [] then 0.0 else SumReal(s[..|s| - 1], f) + f(s[|s| - 1])
  }

  lemma {:induction false} SumIntUpdate<T>(s: seq<T>, i: nat, x: T, f: T -> int)
    requires i < |s|
    ensures SumInt(s[i := x], f) == SumInt(s, f) - f(s[i]) + f(x)
  {
    var n := |s| - 1;
    if i == n {
      assert s[i := x][..n] == s[..n];
    } else {
      assert s[i := x][..n] == s[..n][i := x];
      SumIntUpdate(s[..n], i, x, f);
    }
  }

  lemma {:induction false} SumRealUpdate<T>(s: seq<T>, i: nat, x: T, f: T -> real)
    requires i < |s|
    ensures SumReal(s[i := x], f) == SumReal(s, f) - f(s[i]) + f(x)
  {
    var n := |s| - 1;
    if i == n {
      assert s[i := x][..n] == s[..n];
    } else {
      assert s[i := x][..n] == s[..n][i := x];
      SumRealUpdate(s[..n], i, x, f);
    }
  }

  lemma SumIntAppend<T>(s: seq<T>, x: T, f: T -> int)
    ensures SumInt(s + [x], f) == SumInt(s, f) + f(x)
  {
    assert (s + [x])[..|s|] == s;
  }

  lemma SumRealAppend<T>(s: seq<T>, x: T, f: T -> real)
    ensures SumReal(s + [x], f) == SumReal(s, f) + f(x)
  {
    assert (s + [x])[..|s|] == s;
  }

  lemma {:induction false} SumIntRemove<T>(s: seq<T>, i: nat, f: T -> int)
    requires i < |s|
    ensures SumInt(s[..i] + s[i + 1..], f) == SumInt(s, f) - f(s[i])
  {
    var n := |s| - 1;
    var t := s[..i] + s[i + 1..];
    if i == n {
      assert t == s[..n];
    } else {
      assert t[..n - 1] == s[..n][..i] + s[..n][i + 1..];
      SumIntRemove(s[..n], i, f);
    }
  }

  lemma {:induction false} SumIntZero<T>(s: seq<T>, f: T -> int)
    requires forall i :: 0 <= i < |s| ==> f(s[i]) == 0
    ensures SumInt(s, f) == 0
  {
    if s != [] {
      SumIntZero(s[..|s| - 1], f);
    }
  }

  lemma {:induction false} SumRealZero<T>(s: seq<T>, f: T -> real)
    requires forall i :: 0 <= i < |s| ==> f(s[i]) == 0.0
    ensures SumReal(s, f) == 0.0
  {
    if s != [] {
      SumRealZero(s[..|s| - 1], f);
    }
  }

  lemma {:induction false} SumIntOne<T>(s: seq<T>, i: nat, f: T -> int)
    requires i < |s| && forall j :: 0 <= j < |s| && j != i ==> f(s[j]) == 0
    ensures SumInt(s, f) == f(s[i])
  {
    var n := |s| - 1;
    if i == n {
      SumIntZero(s[..n], f);
    } else {
      SumIntOne(s[..n], i, f);
    }
  }

  lemma {:induction false} SumRealSame<T>(s: seq<T>, f: T -> real, g: T -> real)
    requires forall i :: 0 <= i < |s| ==> f(s[i]) == g(s[i])
    ensures SumReal(s, f) == SumReal(s, g)
  {
    if s != [] {
      SumRealSame(s[..|s| - 1], f, g);
    }
  }
}
