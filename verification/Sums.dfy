/** Sums over sequences, and how they follow single changes. */
module Sums {

  function Sum<T>(s: seq<T>, w: T -> int): int {
    if s == [] then 0 else Sum(s[..|s| - 1], w) + w(s[|s| - 1])
  }

  lemma SumAppend<T>(s: seq<T>, x: T, w: T -> int)
    ensures Sum(s + [x], w) == Sum(s, w) + w(x)
  {
    assert (s + [x])[..|s|] == s;
  }

  lemma {:induction false} SumConcat<T>(a: seq<T>, b: seq<T>, w: T -> int)
    ensures Sum(a + b, w) == Sum(a, w) + Sum(b, w)
  {
    if b == [] {
      assert a + b == a;
    } else {
      var init, last := b[..|b| - 1], b[|b| - 1];
      assert a + b == (a + init) + [last];
      SumAppend(a + init, last, w);
      SumConcat(a, init, w);
    }
  }

  lemma {:induction false} SumUpdate<T>(s: seq<T>, i: nat, x: T, w: T -> int)
    requires i < |s|
    ensures Sum(s[i := x], w) == Sum(s, w) - w(s[i]) + w(x)
  {
    var init := s[..|s| - 1];
    if i == |s| - 1 {
      assert s[i := x][..|s| - 1] == init;
    } else {
      assert s[i := x][..|s| - 1] == init[i := x];
      SumUpdate(init, i, x, w);
    }
  }

  function Without<T>(s: seq<T>, i: nat): (r: seq<T>)
    requires i < |s|
    ensures |r| == |s| - 1
    ensures forall x :: x in r ==> x in s
  {
    s[..i] + s[i + 1..]
  }

  lemma SumWithout<T>(s: seq<T>, i: nat, w: T -> int)
    requires i < |s|
    ensures Sum(Without(s, i), w) == Sum(s, w) - w(s[i])
  {
    hide Sum;
    SumDrop(s, i + 1, w);
    assert s[..i + 1] == s[..i] + [s[i]];
    SumAppend(s[..i], s[i], w);
    SumConcat(s[..i], s[i + 1..], w);
  }

  lemma SumDrop<T>(s: seq<T>, k: nat, w: T -> int)
    requires k <= |s|
    ensures Sum(s[k..], w) == Sum(s, w) - Sum(s[..k], w)
  {
    hide Sum;
    assert s == s[..k] + s[k..];
    SumConcat(s[..k], s[k..], w);
  }

  /** Weights that are never negative. */
  lemma {:induction false} SumAtLeast<T>(s: seq<T>, w: T -> int, i: nat)
    requires forall x :: x in s ==> w(x) >= 0
    requires i <= |s|
    ensures 0 <= Sum(s, w)
    ensures i < |s| ==> w(s[i]) <= Sum(s, w)
  {
    if s != [] {
      SumAtLeast(s[..|s| - 1], w, if i < |s| - 1 then i else 0);
    }
  }

  /** Two places with positive weight count twice. */
  lemma SumAtLeastTwo<T>(s: seq<T>, w: T -> int, i: nat, j: nat)
    requires forall x :: x in s ==> w(x) >= 0
    requires i < j < |s|
    ensures w(s[i]) + w(s[j]) <= Sum(s, w)
  {
    hide Sum;
    SumWithout(s, i, w);
    var r := Without(s, i);
    assert r[j - 1] == s[j];
    SumAtLeast(r, w, j - 1);
  }

  lemma {:induction false} SumZero<T>(s: seq<T>, w: T -> int)
    requires forall x :: x in s ==> w(x) == 0
    ensures Sum(s, w) == 0
  {
    if s != [] {
      SumZero(s[..|s| - 1], w);
    }
  }

  lemma {:induction false} SumPlus<T>(s: seq<T>, w: T -> int, v: T -> int, u: T -> int)
    requires forall x :: x in s ==> u(x) == w(x) + v(x)
    ensures Sum(s, u) == Sum(s, w) + Sum(s, v)
  {
    if s != [] {
      SumPlus(s[..|s| - 1], w, v, u);
    }
  }

  lemma {:induction false} SumLess<T>(s: seq<T>, w: T -> int, v: T -> int)
    requires forall x :: x in s ==> w(x) <= v(x)
    ensures Sum(s, w) <= Sum(s, v)
  {
    if s != [] {
      SumLess(s[..|s| - 1], w, v);
    }
  }

  lemma MemberOrEmpty<T>(s: seq<T>)
    ensures s == [] || exists x :: x in s
  {
    if s != [] {
      assert s[0] in s;
    }
  }

  // ----- searching -----

  /** The first place where p holds, or the length. */
  function First<T>(s: seq<T>, p: T -> bool): (k: nat)
    ensures k <= |s|
    ensures k < |s| ==> p(s[k])
    ensures forall j :: 0 <= j < k ==> !p(s[j])
  {
    if s == [] then 0
    else
      var k := First(s[..|s| - 1], p);
      if k < |s| - 1 || p(s[|s| - 1]) then k else |s|
  }
}
