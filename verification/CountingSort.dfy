/** Where the single pass counting sort of the score board puts each element. */
module CountingSort {
  import opened Base

  function CountLess(s: seq<nat>, v: int): (n: nat)
    ensures n <= |s|
  {
    if s == [] then 0
    else CountLess(s[..|s| - 1], v) + if s[|s| - 1] < v then 1 else 0
  }

  function CountEqual(s: seq<nat>, v: int): (n: nat)
    ensures n <= |s|
  {
    if s == [] then 0
    else CountEqual(s[..|s| - 1], v) + if s[|s| - 1] == v then 1 else 0
  }

  /** The place of element i: the buckets of lower scores lie behind it, and its
      own bucket is filled from the back. */
  function Slot(s: seq<nat>, i: nat): int
    requires i < |s|
  {
    |s| - 1 - CountLess(s, s[i]) - CountEqual(s[..i], s[i])
  }

  lemma {:induction false} CountLessStep(s: seq<nat>, v: int)
    ensures CountLess(s, v + 1) == CountLess(s, v) + CountEqual(s, v)
    ensures CountLess(s, v + 1) <= |s|
  {
    if s != [] {
      CountLessStep(s[..|s| - 1], v);
    }
  }

  lemma {:induction false} CountLessMonotone(s: seq<nat>, v: int, w: int)
    requires v <= w
    ensures CountLess(s, v) <= CountLess(s, w)
    decreases w - v
  {
    if v < w {
      CountLessStep(s, v);
      CountLessMonotone(s, v + 1, w);
    }
  }

  lemma {:induction false} CountEqualPrefix(s: seq<nat>, i: nat, j: nat, v: int)
    requires i <= j <= |s|
    ensures CountEqual(s[..i], v) <= CountEqual(s[..j], v)
    ensures i < j && s[i] == v ==> CountEqual(s[..i], v) < CountEqual(s[..j], v)
    decreases j
  {
    if i < j {
      CountEqualPrefix(s, i, j - 1, v);
      assert s[..j][..j - 1] == s[..j - 1];
    }
  }

  lemma CountNone(s: seq<nat>)
    ensures CountLess(s, 0) == 0
  {
  }

  /** Every element lands inside the live prefix. */
  lemma SlotInRange(s: seq<nat>, i: nat)
    requires i < |s|
    ensures 0 <= Slot(s, i) < |s|
  {
    CountEqualPrefix(s, i, |s|, s[i]);
    assert s[..|s|] == s;
    CountLessStep(s, s[i]);
  }

  /** Higher scores come first, and equal scores come in reversed input order. */
  lemma SlotOrder(s: seq<nat>, i: nat, j: nat)
    requires i < |s| && j < |s|
    ensures s[i] > s[j] ==> Slot(s, i) < Slot(s, j)
    ensures s[i] == s[j] && i < j ==> Slot(s, i) > Slot(s, j)
  {
    if s[i] > s[j] {
      CountLessStep(s, s[j]);
      CountLessMonotone(s, s[j] + 1, s[i]);
      CountEqualPrefix(s, j, |s|, s[j]);
      assert s[..|s|] == s;
    } else if s[i] == s[j] && i < j {
      CountEqualPrefix(s, i, j, s[i]);
    }
  }

  /** No slot is written twice. */
  lemma SlotInjective(s: seq<nat>, i: nat, j: nat)
    requires i < |s| && j < |s| && i != j
    ensures Slot(s, i) != Slot(s, j)
  {
    SlotOrder(s, i, j);
    SlotOrder(s, j, i);
  }

  function Slots(s: seq<nat>): (r: seq<int>)
    ensures |r| == |s|
    ensures forall i :: 0 <= i < |s| ==> r[i] == Slot(s, i)
  {
    seq(|s|, i requires 0 <= i < |s| => Slot(s, i))
  }

  function Range(n: nat): (r: set<int>)
    ensures |r| == n
    ensures forall x :: x in r <==> 0 <= x < n
  {
    if n == 0 then {} else Range(n - 1) + {n - 1}
  }

  /** Every slot of the live prefix is written: the slots are a permutation. */
  lemma SlotOnto(s: seq<nat>, p: nat) returns (i: nat)
    requires p < |s|
    ensures i < |s| && Slot(s, i) == p
  {
    var slots := Slots(s);
    forall i, j | 0 <= i < j < |slots|
      ensures slots[i] != slots[j]
    {
      SlotInjective(s, i, j);
    }
    DistinctCardinality(slots);
    var image := set x | x in slots;
    forall x | x in image
      ensures x in Range(|s|)
    {
      var k :| 0 <= k < |slots| && slots[k] == x;
      SlotInRange(s, k);
    }
    if p !in image {
      assert image <= Range(|s|) - {p};
      SubsetCardinality(image, Range(|s|) - {p});
      assert false;
    }
    i :| 0 <= i < |slots| && slots[i] == p;
  }
}
