/** What the best elements over all slices are, and when the search for them loses a better
    one or keeps one twice. */
module PotentialLaws {
  import opened Base
  import opened Sums
  import opened PotentialTrackers

  predicate SameFile(a: Element, b: Element) {
    a.site == b.site && a.filename == b.filename
  }

  function OfFile(e: Element): Element -> int {
    (x: Element) => if SameFile(x, e) then 1 else 0
  }

  function Same(e: Element): Element -> int {
    (x: Element) => if x == e then 1 else 0
  }

  /** The duplicate test, which is left out for an element that is as good as all others. */
  predicate IsDuplicate(top: seq<Element>, e: Element) {
    First(top, Above(e.potential)) < |top| && exists x :: x in top && SameFile(x, e)
  }

  /** The element takes the place of another one. */
  predicate TakesPlace(top: seq<Element>, e: Element) {
    First(top, Above(e.potential)) > 0 && Leaver(top, e) < |top| && !IsDuplicate(top, e)
  }

  lemma ConsideredBy(top: seq<Element>, e: Element)
    ensures Considered(top, e) ==
            if TakesPlace(top, e) then Replaced(top, First(top, Above(e.potential)), Leaver(top, e), e) else top
  {
    hide First, Leaver, Replaced;
    assert (exists x :: x in top && SameFile(x, e)) <==>
           exists x :: x in top && x.site == e.site && x.filename == e.filename;
  }

  lemma ConsideredCounts(top: seq<Element>, e: Element, w: Element -> int)
    ensures Sum(Considered(top, e), w) ==
            Sum(top, w) + if TakesPlace(top, e) then w(e) - w(top[Leaver(top, e)]) else 0
  {
    hide Sum, First, Leaver, Replaced, Considered;
    ConsideredBy(top, e);
    if TakesPlace(top, e) {
      ReplacedSum(top, First(top, Above(e.potential)), Leaver(top, e), e, w);
    }
  }

  // ----- losing a better one -----

  /** There is one less of x afterwards. */
  predicate Loses(top: seq<Element>, e: Element, x: Element) {
    Sum(Considered(top, e), Same(x)) < Sum(top, Same(x))
  }

  /** A better element makes room for a worse one if and only if the element that leaves
      stands behind the place of the new one. */
  lemma LosesBetterExact(top: seq<Element>, e: Element)
    requires Ascending(top)
    ensures (exists x :: Loses(top, e, x) && x.potential > e.potential) <==>
            TakesPlace(top, e) && Leaver(top, e) >= First(top, Above(e.potential))
  {
    hide Sum, Leaver, Replaced, Considered, IsDuplicate;
    var p, r := First(top, Above(e.potential)), Leaver(top, e);
    if x :| Loses(top, e, x) && x.potential > e.potential {
      ConsideredCounts(top, e, Same(x));
      assert TakesPlace(top, e) && x == top[r];
    }
    if TakesPlace(top, e) && r >= p {
      AtLeast(top, e);
      ConsideredCounts(top, e, Same(top[r]));
      assert Loses(top, e, top[r]);
    }
  }

  lemma AtLeast(top: seq<Element>, e: Element)
    requires Ascending(top) && TakesPlace(top, e) && Leaver(top, e) >= First(top, Above(e.potential))
    ensures top[Leaver(top, e)].potential > e.potential
  {
    hide Leaver;
  }

  /** A site that has all its slots loses its better transfer to a worse one that is
      looked at later. */
  lemma BetterIsReplaced()
    ensures var top := [Element(Some(1), 1, 5, "a"), Element(Some(2), 1, 10, "b")];
            Considered(top, Element(Some(2), 1, 7, "c")) == [Element(Some(1), 1, 5, "a"), Element(Some(2), 1, 7, "c")]
  {
    var top := [Element(Some(1), 1, 5, "a"), Element(Some(2), 1, 10, "b")];
    var e := Element(Some(2), 1, 7, "c");
    assert First(top, Above(7)) == 1;
    assert First(top, SameSite(Some(2))) == 1;
    TwoSum(top[0], top[1], OfSite(Some(2)));
  }

  lemma TwoSum(a: Element, b: Element, w: Element -> int)
    ensures Sum([a, b], w) == w(a) + w(b)
  {
    assert [a, b] == [a] + [b];
    assert [a] == [] + [a];
    SumAppend([], a, w);
    SumAppend([a], b, w);
  }

  // ----- the same one twice -----

  /** An element that is at least as good as all others may be there twice. */
  lemma BestIsThereTwice(e: Element)
    requires e.site.Some? && e.dstupslots > 1
    ensures Considered([Blank(), e], e) == [e, e]
  {
    var top := [Blank(), e];
    assert First(top, Above(e.potential)) == 2;
    TwoSum(top[0], top[1], OfSite(e.site));
  }

  /** One more element of a file that is there already is let in if and only if it is as
      good as all others and the one that leaves is of another file. */
  lemma SecondCopyExact(top: seq<Element>, e: Element)
    requires Sum(top, OfFile(e)) > 0
    ensures Sum(Considered(top, e), OfFile(e)) > Sum(top, OfFile(e)) <==>
            First(top, Above(e.potential)) == |top| && Leaver(top, e) < |top| && !SameFile(top[Leaver(top, e)], e)
  {
    hide Sum, First, Leaver, Replaced, Considered;
    ConsideredCounts(top, e, OfFile(e));
    OneIsThere(top, e);
  }

  lemma OneIsThere(top: seq<Element>, e: Element)
    requires Sum(top, OfFile(e)) > 0
    ensures exists x :: x in top && SameFile(x, e)
  {
    if !exists x :: x in top && SameFile(x, e) {
      SumZero(top, OfFile(e));
    }
  }

  // ----- the best of all -----

  function Most(potential: nat, e: Element): nat {
    if potential < e.potential then e.potential else potential
  }

  /** The best one leaves for a worse one, and no other is as good. */
  predicate LosesBest(top: seq<Element>, e: Element) {
    && TakesPlace(top, e) && First(top, Above(e.potential)) < |top|
    && Leaver(top, e) == |top| - 1
    && |top| > 1 && top[|top| - 2].potential < top[|top| - 1].potential
  }

  function Last(top: seq<Element>): nat
    requires top != []
  {
    top[|top| - 1].potential
  }

  /** The last of the best stays the best of all that was considered, unless it leaves. */
  lemma BestLostExact(top: seq<Element>, e: Element)
    requires Ascending(top) && Leaver(top, e) < |top|
    ensures |Considered(top, e)| == |top|
    ensures Last(Considered(top, e)) == Most(Last(top), e) <==> !LosesBest(top, e)
  {
    hide Sum, Leaver, Replaced, Considered, SameFile;
    ConsideredBy(top, e);
    if TakesPlace(top, e) {
      LastReplaced(top, First(top, Above(e.potential)), Leaver(top, e), e);
    }
  }

  lemma LastReplaced(top: seq<Element>, p: nat, r: nat, e: Element)
    requires p <= |top| && r < |top|
    ensures var s := Replaced(top, p, r, e);
            && |s| == |top|
            && s[|s| - 1] == if p == |top| || (r == |top| - 1 && p == |top| - 1) then e
                             else if r == |top| - 1 then top[|top| - 2]
                             else top[|top| - 1]
  {
  }

  /** A site with more than one slot has another element before the best one. */
  lemma BestStays(up: Uploads, top: seq<Element>, e: Element)
    requires Proper(up, e) && forall site :: up(site) != 1
    ensures !LosesBest(top, e)
  {
    hide Sum, Ascending, SameFile;
    if LosesBest(top, e) {
      var init := top[..|top| - 1];
      assert top == init + [top[|top| - 1]];
      SumAppend(init, top[|top| - 1], OfSite(e.site));
      if e.site.Some? && Sum(top, OfSite(e.site)) == e.dstupslots {
        SumZero(init, OfSite(e.site));
      }
    }
  }

  lemma {:induction false} AllBelowLast(up: Uploads, top: seq<Element>, es: seq<Element>)
    requires Capped(up, top) && Ascending(top) && top != [] && forall site :: up(site) != 1
    requires forall e :: e in es ==> Proper(up, e)
    ensures var r := ConsideredAll(top, es);
            && Capped(up, r) && Ascending(r) && |r| == |top| && Last(r) >= Last(top)
            && forall e :: e in es ==> e.potential <= Last(r)
  {
    hide Capped, Ascending, Considered, Leaver, LosesBest, Proper;
    if es != [] {
      var init, e := es[..|es| - 1], es[|es| - 1];
      AllBelowLast(up, top, init);
      var was := ConsideredAll(top, init);
      ConsideredKeeps(up, was, e);
      BestStays(up, was, e);
      BestLostExact(was, e);
      assert es == init + [e];
    }
  }

  /** With no site that takes only one upload, the last of the best elements is as good as
      any element of any slice. */
  lemma {:induction false} BestIsLast(up: Uploads, slices: seq<seq<Element>>, n: nat)
    requires n > 0 && forall site :: up(site) != 1
    requires forall i :: 0 <= i < |slices| ==> Capped(up, slices[i])
    ensures var r := BestOf(slices, n);
            && Capped(up, r) && Ascending(r) && |r| == n
            && forall i, e :: 0 <= i < |slices| && e in slices[i] ==> e.potential <= Last(r)
  {
    hide Ascending, ConsideredAll, Proper;
    if slices == [] {
      PotentialTracker.BlanksOk(up, n);
    } else {
      var init, s := slices[..|slices| - 1], slices[|slices| - 1];
      BestIsLast(up, init, n);
      assert Capped(up, s);
      AllBelowLast(up, BestOf(init, n), s);
      forall i, e | 0 <= i < |slices| && e in slices[i]
        ensures e.potential <= Last(BestOf(slices, n))
      {
        assert i < |init| ==> slices[i] == init[i] && e.potential <= Last(BestOf(init, n));
      }
    }
  }

  /** An element of a site with free slots, better than all others, pushes out the worst. */
  lemma BetterThanAll(x: Element, y: Element, e: Element)
    requires x.potential <= y.potential <= e.potential
    requires e.site.Some? && x.site != e.site && y.site != e.site && e.dstupslots > 0
    ensures Considered([x, y], e) == [y, e]
  {
    hide Sum;
    var top := [x, y];
    assert First(top, Above(e.potential)) == 2;
    TwoSum(x, y, OfSite(e.site));
    assert Replaced(top, 2, 0, e) == [y, e];
  }

  /** A site with one slot: its best transfer of one slice is lost to another slice. */
  lemma BestIsLost()
    ensures var a, b, c := Element(Some(1), 1, 5, "a"), Element(Some(2), 1, 10, "b"), Element(Some(2), 1, 7, "c");
            BestOf([[a, b], [c]], 2) == [a, c]
  {
    hide Considered;
    var a, b, c := Element(Some(1), 1, 5, "a"), Element(Some(2), 1, 10, "b"), Element(Some(2), 1, 7, "c");
    var slices := [[a, b], [c]];
    BetterThanAll(Blank(), Blank(), a);
    BetterThanAll(Blank(), a, b);
    BetterIsReplaced();
    assert Blanks(2) == [Blank(), Blank()];
    assert [a, b][..1] == [a] && [a][..0] == [];
    assert ConsideredAll(Blanks(2), [a]) == [Blank(), a];
    assert ConsideredAll(Blanks(2), [a, b]) == [a, b];
    assert slices[..1] == [[a, b]] && [[a, b]][..0] == [];
    assert ConsideredSlices(Blanks(2), [[a, b]]) == [a, b];
  }

  // ----- the least of the best -----

  /** Nothing better was left out: only a file that is there already. */
  predicate Covers(top: seq<Element>, e: Element) {
    && top != []
    && (e.potential <= top[0].potential || exists x :: x in top && SameFile(x, e) && x.potential == e.potential)
  }

  /** A file is as good in one slice as in another. */
  ghost predicate Consistent(all: set<Element>) {
    forall a, b :: a in all && b in all && SameFile(a, b) ==> a.potential == b.potential
  }

  /** No site can use up its slots. */
  lemma WorstLeaves(up: Uploads, top: seq<Element>, e: Element)
    requires Proper(up, e) && top != [] && forall site :: up(site) >= |top|
    ensures Leaver(top, e) == 0
  {
    hide Sum;
    if e.site.Some? && Sum(top, OfSite(e.site)) == e.dstupslots && First(top, SameSite(e.site)) > 0 {
      SumAtMost(top[1..], OfSite(e.site));
      assert top == [top[0]] + top[1..];
      SumConcat([top[0]], top[1..], OfSite(e.site));
      assert [top[0]] == [] + [top[0]];
      SumAppend([], top[0], OfSite(e.site));
      SumZero([], OfSite(e.site));
    }
  }

  lemma {:induction false} SumAtMost(s: seq<Element>, w: Element -> int)
    requires forall x :: x in s ==> w(x) <= 1
    ensures Sum(s, w) <= |s|
  {
    if s != [] {
      SumAtMost(s[..|s| - 1], w);
    }
  }

  lemma CoversMore(up: Uploads, all: set<Element>, top: seq<Element>, e: Element, x: Element)
    requires Ascending(top) && top != [] && Proper(up, e) && forall site :: up(site) >= |top|
    requires Consistent(all) && e in all && forall y :: y in top ==> y in all
    requires x == e || Covers(top, x)
    ensures Covers(Considered(top, e), x)
  {
    hide Sum, Leaver, Considered, Consistent, Proper, IsDuplicate;
    var p := First(top, Above(e.potential));
    WorstLeaves(up, top, e);
    ConsideredBy(top, e);
    if TakesPlace(top, e) {
      PlaceCovers(top, p, e, x);
    } else {
      NoPlaceCovers(all, top, e, x);
    }
  }

  lemma PlaceCovers(top: seq<Element>, p: nat, e: Element, x: Element)
    requires Ascending(top) && 0 < p <= |top| && e.potential >= top[0].potential
    requires x == e || Covers(top, x)
    ensures Covers(Replaced(top, p, 0, e), x)
  {
    hide SameFile;
    var r := Replaced(top, p, 0, e);
    assert r == top[1..p] + [e] + top[p..];
    SameItself(e);
    assert e == r[p - 1];
    assert r[0] == if p > 1 then top[1] else e;
    if y :| y in top && SameFile(y, x) && y.potential == x.potential {
      var k: nat :| k < |top| && top[k] == y;
      assert k > 0 ==> y == r[if k < p then k - 1 else k];
    }
  }

  lemma SameItself(e: Element)
    ensures SameFile(e, e)
  {
  }

  lemma NoPlaceCovers(all: set<Element>, top: seq<Element>, e: Element, x: Element)
    requires top != [] && Leaver(top, e) == 0 && !TakesPlace(top, e)
    requires Consistent(all) && e in all && forall y :: y in top ==> y in all
    requires x == e || Covers(top, x)
    ensures Covers(top, x)
  {
    hide Leaver, SameFile;
  }

  lemma {:induction false} AllCovered(up: Uploads, all: set<Element>, top: seq<Element>, es: seq<Element>)
    requires Capped(up, top) && Ascending(top) && top != [] && forall site :: up(site) >= |top|
    requires Consistent(all) && (forall y :: y in top ==> y in all) && forall e :: e in es ==> e in all && Proper(up, e)
    ensures var r := ConsideredAll(top, es);
            && Capped(up, r) && Ascending(r) && |r| == |top| && (forall y :: y in r ==> y in all)
            && forall x :: x in es || Covers(top, x) ==> Covers(r, x)
  {
    hide Capped, Ascending, Considered, Leaver, Consistent, Covers, Proper;
    if es != [] {
      var init, e := es[..|es| - 1], es[|es| - 1];
      AllCovered(up, all, top, init);
      var was := ConsideredAll(top, init);
      ConsideredKeeps(up, was, e);
      assert es == init + [e];
      forall x | x in es || Covers(top, x)
        ensures Covers(Considered(was, e), x)
      {
        CoversMore(up, all, was, e, x);
      }
    }
  }

  /** When no site can use up its upload slots, and a file is as good in one slice as in
      another, every element better than the least of the best is among the best. */
  lemma {:induction false} NothingBetterLeft(up: Uploads, slices: seq<seq<Element>>, all: set<Element>, n: nat)
    requires n > 0 && (forall site :: up(site) >= n) && Consistent(all) && Blank() in all
    requires forall i :: 0 <= i < |slices| ==> Capped(up, slices[i]) && forall e :: e in slices[i] ==> e in all
    ensures var r := BestOf(slices, n);
            && Capped(up, r) && Ascending(r) && |r| == n && (forall y :: y in r ==> y in all)
            && forall i, e :: 0 <= i < |slices| && e in slices[i] ==> Covers(r, e)
  {
    hide Ascending, ConsideredAll, Proper, Consistent, Covers;
    if slices == [] {
      PotentialTracker.BlanksOk(up, n);
    } else {
      var init, s := slices[..|slices| - 1], slices[|slices| - 1];
      NothingBetterLeft(up, init, all, n);
      assert Capped(up, s);
      AllCovered(up, all, BestOf(init, n), s);
      forall i, e | 0 <= i < |slices| && e in slices[i]
        ensures Covers(BestOf(slices, n), e)
      {
        assert i < |init| ==> slices[i] == init[i] && Covers(BestOf(init, n), e);
      }
    }
  }
}
