/** How good the transfers of the last seconds were that a site could have taken part in:
    the best of them per slot, over a window of time slices. */
module PotentialTrackers {
  import opened Base
  import opened Sums

  const POTENTIALITY_SLICES: nat := 10

  /** A slot without a site has no potential. */
  datatype Element = Element(site: Option<nat>, dstupslots: nat, potential: nat, filename: string)

  function Blank(): Element {
    Element(None, 0, 0, "")
  }

  function Blanks(n: nat): seq<Element> {
    seq(n, i => Blank())
  }

  function OfSite(site: Option<nat>): Element -> int {
    (e: Element) => if e.site == site then 1 else 0
  }

  /** How many upload slots each site has. */
  type Uploads = nat -> nat

  predicate Proper(up: Uploads, e: Element) {
    match e.site
    case None => e == Blank()
    case Some(s) => e.potential > 0 && e.dstupslots == up(s) && up(s) > 0
  }

  /** No site has more slots than it can take uploads. */
  ghost predicate Capped(up: Uploads, s: seq<Element>) {
    && (forall e :: e in s ==> Proper(up, e))
    && (forall site :: Sum(s, OfSite(Some(site))) <= up(site))
  }

  predicate Ascending(s: seq<Element>) {
    forall i, j :: 0 <= i < j < |s| ==> s[i].potential <= s[j].potential
  }

  // ----- one slice -----

  predicate Eligible(slots: seq<Element>, allused: bool, dst: nat, i: nat)
    requires i < |slots|
  {
    allused ==> slots[i].site == Some(dst)
  }

  /** What a slice does with a new potential: it replaces a slot of the lowest potential,
      one of the same site if the site has all its slots already. */
  ghost predicate Updated(slots: seq<Element>, e: Element, r: seq<Element>, changed: bool)
    requires e.site.Some?
  {
    var allused := Sum(slots, OfSite(e.site)) == e.dstupslots;
    if changed then
      exists k: nat :: k < |slots| && Eligible(slots, allused, e.site.value, k) && slots[k].potential < e.potential &&
        r == slots[k := e] &&
        forall i :: 0 <= i < |slots| && Eligible(slots, allused, e.site.value, i) ==>
          slots[k].potential <= slots[i].potential
    else
      r == slots && forall i :: 0 <= i < |slots| && Eligible(slots, allused, e.site.value, i) ==>
        slots[i].potential >= e.potential
  }

  method CountSite(slots: seq<Element>, site: Option<nat>) returns (sitematch: int)
    ensures sitematch == Sum(slots, OfSite(site))
  {
    sitematch := 0;
    for i := 0 to |slots|
      invariant sitematch == Sum(slots[..i], OfSite(site))
    {
      assert slots[..i + 1][..i] == slots[..i];
      if slots[i].site == site {
        sitematch := sitematch + 1;
      }
    }
    assert slots[..|slots|] == slots;
  }

  method UpdateSlice(slots: seq<Element>, dst: nat, dstup: nat, potential: nat, filename: string)
    returns (r: seq<Element>, changed: bool)
    ensures Updated(slots, Element(Some(dst), dstup, potential, filename), r, changed)
  {
    hide Sum;
    var sitematch := CountSite(slots, Some(dst));
    var allslotsused := sitematch == dstup;
    var lowelem: Option<nat> := None;
    var lowest := 0;
    for i := 0 to |slots|
      invariant lowelem.Some? ==> lowelem.value < i && Eligible(slots, allslotsused, dst, lowelem.value) &&
                                  slots[lowelem.value].potential == lowest
      invariant forall j :: 0 <= j < i && Eligible(slots, allslotsused, dst, j) ==>
                lowelem.Some? && lowest <= slots[j].potential
    {
      if allslotsused && slots[i].site != Some(dst) {
        continue;
      }
      if lowelem.None? || slots[i].potential < lowest {
        lowest := slots[i].potential;
        lowelem := Some(i);
      }
    }
    if lowelem.Some? && lowest < potential {
      return slots[lowelem.value := Element(Some(dst), dstup, potential, filename)], true;
    }
    return slots, false;
  }

  /** A slice keeps each site within its slots, and no slot of it ever gets worse. */
  lemma UpdatedKeeps(up: Uploads, slots: seq<Element>, e: Element, r: seq<Element>, changed: bool)
    requires Capped(up, slots) && e.site.Some? && e.dstupslots == up(e.site.value) && Updated(slots, e, r, changed)
    ensures Capped(up, r) && |r| == |slots|
    ensures forall i :: 0 <= i < |slots| ==> slots[i].potential <= r[i].potential
  {
    hide Sum;
    if changed {
      var allused := Sum(slots, OfSite(e.site)) == e.dstupslots;
      var k: nat :| k < |slots| && Eligible(slots, allused, e.site.value, k) && slots[k].potential < e.potential &&
                    r == slots[k := e];
      forall site
        ensures Sum(r, OfSite(Some(site))) <= up(site)
      {
        SumUpdate(slots, k, e, OfSite(Some(site)));
      }
      SumAtLeast(slots, OfSite(e.site), k);
    }
  }

  // ----- the best over all slices -----

  /** The first element that is better than e. */
  function Above(potential: nat): Element -> bool {
    (x: Element) => potential < x.potential
  }

  function SameSite(site: Option<nat>): Element -> bool {
    (x: Element) => x.site == site
  }

  /** The element that makes room for e: the worst one, or one of the same site if the site
      has all its slots already. */
  function Leaver(top: seq<Element>, e: Element): (r: nat) {
    if e.site.Some? && Sum(top, OfSite(e.site)) == e.dstupslots then First(top, SameSite(e.site)) else 0
  }

  function Replaced(top: seq<Element>, p: nat, r: nat, e: Element): seq<Element>
    requires p <= |top| && r < |top|
  {
    if r < p then Without(top[..p], r) + [e] + top[p..] else top[..p] + [e] + Without(top[p..], r - p)
  }

  /** What one more element does to the best ones. An element that is better than all of
      them is not checked for being there already. */
  function Considered(top: seq<Element>, e: Element): seq<Element> {
    var p := First(top, Above(e.potential));
    var r := Leaver(top, e);
    if p == 0 || r >= |top| then top
    else if p < |top| && (exists x :: x in top && x.site == e.site && x.filename == e.filename) then top
    else Replaced(top, p, r, e)
  }

  /** Elements that are considered one after the other. */
  function ConsideredAll(top: seq<Element>, es: seq<Element>): seq<Element> {
    if es == [] then top
    else Considered(ConsideredAll(top, es[..|es| - 1]), es[|es| - 1])
  }

  function ConsideredSlices(top: seq<Element>, slices: seq<seq<Element>>): seq<Element> {
    if slices == [] then top
    else ConsideredAll(ConsideredSlices(top, slices[..|slices| - 1]), slices[|slices| - 1])
  }

  /** The best elements of all slices, the newest slice first. */
  function BestOf(slices: seq<seq<Element>>, n: nat): seq<Element> {
    ConsideredSlices(Blanks(n), slices)
  }

  lemma ReplacedSum(top: seq<Element>, p: nat, r: nat, e: Element, w: Element -> int)
    requires p <= |top| && r < |top|
    ensures Sum(Replaced(top, p, r, e), w) == Sum(top, w) - w(top[r]) + w(e)
  {
    hide Sum;
    if r < p {
      SumWithout(top[..p], r, w);
      ThreeParts(Without(top[..p], r), e, top[p..], w);
    } else {
      SumWithout(top[p..], r - p, w);
      ThreeParts(top[..p], e, Without(top[p..], r - p), w);
    }
    SumDrop(top, p, w);
  }

  lemma ThreeParts(a: seq<Element>, e: Element, b: seq<Element>, w: Element -> int)
    ensures Sum(a + [e] + b, w) == Sum(a, w) + w(e) + Sum(b, w)
  {
    hide Sum;
    SumConcat(a + [e], b, w);
    SumAppend(a, e, w);
  }

  lemma ReplacedMembers(top: seq<Element>, p: nat, r: nat, e: Element)
    requires p <= |top| && r < |top|
    ensures |Replaced(top, p, r, e)| == |top|
    ensures forall x :: x in Replaced(top, p, r, e) ==> x == e || x in top
  {
  }

  lemma ReplacedAscends(top: seq<Element>, p: nat, r: nat, e: Element)
    requires p <= |top| && r < |top| && Ascending(top)
    requires forall i :: 0 <= i < p ==> top[i].potential <= e.potential
    requires p < |top| ==> e.potential < top[p].potential
    ensures Ascending(Replaced(top, p, r, e))
  {
    hide Ascending;
    AscendingParts(top, p, e.potential);
    if r < p {
      AscendingWithout(top[..p], r);
      AscendingAround(Without(top[..p], r), e, top[p..]);
    } else {
      AscendingWithout(top[p..], r - p);
      AscendingAround(top[..p], e, Without(top[p..], r - p));
    }
  }

  lemma AscendingParts(top: seq<Element>, p: nat, potential: nat)
    requires p <= |top| && Ascending(top)
    requires forall i :: 0 <= i < p ==> top[i].potential <= potential
    requires p < |top| ==> potential < top[p].potential
    ensures Ascending(top[..p]) && Ascending(top[p..])
    ensures forall x :: x in top[..p] ==> x.potential <= potential
    ensures forall x :: x in top[p..] ==> potential < x.potential
  {
    forall i | p <= i < |top|
      ensures potential < top[i].potential
    {
    }
  }

  lemma AscendingWithout(s: seq<Element>, i: nat)
    requires i < |s| && Ascending(s)
    ensures Ascending(Without(s, i))
  {
    var r := Without(s, i);
    forall j, k | 0 <= j < k < |r|
      ensures r[j].potential <= r[k].potential
    {
      assert r[j] == s[if j < i then j else j + 1];
      assert r[k] == s[if k < i then k else k + 1];
    }
  }

  lemma AscendingAround(a: seq<Element>, e: Element, b: seq<Element>)
    requires Ascending(a) && Ascending(b)
    requires forall x :: x in a ==> x.potential <= e.potential
    requires forall x :: x in b ==> e.potential <= x.potential
    ensures Ascending(a + [e] + b)
  {
    var s := a + [e] + b;
    forall i, j | 0 <= i < j < |s|
      ensures s[i].potential <= s[j].potential
    {
      assert i < |a| ==> s[i] == a[i] && a[i] in a;
      assert j < |a| ==> s[j] == a[j];
      assert i > |a| ==> s[i] == b[i - |a| - 1];
      assert j > |a| ==> s[j] == b[j - |a| - 1] && b[j - |a| - 1] in b;
    }
  }

  /** The best ones stay ascending, as many as before, and each site within its slots. */
  lemma ConsideredKeeps(up: Uploads, top: seq<Element>, e: Element)
    requires Capped(up, top) && Ascending(top) && Proper(up, e)
    ensures Capped(up, Considered(top, e)) && Ascending(Considered(top, e)) && |Considered(top, e)| == |top|
    ensures forall x :: x in Considered(top, e) ==> x == e || x in top
    ensures top != [] ==> Leaver(top, e) < |top|
  {
    hide Sum;
    var p := First(top, Above(e.potential));
    var r := Leaver(top, e);
    LeaverExists(up, top, e);
    if p > 0 && r < |top| {
      ReplacedMembers(top, p, r, e);
      ReplacedAscends(top, p, r, e);
      forall site
        ensures Sum(Replaced(top, p, r, e), OfSite(Some(site))) <= up(site)
      {
        ReplacedSum(top, p, r, e, OfSite(Some(site)));
      }
    }
  }

  /** Room is always found, since a stored element is of a site that takes uploads. */
  lemma LeaverExists(up: Uploads, top: seq<Element>, e: Element)
    requires Proper(up, e)
    ensures top != [] ==> Leaver(top, e) < |top|
    ensures Leaver(top, e) < |top| && e.site.Some? && Sum(top, OfSite(e.site)) == e.dstupslots ==>
              top[Leaver(top, e)].site == e.site
  {
    if First(top, SameSite(e.site)) == |top| {
      SumZero(top, OfSite(e.site));
    }
  }

  lemma BlankChangesNothing(n: nat)
    ensures Considered(Blanks(n), Blank()) == Blanks(n)
  {
    assert First(Blanks(n), Above(0)) == n;
    if n > 0 {
      assert Replaced(Blanks(n), n, 0, Blank()) == Blanks(n);
    }
  }

  lemma {:induction false} BlanksChangeNothing(n: nat, m: nat)
    ensures ConsideredAll(Blanks(n), Blanks(m)) == Blanks(n)
  {
    hide Considered;
    if m > 0 {
      assert Blanks(m)[..m - 1] == Blanks(m - 1);
      BlanksChangeNothing(n, m - 1);
      BlankChangesNothing(n);
    }
  }

  lemma {:induction false} BestOfBlanks(slices: seq<seq<Element>>, n: nat)
    requires forall i :: 0 <= i < |slices| ==> slices[i] == Blanks(n)
    ensures BestOf(slices, n) == Blanks(n)
  {
    hide ConsideredAll;
    if slices != [] {
      BestOfBlanks(slices[..|slices| - 1], n);
      BlanksChangeNothing(n, n);
    }
  }

  lemma {:induction false} NoneStay(slices: seq<seq<Element>>)
    ensures BestOf(slices, 0) == []
  {
    if slices != [] {
      NoneStay(slices[..|slices| - 1]);
      NoneStayAll(slices[|slices| - 1]);
    }
  }

  lemma {:induction false} NoneStayAll(es: seq<Element>)
    ensures ConsideredAll([], es) == []
  {
    if es != [] {
      NoneStayAll(es[..|es| - 1]);
    }
  }

  /** Nothing is made up: an element that is in use comes from a slice. */
  ghost predicate FromSlices(slices: seq<seq<Element>>, top: seq<Element>) {
    forall e :: e in top ==> e == Blank() || exists i :: 0 <= i < |slices| && e in slices[i]
  }

  // ----- the tracker -----

  class PotentialTracker {
    /** The slices, the newest first. */
    var potentiallist: seq<seq<Element>>
    var top: seq<Element>
    var maxpotentialcalculated: bool
    ghost const up: Uploads

    ghost predicate Valid()
      reads this
    {
      && |potentiallist| == POTENTIALITY_SLICES
      && (forall i :: 0 <= i < |potentiallist| ==> Capped(up, potentiallist[i]))
      && (maxpotentialcalculated ==> Best())
    }

    /** What holds of the best elements when they have been worked out. */
    ghost predicate Best()
      reads this
    {
      top == BestOf(potentiallist, |top|) && Capped(up, top) && Ascending(top) && FromSlices(potentiallist, top)
    }

    constructor (dnslots: nat, ghost up: Uploads)
      ensures Valid() && this.up == up && top == Blanks(dnslots)
      ensures forall i :: 0 <= i < |potentiallist| ==> potentiallist[i] == Blanks(dnslots)
    {
      potentiallist := seq(POTENTIALITY_SLICES, i => Blanks(dnslots));
      top := Blanks(dnslots);
      maxpotentialcalculated := true;
      this.up := up;
      new;
      BlanksOk(up, dnslots);
      BestOfBlanks(potentiallist, dnslots);
    }

    static lemma BlanksOk(up: Uploads, n: nat)
      ensures Capped(up, Blanks(n)) && Ascending(Blanks(n))
      ensures forall e :: e in Blanks(n) ==> e == Blank()
    {
      forall site
        ensures Sum(Blanks(n), OfSite(Some(site))) == 0
      {
        SumZero(Blanks(n), OfSite(Some(site)));
      }
    }

    /** Lets one element take a place among the best. */
    method Consider(e: Element)
      requires top != [] && Proper(up, e) && Capped(up, top) && Ascending(top)
      modifies this`top
      ensures top == Considered(old(top), e)
    {
      hide Sum, Capped, Ascending, Leaver, Replaced, Above, First, Proper;
      LeaverExists(up, top, e);
      var itrpe := FindLeaver(e);
      var inserted, duplicate, lowscore := false, false, false;
      ghost var was := top;
      var ittop := 0;
      while ittop < |top| && !(inserted || duplicate || lowscore)
        invariant top == was && !inserted && !duplicate && !lowscore
        invariant ittop <= First(was, Above(e.potential))
        decreases |top| - ittop
      {
        if e.potential < top[ittop].potential {
          BetterAt(top, e, ittop);
          if ittop == 0 {
            lowscore := true;
            break;
          }
          duplicate := IsThere(e);
          if duplicate {
            break;
          }
          top := Replaced(top, ittop, itrpe, e);
          inserted := true;
          break;
        }
        ittop := ittop + 1;
        NotBelow(top, e, ittop);
      }
      if !lowscore && !duplicate && !inserted && e.potential >= top[|top| - 1].potential {
        top := Replaced(top, |top|, itrpe, e);
      }
      if !inserted && !duplicate && !lowscore {
        LastNotBelow(was, e);
      }
    }

    method FindLeaver(e: Element) returns (itrpe: nat)
      ensures itrpe == Leaver(top, e)
    {
      hide Sum;
      itrpe := 0;
      if e.site.Some? {
        var sitematch := CountSite(top, e.site);
        if sitematch == e.dstupslots {
          itrpe := FindFirstOfSite(e.site);
        }
      }
    }

    static lemma LastNotBelow(top: seq<Element>, e: Element)
      requires top != [] && First(top, Above(e.potential)) == |top|
      ensures e.potential >= top[|top| - 1].potential
    {
    }

    static lemma BetterAt(top: seq<Element>, e: Element, i: nat)
      requires i < |top| && i <= First(top, Above(e.potential)) && e.potential < top[i].potential
      ensures i == First(top, Above(e.potential))
    {
    }

    static lemma NotBelow(top: seq<Element>, e: Element, i: nat)
      requires 0 < i <= |top| && i - 1 <= First(top, Above(e.potential)) && e.potential >= top[i - 1].potential
      ensures i <= First(top, Above(e.potential))
    {
    }

    method FindFirstOfSite(site: Option<nat>) returns (k: nat)
      ensures k == First(top, SameSite(site))
    {
      for i := 0 to |top|
        invariant forall j :: 0 <= j < i ==> !SameSite(site)(top[j])
      {
        if top[i].site == site {
          return i;
        }
      }
      return |top|;
    }

    method IsThere(e: Element) returns (duplicate: bool)
      ensures duplicate <==> exists x :: x in top && x.site == e.site && x.filename == e.filename
    {
      for i := 0 to |top|
        invariant forall j :: 0 <= j < i ==> !(top[j].site == e.site && top[j].filename == e.filename)
      {
        if top[i].site == e.site && top[i].filename == e.filename {
          return true;
        }
      }
      return false;
    }

    /** Every element of one slice gets its chance. */
    method ConsiderSlice(k: nat)
      requires k < |potentiallist| && Capped(up, potentiallist[k])
      requires top != [] && Capped(up, top) && Ascending(top) && FromSlices(potentiallist, top)
      modifies this`top
      ensures top == ConsideredAll(old(top), potentiallist[k])
      ensures |top| == |old(top)| && Capped(up, top) && Ascending(top) && FromSlices(potentiallist, top)
    {
      hide Capped, Ascending, Considered, FromSlices;
      var slots := potentiallist[k];
      for n := 0 to |slots|
        invariant top == ConsideredAll(old(top), slots[..n])
        invariant |top| == |old(top)| && Capped(up, top) && Ascending(top) && FromSlices(potentiallist, top)
      {
        ProperIn(up, slots, n);
        ConsideredKeeps(up, top, slots[n]);
        StillFromSlices(potentiallist, top, k, slots[n], Considered(top, slots[n]));
        assert slots[..n + 1][..n] == slots[..n];
        Consider(slots[n]);
      }
      assert slots[..|slots|] == slots;
    }

    static lemma StillFromSlices(slices: seq<seq<Element>>, top: seq<Element>, k: nat, e: Element, r: seq<Element>)
      requires k < |slices| && e in slices[k] && FromSlices(slices, top)
      requires forall x :: x in r ==> x == e || x in top
      ensures FromSlices(slices, r)
    {
    }

    static lemma BlanksFromSlices(slices: seq<seq<Element>>, n: nat)
      ensures FromSlices(slices, Blanks(n))
    {
    }

    method CalculateMaxAvailablePotential()
      requires Valid() && top != []
      modifies this`top, this`maxpotentialcalculated
      ensures Valid() && |top| == |old(top)| && Best() && maxpotentialcalculated
    {
      hide Capped, Ascending, FromSlices, ConsideredAll;
      BlanksOk(up, |top|);
      BlanksFromSlices(potentiallist, |top|);
      top := Blanks(|top|);
      for i := 0 to |potentiallist|
        invariant top == ConsideredSlices(Blanks(|top|), potentiallist[..i])
        invariant |top| == |old(top)| && Capped(up, top) && Ascending(top) && FromSlices(potentiallist, top)
        modifies this`top
      {
        assert potentiallist[..i + 1][..i] == potentiallist[..i];
        ConsiderSlice(i);
      }
      assert potentiallist[..|potentiallist|] == potentiallist;
      maxpotentialcalculated := true;
    }

    static lemma ProperIn(up: Uploads, slots: seq<Element>, n: nat)
      requires Capped(up, slots) && n < |slots|
      ensures Proper(up, slots[n]) && slots[n] in slots
    {
    }

    /** The potential that the worst of the best has, or 0. */
    method GetMaxAvailablePotential() returns (potential: nat)
      requires Valid()
      modifies this`top, this`maxpotentialcalculated
      ensures Valid() && |top| == |old(top)| && Best()
      ensures if top == [] then potential == 0
              else potential == top[0].potential && forall e :: e in top ==> potential <= e.potential
    {
      if |top| == 0 {
        NoneBest(up, potentiallist, top);
        return 0;
      }
      if !maxpotentialcalculated {
        CalculateMaxAvailablePotential();
      }
      return top[0].potential;
    }

    static lemma NoneBest(up: Uploads, slices: seq<seq<Element>>, top: seq<Element>)
      requires top == []
      ensures Capped(up, top) && Ascending(top) && FromSlices(slices, top) && BestOf(slices, 0) == top
    {
      NoneStay(slices);
    }

    method PushPotential(score: nat, file: string, dst: nat, dstup: nat)
      requires Valid() && dstup == up(dst)
      modifies this`potentiallist, this`maxpotentialcalculated
      ensures Valid()
      ensures potentiallist[1..] == old(potentiallist)[1..] && |potentiallist[0]| == |old(potentiallist)[0]|
      ensures Updated(old(potentiallist)[0], Element(Some(dst), dstup, score, file), potentiallist[0],
                      potentiallist[0] != old(potentiallist)[0])
      ensures forall i :: 0 <= i < |potentiallist[0]| ==>
              old(potentiallist)[0][i].potential <= potentiallist[0][i].potential
    {
      hide Updated, Capped, Ascending, FromSlices, BestOf;
      var slice, changed := UpdateSlice(potentiallist[0], dst, dstup, score, file);
      UpdatedKeeps(up, potentiallist[0], Element(Some(dst), up(dst), score, file), slice, changed);
      SliceSame(potentiallist[0], Element(Some(dst), up(dst), score, file), slice, changed);
      if changed {
        maxpotentialcalculated := false;
      }
      assert !changed ==> potentiallist[0 := slice] == potentiallist;
      potentiallist := potentiallist[0 := slice];
    }

    static lemma SliceSame(slots: seq<Element>, e: Element, r: seq<Element>, changed: bool)
      requires e.site.Some? && Updated(slots, e, r, changed)
      ensures changed <==> r != slots
    {
    }

    /** A new slice begins: the oldest one is emptied and becomes the newest. */
    method Tick()
      requires Valid()
      modifies this`potentiallist, this`maxpotentialcalculated
      ensures Valid()
      ensures potentiallist ==
              [Blanks(|old(potentiallist)[POTENTIALITY_SLICES - 1]|)] + old(potentiallist)[..POTENTIALITY_SLICES - 1]
    {
      hide Capped;
      var last := potentiallist[|potentiallist| - 1];
      BlanksOk(up, |last|);
      potentiallist := [Blanks(|last|)] + potentiallist[..|potentiallist| - 1];
      maxpotentialcalculated := false;
    }

    /** Every slice and the best ones get another size; the best are worked out again when
        they are next asked for. */
    method UpdateSlots(dnslots: nat)
      requires Valid()
      modifies this
      ensures Valid() && top == Resized(old(top), dnslots)
      ensures |potentiallist| == |old(potentiallist)|
      ensures forall i :: 0 <= i < |potentiallist| ==> potentiallist[i] == Resized(old(potentiallist)[i], dnslots)
    {
      hide Capped, Ascending;
      ghost var was := potentiallist;
      for i := 0 to |potentiallist|
        invariant |potentiallist| == |was|
        invariant forall k :: 0 <= k < |was| ==> potentiallist[k] == if k < i then Resized(was[k], dnslots) else was[k]
        modifies this`potentiallist
      {
        potentiallist := potentiallist[i := Resized(potentiallist[i], dnslots)];
      }
      forall i | 0 <= i < |was|
        ensures Capped(up, Resized(was[i], dnslots))
      {
        ResizedCapped(up, was[i], dnslots);
      }
      top := Resized(top, dnslots);
      maxpotentialcalculated := false;
    }
  }

  /** Slots are taken off the end, or empty ones put there; the others stay. */
  function Resized(s: seq<Element>, n: nat): (r: seq<Element>)
    ensures |r| == n
    ensures forall i :: 0 <= i < n ==> r[i] == if i < |s| then s[i] else Blank()
  {
    if n <= |s| then s[..n] else s + Blanks(n - |s|)
  }

  lemma ResizedCapped(up: Uploads, s: seq<Element>, n: nat)
    requires Capped(up, s)
    ensures Capped(up, Resized(s, n))
  {
    hide Sum;
    forall site
      ensures Sum(Resized(s, n), OfSite(Some(site))) <= up(site)
    {
      if n <= |s| {
        SumDrop(s, n, OfSite(Some(site)));
        SumAtLeast(s[n..], OfSite(Some(site)), 0);
      } else {
        SumConcat(s, Blanks(n - |s|), OfSite(Some(site)));
        SumZero(Blanks(n - |s|), OfSite(Some(site)));
      }
    }
  }
}
