/** The board of possible transfers: an array of pooled elements whose first
    showsize entries are live, with one index by (source list, destination list,
    file name) and one by destination list. */
module ScoreBoards {
  import opened Base
  import opened CountingSort
  import opened ScoreBoardElements
  import opened ScoreBoardIndex

  const RESIZE_CHUNK: nat := 1000

  class ScoreBoard {
    var pool: seq<Element>
    var elements: seq<Handle>
    var elementstmp: seq<Handle>
    var showsize: nat
    var elementlocator: Locator
    var destinationlocator: DestinationLocator

    /** The board as its users see it. */
    ghost var Rows: map<Key, Row>
    ghost var Holder: map<Key, Handle>
    ghost var Ids: map<Handle, Key>
    ghost var Pos: map<Handle, nat>

    ghost predicate Valid()
      reads this
    {
      && |elementstmp| == |elements|
      && BoardOk(pool, elements, showsize, elementlocator, destinationlocator, Rows, Holder, Ids, Pos)
    }

    constructor ()
      ensures Valid() && Rows == map[]
    {
      pool, elements, elementstmp, showsize := [], [], [], 0;
      elementlocator, destinationlocator := map[], map[];
      Rows, Holder, Ids, Pos := map[], map[], map[], map[];
    }

    method Find(k: Key) returns (r: Option<Handle>)
      requires Valid()
      ensures r.Some? <==> k in Rows
      ensures r.Some? ==> r.value < |pool| && pool[r.value] == Element(k, Rows[k])
      ensures r.Some? ==> k in Holder && r.value == Holder[k]
    {
      hide PoolOk, DestinationOk, PrefixOk;
      assert Locate(elementlocator, k) == if k in Holder then Some(Holder[k]) else None;
      if k.src !in elementlocator {
        return None;
      }
      var fldmap := elementlocator[k.src];
      if k.dst !in fldmap {
        return None;
      }
      var filemap := fldmap[k.dst];
      if k.name !in filemap {
        return None;
      }
      return Some(filemap[k.name]);
    }

    /** Makes sure that there is a spare element after the live prefix, and that it
        carries the given content. */
    method PrepareSpare(k: Key, row: Row)
      requires Valid() && row.score < USHORT_MAX
      modifies this
      ensures Valid()
      ensures Rows == old(Rows) && showsize == old(showsize) < |elements|
      ensures elements[showsize] < |pool| && pool[elements[showsize]] == Element(k, row)
    {
      hide LocatorOk, DestinationOk, Inverse, ContentOk, Distinct;
      if showsize == |elements| {
        PoolGrow(pool, elements, RESIZE_CHUNK, Element(k, row));
        PrefixGrow(elements, showsize, Ids, Pos, NewHandles(|pool|, RESIZE_CHUNK));
        ContentGrow(pool, Rows, Holder, Ids, seq(RESIZE_CHUNK, i => Element(k, row)));
        elements := elements + NewHandles(|pool|, RESIZE_CHUNK);
        elementstmp := elementstmp + seq(RESIZE_CHUNK, i => 0);
        pool := pool + seq(RESIZE_CHUNK, i => Element(k, row));
      } else {
        PrefixAdd(elements, showsize, Ids, Pos, k);
        PoolSet(pool, elements, elements[showsize], Element(k, row));
        ContentSpare(pool, Rows, Holder, Ids, elements[showsize], Element(k, row));
        pool := pool[elements[showsize] := Element(k, row)];
      }
    }

    /** Puts the first spare element into both indexes and makes it live. */
    method Link(k: Key, row: Row)
      requires Valid() && k !in Rows
      requires showsize < |elements|
      requires elements[showsize] < |pool| && pool[elements[showsize]] == Element(k, row)
      modifies this
      ensures Valid()
      ensures Rows == old(Rows)[k := row]
    {
      hide BoardOk, Enter, Insert;
      LinkNext(pool, elements, showsize, elementlocator, destinationlocator, Rows, Holder, Ids, Pos, k, row);
      var e := elements[showsize];
      elementlocator := Enter(elementlocator, k, e);
      destinationlocator := Insert(destinationlocator, k.dst, e);
      Holder, Ids, Pos := Holder[k := e], Ids[e := k], Pos[e := showsize];
      showsize := showsize + 1;
      Rows := Rows[k := row];
    }

    /** Adds the key, or refreshes its score and size. */
    method Update(k: Key, score: nat, filesize: nat, prio: PrioType)
      requires Valid() && score < USHORT_MAX
      modifies this
      ensures Valid()
      ensures Rows == old(Rows)[k := if k in old(Rows) then Refreshed(old(Rows)[k], score, filesize)
                                     else NewRow(score, filesize, prio)]
      ensures Rows[k].score == score && Rows[k].filesize == filesize && !Rows[k].attempted
      ensures k in old(Rows) ==> Rows[k].prio == old(Rows)[k].prio && Rows[k].skipchecked == old(Rows)[k].skipchecked
      ensures k !in old(Rows) ==> Rows[k].prio == prio && !Rows[k].skipchecked
    {
      hide BoardOk;
      var found := Find(k);
      if found.Some? {
        var row := Refreshed(pool[found.value].row, score, filesize);
        RowChange(pool, elements, showsize, elementlocator, destinationlocator, Rows, Holder, Ids, Pos, k, row);
        pool := pool[found.value := Element(k, row)];
        Rows := Rows[k := row];
        return;
      }
      PrepareSpare(k, NewRow(score, filesize, prio));
      Link(k, NewRow(score, filesize, prio));
    }

    /** Takes out the key whose element is the last live one. */
    method UnlinkLast(k: Key, sbe: Handle)
      requires Valid() && k in Rows && k in Holder && Holder[k] == sbe
      requires 0 < showsize <= |elements| && elements[showsize - 1] == sbe
      modifies this
      ensures Valid() && elements == old(elements) && showsize == old(showsize) - 1
      ensures Rows == Without(old(Rows), k, k)
    {
      hide BoardOk, Locate, Enter, Insert, Leave, Erase;
      LiveElement(pool, elements, showsize, elementlocator, destinationlocator, Rows, Holder, Ids, Pos, k);
      RemoveLast(pool, elements, showsize, elementlocator, destinationlocator, Rows, Holder, Ids, Pos, k);
      Relink(pool, Leave(elementlocator, k), Erase(destinationlocator, pool[sbe].id.dst, sbe), showsize - 1,
             Without(Rows, k, k), Holder - {k}, Ids - {sbe}, Pos - {sbe});
    }

    /** Takes out a key and copies the last live element, which is q's, into its place. */
    method UnlinkMoving(k: Key, sbe: Handle, last: Handle, ghost q: Key)
      requires Valid() && k in Rows && k in Holder && Holder[k] == sbe && sbe != last
      requires 0 < showsize <= |elements| && elements[showsize - 1] == last
      requires last in Ids && Ids[last] == q
      modifies this
      ensures Valid() && elements == old(elements) && showsize == old(showsize) - 1
      ensures q in old(Rows) && Rows == Without(old(Rows), k, q)
    {
      hide BoardOk, Locate, Enter, Insert, Leave, Erase, MovedIds, Without;
      LiveElement(pool, elements, showsize, elementlocator, destinationlocator, Rows, Holder, Ids, Pos, k);
      RemoveMoving(pool, elements, showsize, elementlocator, destinationlocator, Rows, Holder, Ids, Pos, k, last, q);
      var copy := Element(pool[last].id, Settled(pool[last].row));
      var dl := Erase(destinationlocator, pool[sbe].id.dst, sbe);
      Relink(pool[sbe := copy], Enter(Leave(elementlocator, k), copy.id, sbe),
             Insert(Erase(dl, copy.id.dst, last), copy.id.dst, sbe), showsize - 1,
             Without(Rows, k, q), (Holder - {k})[q := sbe], MovedIds(Ids, sbe, last), Pos - {last});
    }

    /** Takes over new contents of all fields but the array. */
    method Relink(p: seq<Element>, loc: Locator, dl: DestinationLocator, n: nat, ghost rows: map<Key, Row>,
                  ghost holder: map<Key, Handle>, ghost ids: map<Handle, Key>, ghost pos: map<Handle, nat>)
      requires |elementstmp| == |elements| && BoardOk(p, elements, n, loc, dl, rows, holder, ids, pos)
      modifies this
      ensures Valid() && elements == old(elements) && showsize == n && Rows == rows
    {
      hide BoardOk;
      pool, elementlocator, destinationlocator, showsize := p, loc, dl, n;
      Rows, Holder, Ids, Pos := rows, holder, ids, pos;
    }

    /** Deletes one key. The last live element is copied into the freed place, which
        clears that row's two flags. */
    method Remove(k: Key) returns (removed: bool)
      requires Valid()
      modifies this
      ensures Valid() && elements == old(elements)
      ensures removed <==> k in old(Rows)
      ensures !removed ==> Rows == old(Rows) && showsize == old(showsize)
      ensures removed ==> 0 < old(showsize) && showsize == old(showsize) - 1
      ensures removed ==>
                var moved := old(pool[elements[showsize - 1]].id);
                moved in old(Rows) && Rows == Without(old(Rows), k, moved)
    {
      hide BoardOk, Locate, Without;
      var found := Find(k);
      if found.None? {
        return false;
      }
      LiveElement(pool, elements, showsize, elementlocator, destinationlocator, Rows, Holder, Ids, Pos, k);
      var sbe := found.value;
      var last := elements[showsize - 1];
      if sbe != last {
        UnlinkMoving(k, sbe, last, Ids[last]);
      } else {
        UnlinkLast(k, sbe);
      }
      return true;
    }

    // ----- ordering -----

    function Scores(): (s: seq<nat>)
      requires Valid()
      reads this
    {
      BoardBounds();
      LiveScores(pool, elements, showsize)
    }

    method CountScores() returns (count: array<nat>)
      requires Valid()
      ensures fresh(count) && count.Length == USHORT_MAX
      ensures forall v :: 0 <= v < USHORT_MAX ==> count[v] == CountEqual(Scores(), v)
    {
      hide LocatorOk, DestinationOk, Inverse, ContentOk;
      ghost var s := Scores();
      count := new nat[USHORT_MAX](_ => 0);
      for i := 0 to showsize
        invariant forall v :: 0 <= v < USHORT_MAX ==> count[v] == CountEqual(s[..i], v)
      {
        var score := pool[elements[i]].row.score;
        count[score] := count[score] + 1;
        assert s[..i + 1][..i] == s[..i];
      }
      assert s[..showsize] == s;
    }

    static method BucketPositions(count: array<nat>, ghost s: seq<nat>, n: nat) returns (bucketpositions: array<int>)
      requires count.Length == USHORT_MAX && |s| == n
      requires forall v :: 0 <= v < USHORT_MAX ==> count[v] == CountEqual(s, v)
      ensures fresh(bucketpositions) && bucketpositions.Length == USHORT_MAX
      ensures forall v :: 0 <= v < USHORT_MAX ==> bucketpositions[v] == n - 1 - CountLess(s, v)
    {
      bucketpositions := new int[USHORT_MAX];
      var currentpos := n - 1;
      CountNone(s);
      for i := 0 to USHORT_MAX
        invariant currentpos == n - 1 - CountLess(s, i)
        invariant forall v :: 0 <= v < i ==> bucketpositions[v] == n - 1 - CountLess(s, v)
      {
        bucketpositions[i] := currentpos;
        CountLessStep(s, i);
        currentpos := currentpos - count[i];
      }
    }

    /** Writes each live element to its slot of the temporary array. */
    method Scatter(bucketpositions: array<int>, ghost s: seq<nat>)
      requires Valid() && s == Scores() && bucketpositions.Length == USHORT_MAX
      requires forall v :: 0 <= v < USHORT_MAX ==> bucketpositions[v] == showsize - 1 - CountLess(s, v)
      modifies this`elementstmp, bucketpositions
      ensures |elementstmp| == |elements|
      ensures forall k {:trigger Slot(s, k)} :: 0 <= k < showsize ==>
                0 <= Slot(s, k) < showsize && elementstmp[Slot(s, k)] == elements[k]
    {
      hide LocatorOk, DestinationOk, Inverse, ContentOk, Distinct, CountEqual, CountLess, Slot;
      NoneYet(s);
      for i := 0 to showsize
        invariant |elementstmp| == |elements|
        invariant forall v :: 0 <= v < USHORT_MAX ==>
                    bucketpositions[v] == showsize - 1 - CountLess(s, v) - CountEqual(s[..i], v)
        invariant forall k {:trigger Slot(s, k)} :: 0 <= k < i ==>
                    0 <= Slot(s, k) < showsize && elementstmp[Slot(s, k)] == elements[k]
      {
        var currentelem := elements[i];
        var score := pool[currentelem].row.score;
        NextSlot(s, i);
        elementstmp := elementstmp[bucketpositions[score] := currentelem];
        bucketpositions[score] := bucketpositions[score] - 1;
      }
    }

    static lemma NoneYet(s: seq<nat>)
      ensures forall v :: CountEqual(s[..0], v) == 0
    {
    }

    static lemma NextSlot(s: seq<nat>, i: nat)
      requires i < |s|
      ensures Slot(s, i) == |s| - 1 - CountLess(s, s[i]) - CountEqual(s[..i], s[i])
      ensures 0 <= Slot(s, i) < |s|
      ensures forall k :: 0 <= k < i ==> Slot(s, k) != Slot(s, i)
      ensures forall v :: CountEqual(s[..i + 1], v) == CountEqual(s[..i], v) + if v == s[i] then 1 else 0
    {
      SlotInRange(s, i);
      forall k | 0 <= k < i
        ensures Slot(s, k) != Slot(s, i)
      {
        SlotInjective(s, k, i);
      }
      assert s[..i + 1][..i] == s[..i];
    }

    method CopyBack()
      requires showsize <= |elements| == |elementstmp|
      modifies this`elements
      ensures elements == elementstmp[..showsize] + old(elements)[showsize..]
    {
      for i := 0 to showsize
        invariant elements == elementstmp[..i] + old(elements)[i..]
      {
        elements := elements[i := elementstmp[i]];
      }
    }

    /** Sorts by descending score in one pass; equal scores end up in reversed order. */
    method Sort()
      requires Valid()
      modifies this
      ensures Valid() && Rows == old(Rows) && pool == old(pool) && showsize == old(showsize)
      ensures Permutes(old(elements), elements, showsize, Slots(old(Scores())))
      ensures Descending(Scores())
    {
      hide BoardOk, Permutes, Descending, Slot, Distinct;
      BoardBounds();
      var count := CountScores();
      ghost var s, was := Scores(), elements;
      var bucketpositions := BucketPositions(count, s, showsize);
      Scatter(bucketpositions, s);
      CopyBack();
      SortKeeps(pool, was, elements, showsize, elementlocator, destinationlocator, Rows, Holder, Ids, Pos, s);
      Pos := MovedPos(Pos, Slots(s));
    }

    /** Brings the places firstpos to lastpos, which all have the same score, into
        some order. */
    method Shuffle(firstpos: nat, lastpos: nat)
      requires Valid() && firstpos <= lastpos < showsize
      requires forall p, q :: firstpos <= p <= q <= lastpos ==> Scores()[p] == Scores()[q]
      modifies this`elements, this`Pos
      ensures Valid() && Scores() == old(Scores())
      ensures multiset(elements) == multiset(old(elements))
      ensures |elements| == |old(elements)|
      ensures forall p :: 0 <= p < |elements| && !(firstpos <= p <= lastpos) ==> elements[p] == old(elements[p])
    {
      hide BoardOk, Swapped;
      BoardBounds();
      for i := firstpos to lastpos
        invariant Valid() && Scores() == old(Scores())
        invariant multiset(elements) == multiset(old(elements))
        invariant |elements| == |old(elements)|
        invariant forall p :: 0 <= p < |elements| && !(firstpos <= p <= lastpos) ==> elements[p] == old(elements[p])
      {
        var rand: nat := *;
        var swappos := i + rand % (lastpos - i + 1);
        SwapKeeps(i, swappos);
        Pos := MovedPos(Pos, SwapPlaces(showsize, i, swappos));
        elements := Swapped(elements, i, swappos);
      }
    }

    lemma BoardBounds()
      requires Valid()
      ensures showsize <= |elements| && |elementstmp| == |elements|
      ensures forall i :: 0 <= i < |elements| ==> elements[i] < |pool|
    {
    }

    lemma SwapKeeps(i: nat, j: nat)
      requires Valid() && i < showsize && j < showsize <= |elements| && Scores()[i] == Scores()[j]
      ensures forall h :: h in Pos ==> Pos[h] < showsize
      ensures forall p :: 0 <= p < |elements| && p != i && p != j ==> Swapped(elements, i, j)[p] == elements[p]
      ensures var es := Swapped(elements, i, j);
              && BoardOk(pool, es, showsize, elementlocator, destinationlocator, Rows, Holder, Ids,
                         MovedPos(Pos, SwapPlaces(showsize, i, j)))
              && LiveScores(pool, es, showsize) == Scores()
    {
      hide LocatorOk, DestinationOk, Inverse, ContentOk, Distinct;
      SwapPermutes(elements, showsize, i, j);
      BoardPermute(pool, elements, Swapped(elements, i, j), showsize, elementlocator, destinationlocator,
                   Rows, Holder, Ids, Pos, SwapPlaces(showsize, i, j));
    }

    /** Shuffles every run of equal scores. */
    method ShuffleEquals()
      requires Valid()
      modifies this`elements, this`Pos
      ensures Valid() && Scores() == old(Scores())
      ensures multiset(elements) == multiset(old(elements))
    {
      hide BoardOk;
      BoardBounds();
      if showsize == 0 {
        return;
      }
      var lastscore := 0;
      var equalstart := 0;
      for i := 0 to showsize
        invariant Valid() && Scores() == old(Scores())
        invariant multiset(elements) == multiset(old(elements))
        invariant i > 0 ==> equalstart < i
        invariant equalstart == 0 || i > 0
        invariant forall p :: equalstart <= p < i ==> Scores()[p] == lastscore
      {
        ElementScore(i);
        var score := pool[elements[i]].row.score;
        if score != lastscore {
          if i > 0 {
            Shuffle(equalstart, i - 1);
          }
          equalstart := i;
          lastscore := score;
        }
      }
      Shuffle(equalstart, showsize - 1);
    }

    lemma ElementScore(i: nat)
      requires Valid() && i < showsize
      ensures i < |elements| && elements[i] < |pool|
      ensures Scores()[i] == pool[elements[i]].row.score
      ensures pool[elements[i]].id in Rows && Rows[pool[elements[i]].id] == pool[elements[i]].row
    {
    }

    /** The place of a live element in the array. */
    ghost function Place(k: Key): (p: nat)
      requires Valid() && k in Rows
      reads this
      ensures p < showsize <= |elements| && elements[p] < |pool| && pool[elements[p]].id == k
    {
      Pos[Holder[k]]
    }

    lemma PlaceIs(i: nat)
      requires Valid() && i < showsize
      ensures i < |elements| && elements[i] < |pool|
      ensures pool[elements[i]].id in Rows && Place(pool[elements[i]].id) == i
    {
    }

    lemma HeldPlace(i: nat)
      requires Valid() && i < showsize
      ensures i < |elements| && elements[i] < |pool|
      ensures var k := pool[elements[i]].id;
              k in Rows && k in Holder && Holder[k] == elements[i]
    {
    }

    // ----- dropping a list -----

    /** The keys from fl to fld, in some order. */
    method CollectPair(fl: ListId, fld: ListId) returns (keys: seq<Key>)
      requires Valid() && fl in elementlocator && fld in elementlocator[fl]
      ensures forall k :: k in keys <==> k in Rows && k.src == fl && k.dst == fld
    {
      hide PoolOk, DestinationOk, PrefixOk;
      keys := [];
      var names := elementlocator[fl][fld].Keys;
      forall k: Key | k.src == fl && k.dst == fld
        ensures k in Rows <==> k.name in names
      {
        assert Locate(elementlocator, k).Some? <==> k.name in names;
      }
      while names != {}
        invariant names <= elementlocator[fl][fld].Keys
        invariant forall k :: k in keys <==> k in Rows && k.src == fl && k.dst == fld && k.name !in names
      {
        var name :| name in names;
        var sbe := elementlocator[fl][fld][name];
        assert Locate(elementlocator, Key(name, fl, fld)) == Some(sbe);
        keys := keys + [pool[sbe].id];
        names := names - {name};
      }
    }

    /** The keys whose source is fl, in some order. */
    method CollectFrom(fl: ListId) returns (keys: seq<Key>)
      requires Valid()
      ensures forall k :: k in keys <==> k in Rows && k.src == fl
    {
      hide PoolOk, DestinationOk, PrefixOk;
      keys := [];
      if fl !in elementlocator {
        forall k: Key | k.src == fl
          ensures k !in Rows
        {
          assert Locate(elementlocator, k).None?;
        }
        return;
      }
      forall k | k in Rows && k.src == fl
        ensures k.dst in elementlocator[fl]
      {
        assert Locate(elementlocator, k).Some?;
      }
      var flds := elementlocator[fl].Keys;
      while flds != {}
        invariant flds <= elementlocator[fl].Keys
        invariant forall k :: k in keys <==> k in Rows && k.src == fl && k.dst !in flds
      {
        var fld :| fld in flds;
        var more := CollectPair(fl, fld);
        keys := keys + more;
        flds := flds - {fld};
      }
    }

    /** The keys whose destination is fl, in some order. */
    method CollectTo(fl: ListId) returns (keys: seq<Key>)
      requires Valid()
      ensures forall k :: k in keys <==> k in Rows && k.dst == fl
    {
      hide BoardOk;
      keys := [];
      HeldAt(fl);
      if fl in destinationlocator {
        var rest := destinationlocator[fl];
        while rest != {}
          invariant rest <= destinationlocator[fl]
          invariant forall k :: k in keys <==> k in Rows && k.dst == fl && Holder[k] !in rest
        {
          var sbe :| sbe in rest;
          keys := keys + [pool[sbe].id];
          HeldId(pool[sbe].id);
          rest := rest - {sbe};
        }
      }
    }

    /** The flags of one element are set through the pointer to it. */
    method SetRow(h: Handle, ghost k: Key, row: Row)
      requires Valid() && k in Rows && k in Holder && h == Holder[k] && row.score < USHORT_MAX
      modifies this`pool, this`Rows
      ensures Valid() && Rows == old(Rows)[k := row]
      ensures |pool| == |old(pool)| && forall i :: 0 <= i < |pool| ==> pool[i].id == old(pool)[i].id
    {
      hide BoardOk;
      RowChange(pool, elements, showsize, elementlocator, destinationlocator, Rows, Holder, Ids, Pos, k, row);
      HeldId(k);
      pool := pool[h := pool[h].(row := row)];
      Rows := Rows[k := row];
    }

    lemma HeldId(k: Key)
      requires Valid() && k in Rows
      ensures k in Holder && Holder[k] < |pool| && pool[Holder[k]] == Element(k, Rows[k])
      ensures Rows[k].score < USHORT_MAX
    {
    }

    lemma HeldAt(fl: ListId)
      requires Valid()
      ensures forall k :: k in Rows && k.dst == fl ==>
                fl in destinationlocator && k in Holder && Holder[k] in destinationlocator[fl] &&
                Holder[k] < |pool| && pool[Holder[k]].id == k
      ensures fl in destinationlocator ==> forall e :: e in destinationlocator[fl] ==>
                e < |pool| && pool[e].id in Rows && pool[e].id.dst == fl &&
                pool[e].id in Holder && Holder[pool[e].id] == e
    {
      hide PoolOk, LocatorOk, PrefixOk;
      forall k | k in Rows && k.dst == fl
        ensures fl in destinationlocator && k in Holder && Holder[k] in destinationlocator[fl]
      {
        assert Listed(destinationlocator, Ids[Holder[k]].dst, Holder[k]);
      }
    }

    /** Makes the skip check of every transfer to fl due again. */
    method ResetSkipChecked(fl: ListId)
      requires Valid()
      modifies this`pool, this`Rows
      ensures Valid() && Rows == SkipUnchecked(old(Rows), fl)
    {
      hide BoardOk;
      HeldAt(fl);
      if fl in destinationlocator {
        var rest := destinationlocator[fl];
        while rest != {}
          invariant Valid() && rest <= destinationlocator[fl]
          invariant |pool| == |old(pool)| && forall i :: 0 <= i < |pool| ==> pool[i].id == old(pool)[i].id
          invariant Rows.Keys == old(Rows).Keys
          invariant forall k :: k in Rows ==>
                      Rows[k] == if k.dst == fl && Holder[k] !in rest then old(Rows)[k].(skipchecked := false)
                                 else old(Rows)[k]
        {
          var sbe :| sbe in rest;
          HeldId(pool[sbe].id);
          SetRow(sbe, pool[sbe].id, pool[sbe].row.(skipchecked := false));
          rest := rest - {sbe};
        }
      }
    }

    /** Deletes exactly the keys that mention fl. */
    method Wipe(fl: ListId)
      requires Valid()
      modifies this
      ensures Valid()
      ensures Rows.Keys == set k | k in old(Rows) && !Mentions(k, fl)
      ensures forall k :: k in Rows ==> SameData(Rows[k], old(Rows)[k])
    {
      hide BoardOk;
      var from := CollectFrom(fl);
      var to := CollectTo(fl);
      var removelist := from + to;
      for i := 0 to |removelist|
        invariant Valid()
        invariant Rows.Keys == set k | k in old(Rows) && k !in removelist[..i]
        invariant forall k :: k in Rows ==> SameData(Rows[k], old(Rows)[k])
      {
        var removed := Remove(removelist[i]);
        assert removelist[..i + 1] == removelist[..i] + [removelist[i]];
      }
      assert removelist[..|removelist|] == removelist;
      assert forall k :: k in Rows ==> !Mentions(k, fl);
      BoardForget(pool, elements, showsize, elementlocator, destinationlocator, Rows, Holder, Ids, Pos, fl);
      elementlocator := elementlocator - {fl};
      destinationlocator := destinationlocator - {fl};
      if showsize == 0 {
        NothingLive(pool, elements, elementlocator, destinationlocator, Rows, Holder, Ids, Pos);
        WipeAll();
      }
    }

    method WipeAll()
      requires Valid()
      modifies this
      ensures Valid() && Rows == map[] && showsize == 0
    {
      BoardEmpty(pool, elements);
      showsize := 0;
      elementlocator, destinationlocator := map[], map[];
      Rows, Holder, Ids, Pos := map[], map[], map[], map[];
    }
  }
}
