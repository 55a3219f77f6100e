/** The two hash indexes of the score board, as values, and what keeps them in
    agreement with the live prefix of the element array. */
module ScoreBoardIndex {
  import opened Base
  import opened CountingSort
  import opened ScoreBoardElements

  type Locator = map<ListId, map<ListId, map<string, Handle>>>
  type DestinationLocator = map<ListId, set<Handle>>

  // ----- elementlocator: source list, then destination list, then file name -----

  function Locate(loc: Locator, k: Key): Option<Handle> {
    if k.src in loc && k.dst in loc[k.src] && k.name in loc[k.src][k.dst]
    then Some(loc[k.src][k.dst][k.name]) else None
  }

  function Enter(loc: Locator, k: Key, e: Handle): Locator {
    var fldmap: map<ListId, map<string, Handle>> := if k.src in loc then loc[k.src] else map[];
    var filemap: map<string, Handle> := if k.dst in fldmap then fldmap[k.dst] else map[];
    loc[k.src := fldmap[k.dst := filemap[k.name := e]]]
  }

  function Leave(loc: Locator, k: Key): Locator
    requires Locate(loc, k).Some?
  {
    loc[k.src := loc[k.src][k.dst := loc[k.src][k.dst] - {k.name}]]
  }

  // ----- destinationlocator -----

  predicate Listed(dl: DestinationLocator, fl: ListId, e: Handle) {
    fl in dl && e in dl[fl]
  }

  function Insert(dl: DestinationLocator, fl: ListId, e: Handle): DestinationLocator {
    dl[fl := (if fl in dl then dl[fl] else {}) + {e}]
  }

  function Erase(dl: DestinationLocator, fl: ListId, e: Handle): DestinationLocator {
    dl[fl := (if fl in dl then dl[fl] else {}) - {e}]
  }

  // ----- agreement -----

  /** holder is elementlocator without its nesting. */
  ghost predicate LocatorOk(loc: Locator, holder: map<Key, Handle>) {
    forall k {:trigger Locate(loc, k)} :: Locate(loc, k) == if k in holder then Some(holder[k]) else None
  }

  ghost predicate DestinationOk(dl: DestinationLocator, ids: map<Handle, Key>) {
    && (forall e :: e in ids ==> Listed(dl, ids[e].dst, e))
    && (forall fl :: fl in dl ==> forall e :: e in dl[fl] ==> e in ids && ids[e].dst == fl)
  }

  /** Keys and live elements correspond one to one. */
  ghost predicate Inverse(holder: map<Key, Handle>, ids: map<Handle, Key>) {
    && (forall k :: k in holder ==> holder[k] in ids && ids[holder[k]] == k)
    && (forall e :: e in ids ==> ids[e] in holder && holder[ids[e]] == e)
  }

  /** The live elements are those of the first n places. */
  ghost predicate PrefixOk(es: seq<Handle>, n: nat, ids: map<Handle, Key>, pos: map<Handle, nat>) {
    && n <= |es|
    && pos.Keys == ids.Keys
    && (forall i :: 0 <= i < n ==> es[i] in ids && pos[es[i]] == i)
    && (forall e :: e in ids ==> pos[e] < n && es[pos[e]] == e)
  }

  /** A live element carries its key and its row; a spare one may carry anything. */
  ghost predicate ContentOk(pool: seq<Element>, rows: map<Key, Row>, holder: map<Key, Handle>, ids: map<Handle, Key>) {
    && rows.Keys == holder.Keys
    && (forall h :: h in ids ==> h < |pool| && pool[h].id == ids[h])
    && (forall k :: k in holder ==> holder[k] < |pool| && pool[holder[k]].row == rows[k])
  }

  /** The array mentions each element of the pool once. */
  ghost predicate PoolOk(pool: seq<Element>, es: seq<Handle>) {
    && |es| == |pool|
    && Distinct(es)
    && (forall i :: 0 <= i < |es| ==> es[i] < |pool|)
    && (forall i :: 0 <= i < |pool| ==> pool[i].row.score < USHORT_MAX)
  }

  // ----- one key comes -----

  lemma LocatorEnter(loc: Locator, holder: map<Key, Handle>, k: Key, e: Handle)
    requires LocatorOk(loc, holder)
    ensures LocatorOk(Enter(loc, k, e), holder[k := e])
  {
    forall q
      ensures Locate(Enter(loc, k, e), q) == if q in holder[k := e] then Some(holder[k := e][q]) else None
    {
      assert Locate(Enter(loc, k, e), q) == if q == k then Some(e) else Locate(loc, q);
    }
  }

  lemma DestinationInsert(dl: DestinationLocator, ids: map<Handle, Key>, k: Key, e: Handle)
    requires DestinationOk(dl, ids) && e !in ids
    ensures DestinationOk(Insert(dl, k.dst, e), ids[e := k])
  {
    var dl', ids' := Insert(dl, k.dst, e), ids[e := k];
    forall x | x in ids'
      ensures Listed(dl', ids'[x].dst, x)
    {
      assert x != e ==> Listed(dl, ids[x].dst, x);
    }
  }

  lemma InverseAdd(holder: map<Key, Handle>, ids: map<Handle, Key>, k: Key, e: Handle)
    requires Inverse(holder, ids) && e !in ids && k !in holder
    ensures Inverse(holder[k := e], ids[e := k])
  {
  }

  lemma PrefixAdd(es: seq<Handle>, n: nat, ids: map<Handle, Key>, pos: map<Handle, nat>, k: Key)
    requires PrefixOk(es, n, ids, pos) && Distinct(es) && n < |es|
    ensures es[n] !in ids
    ensures PrefixOk(es, n + 1, ids[es[n] := k], pos[es[n] := n])
  {
  }

  lemma ContentLink(pool: seq<Element>, rows: map<Key, Row>, holder: map<Key, Handle>, ids: map<Handle, Key>, e: Handle)
    requires ContentOk(pool, rows, holder, ids) && Inverse(holder, ids) && e < |pool| && e !in ids
    ensures var k := pool[e].id;
            ContentOk(pool, rows[k := pool[e].row], holder[k := e], ids[e := k])
  {
  }

  /** Neither a spare element nor the row of a live one is tied to its old content. */
  lemma ContentSpare(pool: seq<Element>, rows: map<Key, Row>, holder: map<Key, Handle>, ids: map<Handle, Key>,
                     e: Handle, x: Element)
    requires ContentOk(pool, rows, holder, ids) && Inverse(holder, ids) && e < |pool| && e !in ids
    ensures ContentOk(pool[e := x], rows, holder, ids)
  {
  }

  lemma ContentRefresh(pool: seq<Element>, rows: map<Key, Row>, holder: map<Key, Handle>, ids: map<Handle, Key>,
                       k: Key, row: Row)
    requires ContentOk(pool, rows, holder, ids) && Inverse(holder, ids) && k in holder
    ensures holder[k] < |pool|
    ensures ContentOk(pool[holder[k] := Element(k, row)], rows[k := row], holder, ids)
  {
    var h := holder[k];
    var pool' := pool[h := Element(k, row)];
    forall q | q in holder
      ensures pool'[holder[q]].row == rows[k := row][q]
    {
      assert ids[holder[q]] == q;
    }
  }

  lemma PoolSet(pool: seq<Element>, es: seq<Handle>, e: Handle, x: Element)
    requires PoolOk(pool, es) && e < |pool| && x.row.score < USHORT_MAX
    ensures PoolOk(pool[e := x], es)
  {
  }

  function NewHandles(size: nat, n: nat): (r: seq<Handle>)
    ensures |r| == n && forall i :: 0 <= i < n ==> r[i] == size + i
  {
    seq(n, i requires i >= 0 => size + i)
  }

  /** New elements are allocated behind the old ones. */
  lemma PoolGrow(pool: seq<Element>, es: seq<Handle>, n: nat, x: Element)
    requires PoolOk(pool, es) && x.row.score < USHORT_MAX
    ensures PoolOk(pool + seq(n, i => x), es + NewHandles(|pool|, n))
  {
  }

  lemma PrefixGrow(es: seq<Handle>, n: nat, ids: map<Handle, Key>, pos: map<Handle, nat>, more: seq<Handle>)
    requires PrefixOk(es, n, ids, pos)
    ensures PrefixOk(es + more, n, ids, pos)
  {
  }

  lemma ContentGrow(pool: seq<Element>, rows: map<Key, Row>, holder: map<Key, Handle>, ids: map<Handle, Key>,
                    more: seq<Element>)
    requires ContentOk(pool, rows, holder, ids)
    ensures ContentOk(pool + more, rows, holder, ids)
  {
  }

  // ----- one key goes: the last live element is copied into its place -----

  /** ids once e has taken over the key of the last live element. */
  function MovedIds(ids: map<Handle, Key>, e: Handle, last: Handle): map<Handle, Key>
    requires e in ids && last in ids
  {
    ids[e := ids[last]] - {last}
  }

  function MovedHolder(holder: map<Key, Handle>, k: Key, q: Key, e: Handle): map<Key, Handle> {
    (holder - {k})[q := e]
  }

  lemma LocatorLeave(loc: Locator, holder: map<Key, Handle>, k: Key)
    requires LocatorOk(loc, holder) && k in holder
    ensures Locate(loc, k).Some? && LocatorOk(Leave(loc, k), holder - {k})
  {
    assert Locate(loc, k).Some?;
    forall q
      ensures Locate(Leave(loc, k), q) == if q in holder - {k} then Some((holder - {k})[q]) else None
    {
      assert Locate(Leave(loc, k), q) == if q == k then None else Locate(loc, q);
    }
  }

  lemma DestinationErase(dl: DestinationLocator, ids: map<Handle, Key>, e: Handle)
    requires DestinationOk(dl, ids) && e in ids
    ensures DestinationOk(Erase(dl, ids[e].dst, e), ids - {e})
  {
    var dl', ids' := Erase(dl, ids[e].dst, e), ids - {e};
    forall x | x in ids'
      ensures Listed(dl', ids'[x].dst, x)
    {
      assert Listed(dl, ids[x].dst, x);
    }
  }

  lemma DestinationMove(dl: DestinationLocator, ids: map<Handle, Key>, e: Handle, last: Handle)
    requires DestinationOk(dl, ids - {e}) && e in ids && last in ids && e != last
    ensures DestinationOk(Insert(Erase(dl, ids[last].dst, last), ids[last].dst, e), MovedIds(ids, e, last))
  {
    DestinationErase(dl, ids - {e}, last);
    var rest := ids - {e} - {last};
    DestinationInsert(Erase(dl, ids[last].dst, last), rest, ids[last], e);
    assert MovedIds(ids, e, last) == rest[e := ids[last]];
  }

  lemma InverseRemove(holder: map<Key, Handle>, ids: map<Handle, Key>, e: Handle)
    requires Inverse(holder, ids) && e in ids
    ensures Inverse(holder - {ids[e]}, ids - {e})
  {
  }

  lemma InverseMove(holder: map<Key, Handle>, ids: map<Handle, Key>, e: Handle, last: Handle)
    requires Inverse(holder, ids) && e in ids && last in ids && e != last
    ensures Inverse(MovedHolder(holder, ids[e], ids[last], e), MovedIds(ids, e, last))
  {
  }

  lemma PrefixRemoveLast(es: seq<Handle>, n: nat, ids: map<Handle, Key>, pos: map<Handle, nat>)
    requires PrefixOk(es, n, ids, pos) && n > 0
    ensures PrefixOk(es, n - 1, ids - {es[n - 1]}, pos - {es[n - 1]})
  {
  }

  lemma PrefixMove(es: seq<Handle>, n: nat, ids: map<Handle, Key>, pos: map<Handle, nat>, e: Handle)
    requires PrefixOk(es, n, ids, pos) && n > 0 && e in ids && e != es[n - 1]
    ensures PrefixOk(es, n - 1, MovedIds(ids, e, es[n - 1]), pos - {es[n - 1]})
  {
    PrefixRemoveLast(es, n, ids, pos);
    var last := es[n - 1];
    assert MovedIds(ids, e, last).Keys == (ids - {last}).Keys;
  }

  lemma ContentRemove(pool: seq<Element>, rows: map<Key, Row>, holder: map<Key, Handle>, ids: map<Handle, Key>,
                      e: Handle)
    requires ContentOk(pool, rows, holder, ids) && e in ids
    ensures ContentOk(pool, rows - {ids[e]}, holder - {ids[e]}, ids - {e})
  {
  }

  lemma ContentMove(pool: seq<Element>, rows: map<Key, Row>, holder: map<Key, Handle>, ids: map<Handle, Key>,
                    e: Handle, last: Handle)
    requires ContentOk(pool, rows, holder, ids) && Inverse(holder, ids) && e in ids && last in ids && e != last
    ensures ids[last] in rows && pool[last] == Element(ids[last], rows[ids[last]])
    ensures ContentOk(pool[e := Element(pool[last].id, Settled(pool[last].row))],
                      (rows - {ids[e]})[ids[last] := Settled(rows[ids[last]])],
                      MovedHolder(holder, ids[e], ids[last], e), MovedIds(ids, e, last))
  {
    var x := Element(pool[last].id, Settled(pool[last].row));
    var q := ids[last];
    assert holder[q] == last;
    forall k | k in holder && k != ids[e] && k != q
      ensures pool[e := x][holder[k]].row == rows[k]
    {
      assert holder[k] != e;
    }
  }

  /** All that a board consists of, as one value. */
  ghost predicate BoardOk(pool: seq<Element>, es: seq<Handle>, n: nat, loc: Locator, dl: DestinationLocator,
                          rows: map<Key, Row>, holder: map<Key, Handle>, ids: map<Handle, Key>, pos: map<Handle, nat>) {
    && PoolOk(pool, es)
    && LocatorOk(loc, holder)
    && DestinationOk(dl, ids)
    && Inverse(holder, ids)
    && PrefixOk(es, n, ids, pos)
    && ContentOk(pool, rows, holder, ids)
  }

  lemma LiveElement(pool: seq<Element>, es: seq<Handle>, n: nat, loc: Locator, dl: DestinationLocator,
                    rows: map<Key, Row>, holder: map<Key, Handle>, ids: map<Handle, Key>, pos: map<Handle, nat>, k: Key)
    requires BoardOk(pool, es, n, loc, dl, rows, holder, ids, pos) && k in rows
    ensures k in holder && holder[k] in ids && ids[holder[k]] == k && Locate(loc, k) == Some(holder[k])
    ensures holder[k] < |pool| && pool[holder[k]] == Element(k, rows[k])
    ensures 0 < n <= |es|
    ensures es[n - 1] in ids && es[n - 1] < |pool| && pool[es[n - 1]].row.score < USHORT_MAX
    ensures var q := ids[es[n - 1]];
            q in rows && pool[es[n - 1]] == Element(q, rows[q]) && (es[n - 1] != holder[k] ==> q != k)
  {
    assert pos[holder[k]] < n;
  }

  /** Making the first spare element live. */
  lemma LinkNext(pool: seq<Element>, es: seq<Handle>, n: nat, loc: Locator, dl: DestinationLocator,
                 rows: map<Key, Row>, holder: map<Key, Handle>, ids: map<Handle, Key>, pos: map<Handle, nat>,
                 k: Key, row: Row)
    requires BoardOk(pool, es, n, loc, dl, rows, holder, ids, pos) && k !in rows
    requires n < |es| && es[n] < |pool| && pool[es[n]] == Element(k, row)
    ensures var e := es[n];
            BoardOk(pool, es, n + 1, Enter(loc, k, e), Insert(dl, k.dst, e),
                    rows[k := row], holder[k := e], ids[e := k], pos[e := n])
  {
    hide LocatorOk, DestinationOk, Inverse, PrefixOk, Enter, Insert;
    PrefixAdd(es, n, ids, pos, k);
    LocatorEnter(loc, holder, k, es[n]);
    DestinationInsert(dl, ids, k, es[n]);
    InverseAdd(holder, ids, k, es[n]);
    ContentLink(pool, rows, holder, ids, es[n]);
  }

  /** Changing the row of one live element. */
  lemma RowChange(pool: seq<Element>, es: seq<Handle>, n: nat, loc: Locator, dl: DestinationLocator,
                  rows: map<Key, Row>, holder: map<Key, Handle>, ids: map<Handle, Key>, pos: map<Handle, nat>,
                  k: Key, row: Row)
    requires BoardOk(pool, es, n, loc, dl, rows, holder, ids, pos) && k in rows && row.score < USHORT_MAX
    ensures k in holder && holder[k] < |pool|
    ensures BoardOk(pool[holder[k] := Element(k, row)], es, n, loc, dl, rows[k := row], holder, ids, pos)
  {
    hide LocatorOk, DestinationOk, PrefixOk, PoolOk, Inverse;
    ContentRefresh(pool, rows, holder, ids, k, row);
    PoolSet(pool, es, holder[k], Element(k, row));
  }

  /** Removing the last live element. */
  lemma RemoveLast(pool: seq<Element>, es: seq<Handle>, n: nat, loc: Locator, dl: DestinationLocator,
                   rows: map<Key, Row>, holder: map<Key, Handle>, ids: map<Handle, Key>, pos: map<Handle, nat>, k: Key)
    requires BoardOk(pool, es, n, loc, dl, rows, holder, ids, pos) && k in rows
    requires n > 0 && k in holder && n <= |es| && es[n - 1] == holder[k]
    ensures Locate(loc, k).Some?
    ensures BoardOk(pool, es, n - 1, Leave(loc, k), Erase(dl, k.dst, holder[k]),
                    Without(rows, k, k), holder - {k}, ids - {holder[k]}, pos - {holder[k]})
  {
    hide PoolOk, LocatorOk, DestinationOk, Inverse, PrefixOk, ContentOk, Leave, Erase;
    LiveElement(pool, es, n, loc, dl, rows, holder, ids, pos, k);
    LocatorLeave(loc, holder, k);
    DestinationErase(dl, ids, holder[k]);
    InverseRemove(holder, ids, holder[k]);
    PrefixRemoveLast(es, n, ids, pos);
    ContentRemove(pool, rows, holder, ids, holder[k]);
  }

  /** Removing another element, into which the last live one is copied. */
  lemma RemoveMoving(pool: seq<Element>, es: seq<Handle>, n: nat, loc: Locator, dl: DestinationLocator,
                     rows: map<Key, Row>, holder: map<Key, Handle>, ids: map<Handle, Key>, pos: map<Handle, nat>,
                     k: Key, last: Handle, q: Key)
    requires BoardOk(pool, es, n, loc, dl, rows, holder, ids, pos) && k in rows
    requires n > 0 && k in holder && n <= |es| && last == es[n - 1] != holder[k]
    requires last in ids && ids[last] == q && q in rows && holder[k] in ids
    ensures Locate(loc, k).Some? && last < |pool| && holder[k] < |pool|
    ensures var e := holder[k];
            BoardOk(pool[e := Element(q, Settled(rows[q]))], es, n - 1,
                    Enter(Leave(loc, k), q, e), Insert(Erase(Erase(dl, k.dst, e), q.dst, last), q.dst, e),
                    Without(rows, k, q), (holder - {k})[q := e], MovedIds(ids, e, last), pos - {last})
  {
    hide PoolOk, LocatorOk, DestinationOk, Inverse, PrefixOk, ContentOk, Leave, Erase, Enter, Insert, MovedIds;
    var e := holder[k];
    LiveElement(pool, es, n, loc, dl, rows, holder, ids, pos, k);
    LocatorLeave(loc, holder, k);
    LocatorEnter(Leave(loc, k), holder - {k}, q, e);
    DestinationErase(dl, ids, e);
    DestinationMove(Erase(dl, k.dst, e), ids, e, last);
    InverseMove(holder, ids, e, last);
    PrefixMove(es, n, ids, pos, e);
    ContentMove(pool, rows, holder, ids, e, last);
    PoolSet(pool, es, e, Element(q, Settled(rows[q])));
  }

  // ----- the live prefix is permuted -----

  /** perm says where each live place goes. */
  ghost predicate Permutes(old_es: seq<Handle>, es: seq<Handle>, n: nat, perm: seq<int>) {
    && |es| == |old_es| && n <= |es| && |perm| == n
    && (forall i :: 0 <= i < n ==> 0 <= perm[i] < n && es[perm[i]] == old_es[i])
    && (forall i :: n <= i < |es| ==> es[i] == old_es[i])
    && (forall p :: 0 <= p < n ==> p in perm)
  }

  function MovedPos(pos: map<Handle, nat>, perm: seq<int>): map<Handle, nat>
    requires forall e :: e in pos ==> pos[e] < |perm| && perm[pos[e]] >= 0
  {
    map e | e in pos :: perm[pos[e]]
  }

  lemma PrefixPermute(old_es: seq<Handle>, es: seq<Handle>, n: nat, perm: seq<int>,
                      ids: map<Handle, Key>, pos: map<Handle, nat>)
    requires PrefixOk(old_es, n, ids, pos) && Permutes(old_es, es, n, perm)
    ensures forall e :: e in pos ==> pos[e] < |perm| && perm[pos[e]] >= 0
    ensures PrefixOk(es, n, ids, MovedPos(pos, perm))
  {
    var pos' := MovedPos(pos, perm);
    forall p | 0 <= p < n
      ensures es[p] in ids && pos'[es[p]] == p
    {
      assert p in perm;
      var i :| 0 <= i < n && perm[i] == p;
    }
  }

  lemma DistinctPermute(old_es: seq<Handle>, es: seq<Handle>, n: nat, perm: seq<int>)
    requires Distinct(old_es) && Permutes(old_es, es, n, perm)
    ensures Distinct(es)
    ensures forall e :: e in es <==> e in old_es
  {
    forall p, q | 0 <= p < q < |es|
      ensures es[p] != es[q]
    {
      var i := Origin(old_es, es, n, perm, p);
      var j := Origin(old_es, es, n, perm, q);
      assert i != j;
    }
    forall e | e in es
      ensures e in old_es
    {
      var p :| 0 <= p < |es| && es[p] == e;
      var i := Origin(old_es, es, n, perm, p);
    }
    forall e | e in old_es
      ensures e in es
    {
      var i :| 0 <= i < |old_es| && old_es[i] == e;
      assert e == if i < n then es[perm[i]] else es[i];
    }
  }

  lemma Origin(old_es: seq<Handle>, es: seq<Handle>, n: nat, perm: seq<int>, p: nat) returns (i: nat)
    requires Permutes(old_es, es, n, perm) && p < |es|
    ensures i < |es| && es[p] == old_es[i]
    ensures p < n ==> i < n && perm[i] == p
    ensures p >= n ==> i == p
  {
    if p < n {
      assert p in perm;
      i :| 0 <= i < n && perm[i] == p;
    } else {
      i := p;
    }
  }

  lemma BoardPermute(pool: seq<Element>, old_es: seq<Handle>, es: seq<Handle>, n: nat, loc: Locator,
                     dl: DestinationLocator, rows: map<Key, Row>, holder: map<Key, Handle>, ids: map<Handle, Key>,
                     pos: map<Handle, nat>, perm: seq<int>)
    requires BoardOk(pool, old_es, n, loc, dl, rows, holder, ids, pos) && Permutes(old_es, es, n, perm)
    ensures forall e :: e in pos ==> pos[e] < |perm| && perm[pos[e]] >= 0
    ensures BoardOk(pool, es, n, loc, dl, rows, holder, ids, MovedPos(pos, perm))
  {
    hide LocatorOk, DestinationOk, Inverse, PrefixOk, ContentOk, Distinct, MovedPos;
    PrefixPermute(old_es, es, n, perm, ids, pos);
    DistinctPermute(old_es, es, n, perm);
    PoolPermute(pool, old_es, es);
  }

  lemma PoolPermute(pool: seq<Element>, old_es: seq<Handle>, es: seq<Handle>)
    requires PoolOk(pool, old_es) && Distinct(es) && |es| == |old_es|
    requires forall e :: e in es ==> e in old_es
    ensures PoolOk(pool, es)
  {
    forall i | 0 <= i < |es|
      ensures es[i] < |pool|
    {
      assert es[i] in old_es;
    }
  }

  /** The scores of the live prefix, front first. */
  function LiveScores(pool: seq<Element>, es: seq<Handle>, n: nat): (s: seq<nat>)
    requires n <= |es| && forall i :: 0 <= i < |es| ==> es[i] < |pool|
    ensures |s| == n
    ensures forall i :: 0 <= i < n ==> s[i] == pool[es[i]].row.score
  {
    seq(n, i requires 0 <= i < n => pool[es[i]].row.score)
  }

  ghost predicate Descending(s: seq<nat>) {
    forall i, j :: 0 <= i < j < |s| ==> s[i] >= s[j]
  }

  lemma SlotsPermute(pool: seq<Element>, old_es: seq<Handle>, es: seq<Handle>, n: nat)
    requires PoolOk(pool, old_es) && n <= |old_es| == |es|
    requires var s := LiveScores(pool, old_es, n);
             forall i {:trigger Slot(s, i)} :: 0 <= i < n ==> 0 <= Slot(s, i) < n && es[Slot(s, i)] == old_es[i]
    requires forall i :: n <= i < |es| ==> es[i] == old_es[i]
    ensures Permutes(old_es, es, n, Slots(LiveScores(pool, old_es, n)))
  {
    var s := LiveScores(pool, old_es, n);
    forall p | 0 <= p < n
      ensures p in Slots(s)
    {
      var i := SlotOnto(s, p);
      assert Slots(s)[i] == p;
    }
  }

  lemma SlotsDescend(pool: seq<Element>, old_es: seq<Handle>, es: seq<Handle>, n: nat)
    requires PoolOk(pool, old_es) && PoolOk(pool, es) && n <= |old_es| == |es|
    requires Permutes(old_es, es, n, Slots(LiveScores(pool, old_es, n)))
    ensures Descending(LiveScores(pool, es, n))
  {
    var s := LiveScores(pool, old_es, n);
    forall p, q | 0 <= p < q < n
      ensures pool[es[p]].row.score >= pool[es[q]].row.score
    {
      var i := Origin(old_es, es, n, Slots(s), p);
      var j := Origin(old_es, es, n, Slots(s), q);
      SlotOrder(s, j, i);
    }
  }

  /** Filling the slots keeps the board and puts it in order. */
  lemma SortKeeps(pool: seq<Element>, old_es: seq<Handle>, tmp: seq<Handle>, n: nat, loc: Locator,
                  dl: DestinationLocator, rows: map<Key, Row>, holder: map<Key, Handle>, ids: map<Handle, Key>,
                  pos: map<Handle, nat>, s: seq<nat>)
    requires BoardOk(pool, old_es, n, loc, dl, rows, holder, ids, pos) && |old_es| == |tmp|
    requires n <= |old_es| && (forall i :: 0 <= i < |old_es| ==> old_es[i] < |pool|) && s == LiveScores(pool, old_es, n)
    requires forall i {:trigger Slot(s, i)} :: 0 <= i < n ==> 0 <= Slot(s, i) < n && tmp[Slot(s, i)] == old_es[i]
    ensures var es := tmp[..n] + old_es[n..];
            && Permutes(old_es, es, n, Slots(s))
            && (forall e :: e in pos ==> pos[e] < |s| && Slots(s)[pos[e]] >= 0)
            && BoardOk(pool, es, n, loc, dl, rows, holder, ids, MovedPos(pos, Slots(s)))
            && (forall i :: 0 <= i < |es| ==> es[i] < |pool|)
            && Descending(LiveScores(pool, es, n))
  {
    hide LocatorOk, DestinationOk, Inverse, PrefixOk, ContentOk, PoolOk, Distinct, MovedPos, Descending, Permutes, Slot;
    var es := tmp[..n] + old_es[n..];
    SlotsPermute(pool, old_es, es, n);
    BoardPermute(pool, old_es, es, n, loc, dl, rows, holder, ids, pos, Slots(s));
    PoolHandles(pool, es);
    SlotsDescend(pool, old_es, es, n);
  }

  lemma PoolHandles(pool: seq<Element>, es: seq<Handle>)
    requires PoolOk(pool, es)
    ensures |es| == |pool| && forall i :: 0 <= i < |es| ==> es[i] < |pool|
  {
  }

  function Swapped<T>(s: seq<T>, i: nat, j: nat): (r: seq<T>)
    requires i < |s| && j < |s|
    ensures |r| == |s|
    ensures multiset(r) == multiset(s)
  {
    s[i := s[j]][j := s[i]]
  }

  function SwapPlaces(n: nat, i: nat, j: nat): (perm: seq<int>)
    ensures |perm| == n
    ensures forall k :: 0 <= k < n ==> perm[k] == if k == i then j else if k == j then i else k
  {
    seq(n, k => if k == i then j else if k == j then i else k)
  }

  lemma SwapPermutes(es: seq<Handle>, n: nat, i: nat, j: nat)
    requires i < n && j < n <= |es|
    ensures Permutes(es, Swapped(es, i, j), n, SwapPlaces(n, i, j))
  {
    var perm := SwapPlaces(n, i, j);
    forall p | 0 <= p < n
      ensures p in perm
    {
      assert perm[if p == i then j else if p == j then i else p] == p;
    }
  }

  // ----- a whole list is dropped -----

  predicate Mentions(k: Key, fl: ListId) {
    k.src == fl || k.dst == fl
  }

  /** Once no live key mentions a list, its entries in both indexes can go. */
  lemma BoardForget(pool: seq<Element>, es: seq<Handle>, n: nat, loc: Locator, dl: DestinationLocator,
                    rows: map<Key, Row>, holder: map<Key, Handle>, ids: map<Handle, Key>, pos: map<Handle, nat>,
                    fl: ListId)
    requires BoardOk(pool, es, n, loc, dl, rows, holder, ids, pos)
    requires forall k :: k in rows ==> !Mentions(k, fl)
    ensures BoardOk(pool, es, n, loc - {fl}, dl - {fl}, rows, holder, ids, pos)
  {
    hide PoolOk, PrefixOk, LocatorOk, DestinationOk;
    assert forall k :: k in holder ==> k.src != fl;
    assert forall e :: e in ids ==> ids[e].dst != fl;
    LocatorForget(loc, holder, fl);
    DestinationForget(dl, ids, fl);
  }

  lemma LocatorForget(loc: Locator, holder: map<Key, Handle>, fl: ListId)
    requires LocatorOk(loc, holder) && forall k :: k in holder ==> k.src != fl
    ensures LocatorOk(loc - {fl}, holder)
  {
    forall k
      ensures Locate(loc - {fl}, k) == if k in holder then Some(holder[k]) else None
    {
      assert Locate(loc, k) == if k in holder then Some(holder[k]) else None;
    }
  }

  lemma DestinationForget(dl: DestinationLocator, ids: map<Handle, Key>, fl: ListId)
    requires DestinationOk(dl, ids) && forall e :: e in ids ==> ids[e].dst != fl
    ensures DestinationOk(dl - {fl}, ids)
  {
    forall e | e in ids
      ensures Listed(dl - {fl}, ids[e].dst, e)
    {
      assert Listed(dl, ids[e].dst, e);
    }
  }

  lemma BoardEmpty(pool: seq<Element>, es: seq<Handle>)
    requires PoolOk(pool, es)
    ensures BoardOk(pool, es, 0, map[], map[], map[], map[], map[], map[])
  {
    hide PoolOk;
  }

  lemma NothingLive(pool: seq<Element>, es: seq<Handle>, loc: Locator, dl: DestinationLocator,
                    rows: map<Key, Row>, holder: map<Key, Handle>, ids: map<Handle, Key>, pos: map<Handle, nat>)
    requires BoardOk(pool, es, 0, loc, dl, rows, holder, ids, pos)
    ensures rows == map[]
  {
    hide PoolOk, LocatorOk, DestinationOk, BoardOk;
    if k :| k in rows {
      LiveElement(pool, es, 0, loc, dl, rows, holder, ids, pos, k);
      assert false;
    }
  }
}
