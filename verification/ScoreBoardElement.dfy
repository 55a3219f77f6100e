/** One possible transfer: a file name, the source list it is in, and the
    destination list it is missing from. */
module ScoreBoardElements {
  import opened Base

  datatype PrioType = PRIO | PRIO_LATER | NORMAL

  /** What the board says about one key. */
  datatype Row = Row(score: nat, filesize: nat, prio: PrioType, attempted: bool, skipchecked: bool)

  const USHORT_MAX: nat := 0x10000

  function NewRow(score: nat, filesize: nat, prio: PrioType): Row {
    Row(score, filesize, prio, false, false)
  }

  /** An element that is updated keeps its priority type and its skip check. */
  function Refreshed(r: Row, score: nat, filesize: nat): Row {
    r.(score := score, filesize := filesize, attempted := false)
  }

  /** Resetting an element from another one clears its two flags. */
  function Settled(r: Row): Row {
    r.(attempted := false, skipchecked := false)
  }

  /** Equal but for the two flags. */
  predicate SameData(a: Row, b: Row) {
    Settled(a) == Settled(b)
  }

  /** The board without k, after the element of moved has been reset into the place
      that k had. */
  function Without(rows: map<Key, Row>, k: Key, moved: Key): (r: map<Key, Row>)
    requires moved in rows
    ensures r.Keys == rows.Keys - {k}
    ensures forall q :: q in r ==> SameData(r[q], rows[q])
    ensures forall q :: q in r && q != moved ==> r[q] == rows[q]
    ensures moved != k ==> !r[moved].attempted && !r[moved].skipchecked
  {
    if moved == k then rows - {k} else (rows - {k})[moved := Settled(rows[moved])]
  }

  /** The board once the skip check of every transfer to fl is due again. */
  function SkipUnchecked(rows: map<Key, Row>, fl: ListId): (r: map<Key, Row>)
    ensures r.Keys == rows.Keys
    ensures forall k :: k in rows && k.dst != fl ==> r[k] == rows[k]
    ensures forall k :: k in rows && k.dst == fl ==> r[k] == rows[k].(skipchecked := false)
  {
    map k | k in rows :: if k.dst == fl then rows[k].(skipchecked := false) else rows[k]
  }

  datatype Element = Element(id: Key, row: Row)

  /** An element is shared by the array and by both indexes, which hold pointers to
      it; a pointer is the element's place in the pool the board allocates from. */
  type Handle = nat
}
