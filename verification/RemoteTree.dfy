/** The directories and files of a server, and the part of them that a recursive delete
    is about. */
module RemoteTrees {
  import opened Base
  import FileListContent
  import opened Paths

  datatype Node = Dir | Plain(owner: string)

  type Tree = map<string, Node>

  /** Everything but the root is in a directory, under a name without slashes. */
  ghost predicate IsTree(fs: Tree) {
    && "/" in fs && fs["/"].Dir?
    && forall p :: p in fs && p != "/" ==> InDirectory(fs, p)
  }

  predicate InDirectory(fs: Tree, p: string) {
    && DirName(p) in fs && fs[DirName(p)].Dir? && ValidDir(DirName(p)) && ValidName(BaseName(p))
    && p == Join(DirName(p), BaseName(p))
  }

  datatype Mode = DELETE | DELETEOWN

  /** Files of others are kept when only own files are to go. */
  predicate IsKept(mode: Mode, user: string, n: Node) {
    n.Plain? && mode == DELETEOWN && !FileListContent.EightCharUserCompare(n.owner, user)
  }

  predicate Below(fs: Tree, t: string, p: string) {
    p in fs && Contains(p, t)
  }

  /** A file that is kept, or a directory with one somewhere below it. */
  ghost predicate Survives(fs: Tree, mode: Mode, user: string, p: string) {
    exists q :: q in fs && Contains(q, p) && IsKept(mode, user, fs[q])
  }

  /** What is left when everything below t that can go is gone. */
  ghost predicate Emptied(fs: Tree, mode: Mode, user: string, t: string, after: Tree) {
    && (forall p :: p in after <==> p in fs && !(Contains(p, t) && !Survives(fs, mode, user, p)))
    && (forall p :: p in after ==> after[p] == fs[p])
  }

  lemma InTree(fs: Tree, p: string)
    requires IsTree(fs) && p in fs && p != "/"
    ensures InDirectory(fs, p) && ValidDir(p) && |DirName(p)| < |p|
  {
    JoinParts(DirName(p), BaseName(p));
  }

  lemma BelowUp(fs: Tree, t: string, p: string)
    requires IsTree(fs) && t in fs && t != "/" && p in fs
    ensures Contains(p, t) <==> p == t || (p != "/" && Contains(DirName(p), t))
  {
    hide IsTree;
    InTree(fs, t);
    ContainsSelf(t);
    if p != "/" {
      InTree(fs, p);
      ContainsParent(DirName(p), BaseName(p), t);
    }
  }

  /** What is below a directory is below one of its entries. */
  lemma {:induction false} EntryAbove(fs: Tree, d: string, q: string) returns (c: string)
    requires IsTree(fs) && d in fs && d != "/" && q in fs && Contains(q, d) && q != d
    ensures c in fs && c != "/" && DirName(c) == d && Contains(q, c)
    decreases |q|
  {
    hide IsTree;
    BelowUp(fs, d, q);
    ContainsSelf(q);
    if DirName(q) == d {
      c := q;
    } else {
      InTree(fs, q);
      c := EntryAbove(fs, d, DirName(q));
      InTree(fs, c);
      ContainsParent(DirName(q), BaseName(q), c);
    }
  }

  lemma EntryBelow(fs: Tree, t: string, c: string)
    requires IsTree(fs) && t in fs && t != "/" && c in fs && c != "/" && Contains(DirName(c), t)
    ensures Contains(c, t)
  {
    hide IsTree;
    BelowUp(fs, t, c);
  }

  /** A directory survives if and only if one of its entries does. */
  lemma SurvivesByEntry(fs: Tree, mode: Mode, user: string, d: string)
    requires IsTree(fs) && d in fs && d != "/" && fs[d].Dir?
    ensures Survives(fs, mode, user, d) <==>
            exists c :: c in fs && c != "/" && DirName(c) == d && Survives(fs, mode, user, c)
  {
    hide IsTree;
    if Survives(fs, mode, user, d) {
      var q :| q in fs && Contains(q, d) && IsKept(mode, user, fs[q]);
      var c := EntryAbove(fs, d, q);
      assert Survives(fs, mode, user, c);
    }
    if c :| c in fs && c != "/" && DirName(c) == d && Survives(fs, mode, user, c) {
      var q :| q in fs && Contains(q, c) && IsKept(mode, user, fs[q]);
      ContainsSelf(d);
      EntryBelow(fs, d, c);
      ContainsTransitive(q, c, d);
    }
  }

  lemma FileSurvives(fs: Tree, mode: Mode, user: string, p: string)
    requires IsTree(fs) && p in fs && fs[p].Plain?
    ensures Survives(fs, mode, user, p) <==> IsKept(mode, user, fs[p])
  {
    ContainsSelf(p);
    if q :| q in fs && Contains(q, p) && IsKept(mode, user, fs[q]) && q != p {
      var c := EntryAbove(fs, p, q);
      InTree(fs, c);
      assert false;
    }
  }

  // ----- listings -----

  datatype Listed = Listed(name: string, dir: bool, owner: string)

  /** A listing of d mentions every entry of d once. */
  ghost predicate IsListing(fs: Tree, d: string, entries: seq<Listed>) {
    && (forall e :: e in entries ==> ValidName(e.name) && Join(d, e.name) in fs && Shows(e, fs[Join(d, e.name)]))
    && (forall p :: p in fs && p != "/" && DirName(p) == d ==> exists e :: e in entries && Join(d, e.name) == p)
    && (forall i, j :: 0 <= i < j < |entries| ==> entries[i].name != entries[j].name)
  }

  predicate Shows(e: Listed, n: Node) {
    match n
    case Dir => e.dir
    case Plain(owner) => !e.dir && e.owner == owner
  }
}
