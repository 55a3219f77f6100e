/** A recursive delete from its first command to its last, against a tree of directories
    and files on which every command that can succeed does. */
module RecursiveDeleteRuns {
  import opened Base
  import opened Paths
  import opened RemoteTrees
  import opened RecursiveDeletes

  // ----- the server -----

  predicate IsEmptyDir(fs: Tree, p: string) {
    p in fs && fs[p].Dir? && p != "/" && forall c :: c in fs && c != "/" ==> DirName(c) != p
  }

  function RemoveFile(fs: Tree, cwd: string, name: string): Tree {
    var p := Join(cwd, name);
    if p in fs && fs[p].Plain? then fs - {p} else fs
  }

  /** A directory is only removed when it is empty. */
  function RemoveDir(fs: Tree, cwd: string, name: string): Tree {
    var p := Join(cwd, name);
    if IsEmptyDir(fs, p) then fs - {p} else fs
  }

  // ----- collecting -----

  /** The directories still to be listed: some below the target, each once. */
  ghost predicate FrontierOk(fs: Tree, t: string, listed: set<string>, frontier: seq<string>) {
    && Distinct(frontier)
    && (forall p :: p in frontier ==> Below(fs, t, p) && fs[p].Dir? && p !in listed)
    && (forall p :: p in listed ==> Below(fs, t, p) && fs[p].Dir?)
    && (t in listed || t in frontier)
    && (forall p :: (p in frontier || p in listed) && p != t ==> DirName(p) in listed)
    && (forall p :: p in fs && p != "/" && DirName(p) in listed && fs[p].Dir? ==> p in listed || p in frontier)
  }

  /** The doomed: the directories that were listed, and the files in them that go. */
  ghost predicate DoomedAll(fs: Tree, r: Logic, listed: set<string>) {
    && Distinct(r.deletefiles)
    && (forall x :: x in r.deletefiles ==> DoomedOk(fs, r, listed, x))
    && (forall p :: p in listed ==> Doomed(p, true) in r.deletefiles)
    && (forall p :: p in fs && p != "/" && DirName(p) in listed && fs[p].Plain? ==>
          IsKept(r.mode, r.user, fs[p]) || Doomed(p, false) in r.deletefiles)
  }

  ghost predicate Gathering(fs: Tree, r: Logic, listed: set<string>, frontier: seq<string>) {
    FrontierOk(fs, r.target, listed, frontier) && DoomedAll(fs, r, listed)
  }

  predicate DoomedOk(fs: Tree, r: Logic, listed: set<string>, x: Doomed) {
    if x.dir then
      x.path in listed
    else
      x.path in fs && x.path != "/" && fs[x.path].Plain? && !IsKept(r.mode, r.user, fs[x.path]) &&
      DirName(x.path) in listed
  }

  /** The target is a directory below the root. */
  ghost predicate Target(fs: Tree, t: string) {
    IsTree(fs) && t in fs && t != "/" && fs[t].Dir?
  }

  lemma EntryPaths(fs: Tree, t: string, d: string, entries: seq<Listed>)
    requires Target(fs, t) && Below(fs, t, d) && fs[d].Dir? && IsListing(fs, d, entries)
    ensures forall e :: e in entries ==>
              var p := Join(d, e.name);
              p in fs && p != "/" && DirName(p) == d && Below(fs, t, p)
    ensures forall p :: p in fs && p != "/" && DirName(p) == d ==> exists e :: e in entries && Join(d, e.name) == p
    ensures ValidDir(d)
  {
    hide IsTree;
    InTree(fs, t);
    BelowUp(fs, t, d);
    if d != "/" {
      InTree(fs, d);
    }
    forall e | e in entries
      ensures var p := Join(d, e.name);
              p in fs && p != "/" && DirName(p) == d && Below(fs, t, p)
    {
      JoinParts(d, e.name);
      BelowUp(fs, t, Join(d, e.name));
    }
  }

  lemma FrontierStep(fs: Tree, t: string, listed: set<string>, d: string, rest: seq<string>, more: seq<string>)
    requires Target(fs, t) && FrontierOk(fs, t, listed, [d] + rest)
    requires Distinct(more) && forall p :: p in more ==> Below(fs, t, p)
    requires forall p :: p in more <==> p in fs && p != "/" && DirName(p) == d && fs[p].Dir?
    ensures FrontierOk(fs, t, listed + {d}, rest + more)
  {
    hide DirName, Contains, Distinct, IsTree;
    HeadAndRest(d, rest);
    forall p | p in more
      ensures p !in listed && p !in rest && p != d
    {
      FreshEntry(fs, t, listed, d, rest, p);
    }
    DistinctConcat(rest, more);
  }

  lemma EntryDirs(fs: Tree, t: string, d: string, entries: seq<Listed>)
    requires Target(fs, t) && Below(fs, t, d) && fs[d].Dir? && IsListing(fs, d, entries)
    ensures Distinct(WantedDirs(d, entries))
    ensures forall p :: p in WantedDirs(d, entries) <==> p in fs && p != "/" && DirName(p) == d && fs[p].Dir?
    ensures forall p :: p in WantedDirs(d, entries) ==> Below(fs, t, p)
  {
    hide IsTree;
    EntryPaths(fs, t, d, entries);
    DistinctPaths(DELETE, "", d, entries);
  }

  lemma EntryFiles(fs: Tree, t: string, d: string, entries: seq<Listed>, mode: Mode, user: string)
    requires Target(fs, t) && Below(fs, t, d) && fs[d].Dir? && IsListing(fs, d, entries)
    ensures Distinct(DoomedFiles(mode, user, d, entries))
    ensures forall x :: x in DoomedFiles(mode, user, d, entries) <==>
              !x.dir && x.path in fs && x.path != "/" && DirName(x.path) == d && fs[x.path].Plain? &&
                !IsKept(mode, user, fs[x.path])
  {
    hide DirName, Contains, IsTree;
    EntryPaths(fs, t, d, entries);
    DistinctPaths(mode, user, d, entries);
  }

  lemma HeadAndRest<T>(d: T, rest: seq<T>)
    requires Distinct([d] + rest)
    ensures Distinct(rest) && d !in rest
    ensures forall p :: p in [d] + rest <==> p == d || p in rest
  {
    var s := [d] + rest;
    assert forall i :: 0 <= i < |rest| ==> s[i + 1] == rest[i];
    assert s[0] == d;
  }

  lemma DistinctConcat<T>(a: seq<T>, b: seq<T>)
    requires Distinct(a) && Distinct(b) && forall x :: x in a ==> x !in b
    ensures Distinct(a + b)
  {
    var s := a + b;
    forall i, j | 0 <= i < j < |s|
      ensures s[i] != s[j]
    {
      if i < |a| && j >= |a| {
        assert s[i] in a && s[j] == b[j - |a|] && s[j] in b;
      }
    }
  }

  lemma {:induction false} DistinctOnce<T>(s: seq<T>)
    ensures Distinct(s) <==> forall x :: multiset(s)[x] <= 1
  {
    if s != [] {
      var init, last := s[..|s| - 1], s[|s| - 1];
      assert s == init + [last];
      DistinctOnce(init);
      if Distinct(s) {
        assert last !in init;
        assert multiset(init)[last] == 0;
        forall x
          ensures multiset(s)[x] <= 1
        {
        }
      } else if forall x :: multiset(s)[x] <= 1 {
        assert multiset(s)[last] == multiset(init)[last] + 1;
        assert last !in multiset(init) && last !in init;
        forall x
          ensures multiset(init)[x] <= 1
        {
          assert multiset(init)[x] <= multiset(s)[x];
        }
        assert false;
      }
    }
  }

  lemma SameMembers<T>(a: seq<T>, b: seq<T>)
    requires multiset(a) == multiset(b)
    ensures forall x :: x in a <==> x in b
    ensures Distinct(a) ==> Distinct(b)
  {
    forall x
      ensures x in a <==> x in b
    {
      assert x in a <==> x in multiset(a);
      assert x in b <==> x in multiset(b);
    }
    DistinctOnce(a);
    DistinctOnce(b);
  }

  /** What is in a directory that was not listed yet is new. */
  lemma FreshEntry(fs: Tree, t: string, listed: set<string>, d: string, rest: seq<string>, p: string)
    requires Target(fs, t) && FrontierOk(fs, t, listed, [d] + rest)
    requires p in fs && p != "/" && DirName(p) == d
    ensures p !in rest && p != d && p !in listed
  {
    hide IsTree;
    HeadAndRest(d, rest);
    InTree(fs, p);
    if Contains(d, t) {
      ContainsLengths(d, t);
    }
  }

  lemma DoomedStep(fs: Tree, r: Logic, listed: set<string>, d: string, files: seq<Doomed>, r': Logic)
    requires DoomedAll(fs, r, listed) && d !in listed && Distinct(files)
    requires forall x :: x in files <==>
               !x.dir && x.path in fs && x.path != "/" && DirName(x.path) == d && fs[x.path].Plain? &&
               !IsKept(r.mode, r.user, fs[x.path])
    requires r'.mode == r.mode && r'.user == r.user
    requires multiset(r'.deletefiles) == multiset(r.deletefiles + [Doomed(d, true)] + files)
    ensures DoomedAll(fs, r', listed + {d})
  {
    hide DirName, IsKept, Distinct, IsTree;
    var before := r.deletefiles + [Doomed(d, true)];
    DistinctAppend(r.deletefiles, Doomed(d, true));
    DistinctConcat(before, files);
    SameMembers(before + files, r'.deletefiles);
    assert forall x :: x in before + files <==> x in r.deletefiles || x == Doomed(d, true) || x in files;
  }

  lemma FrontierHead(fs: Tree, t: string, listed: set<string>, d: string, rest: seq<string>)
    requires FrontierOk(fs, t, listed, [d] + rest)
    ensures d !in listed && Below(fs, t, d) && fs[d].Dir?
  {
    assert ([d] + rest)[0] == d;
  }

  /** Listing a directory leaves one directory less to be listed, and more to be
      deleted. */
  lemma ListedKeeps(fs: Tree, r: Logic, listed: set<string>, d: string, entries: seq<Listed>, r': Logic)
    requires Target(fs, r.target) && Gathering(fs, r, listed, [d] + r.wantedlists) && IsListing(fs, d, entries)
    requires r' == r.(wantedlists := r.wantedlists + WantedDirs(d, entries), deletefiles := r'.deletefiles)
    requires multiset(r'.deletefiles) ==
             multiset(r.deletefiles + [Doomed(d, true)] + DoomedFiles(r.mode, r.user, d, entries))
    ensures d !in listed && Below(fs, r.target, d) && fs[d].Dir?
    ensures Gathering(fs, r', listed + {d}, r'.wantedlists)
  {
    hide FrontierOk, DoomedAll, IsListing, Below, IsKept, DirName, IsTree;
    FrontierHead(fs, r.target, listed, d, r.wantedlists);
    EntryDirs(fs, r.target, d, entries);
    EntryFiles(fs, r.target, d, entries, r.mode, r.user);
    FrontierStep(fs, r.target, listed, d, r.wantedlists, WantedDirs(d, entries));
    DoomedStep(fs, r, listed, d, DoomedFiles(r.mode, r.user, d, entries), r');
  }

  lemma ContainsLengths(p: string, t: string)
    requires Contains(p, t)
    ensures |p| >= |t|
  {
  }

  // ----- everything is collected -----

  lemma {:induction false} AllListed(fs: Tree, t: string, listed: set<string>, p: string)
    requires Target(fs, t) && FrontierOk(fs, t, listed, []) && Below(fs, t, p) && fs[p].Dir?
    ensures p in listed
    decreases |p|
  {
    hide IsTree;
    BelowUp(fs, t, p);
    if p != t {
      InTree(fs, p);
      AllListed(fs, t, listed, DirName(p));
    }
  }

  /** The doomed are what is below the target, but for the files that are kept. */
  ghost predicate Complete(fs: Tree, mode: Mode, user: string, t: string, doomed: seq<Doomed>) {
    && Distinct(doomed)
    && forall x :: x in doomed <==> Below(fs, t, x.path) && x.dir == fs[x.path].Dir? && !IsKept(mode, user, fs[x.path])
  }

  lemma Gathered(fs: Tree, r: Logic, listed: set<string>)
    requires Target(fs, r.target) && Gathering(fs, r, listed, [])
    ensures Complete(fs, r.mode, r.user, r.target, r.deletefiles)
    ensures forall p :: p in listed <==> Below(fs, r.target, p) && fs[p].Dir?
  {
    hide DirName, Contains, Distinct, IsKept, IsTree;
    forall p | Below(fs, r.target, p) && fs[p].Dir?
      ensures p in listed
    {
      AllListed(fs, r.target, listed, p);
    }
    forall x
      ensures x in r.deletefiles <==>
              Below(fs, r.target, x.path) && x.dir == fs[x.path].Dir? && !IsKept(r.mode, r.user, fs[x.path])
    {
      DoomedExact(fs, r, listed, x);
    }
  }

  lemma DoomedExact(fs: Tree, r: Logic, listed: set<string>, x: Doomed)
    requires Target(fs, r.target) && DoomedAll(fs, r, listed)
    requires forall p :: p in listed <==> Below(fs, r.target, p) && fs[p].Dir?
    ensures x in r.deletefiles <==>
            Below(fs, r.target, x.path) && x.dir == fs[x.path].Dir? && !IsKept(r.mode, r.user, fs[x.path])
  {
    hide DirName, Contains, IsTree;
    if x.path in fs && x.path != "/" {
      BelowUp(fs, r.target, x.path);
      InTree(fs, x.path);
    }
    RootAbove(fs, r.target);
  }

  lemma RootAbove(fs: Tree, t: string)
    requires Target(fs, t)
    ensures !Contains("/", t) && !Below(fs, t, "/")
  {
    hide IsTree;
    InTree(fs, t);
  }

  // ----- deleting -----

  ghost predicate Popped(doomed: seq<Doomed>, k: nat, p: string) {
    exists j :: k <= j < |doomed| && doomed[j].path == p
  }

  /** The doomed from place k on have been dealt with. */
  ghost predicate Erasing(fs0: Tree, mode: Mode, user: string, t: string, doomed: seq<Doomed>, k: nat, fs: Tree) {
    && Complete(fs0, mode, user, t, doomed) && SortedByLength(doomed) && k <= |doomed|
    && (forall p :: p in fs <==> p in fs0 && !(Popped(doomed, k, p) && !Survives(fs0, mode, user, p)))
    && (forall p :: p in fs ==> fs[p] == fs0[p])
  }

  /** The next to go is still there, and so is the directory it is in. */
  lemma NextIsThere(fs0: Tree, mode: Mode, user: string, t: string, doomed: seq<Doomed>, k: nat, fs: Tree)
    requires Target(fs0, t) && Erasing(fs0, mode, user, t, doomed, k, fs) && k > 0
    ensures var x := doomed[k - 1];
            && x.path in fs && x.path != "/" && Below(fs0, t, x.path) && x.dir == fs0[x.path].Dir? &&
               fs[x.path] == fs0[x.path]
            && !IsKept(mode, user, fs0[x.path])
            && DirName(x.path) in fs && fs[DirName(x.path)].Dir?
            && x.path == Join(DirName(x.path), BaseName(x.path))
            && !Popped(doomed, k, x.path)
  {
    hide Contains, Survives, IsKept, DirName, Join, IsTree;
    var x := doomed[k - 1];
    assert x in doomed;
    RootAbove(fs0, t);
    InTree(fs0, x.path);
    forall j | k <= j < |doomed|
      ensures doomed[j].path != x.path
    {
      assert doomed[j] in doomed;
    }
    assert !Popped(doomed, k, x.path);
    assert !Popped(doomed, k, DirName(x.path));
  }

  lemma PoppedMore(doomed: seq<Doomed>, k: nat, p: string)
    requires 0 < k <= |doomed|
    ensures Popped(doomed, k - 1, p) <==> Popped(doomed, k, p) || p == doomed[k - 1].path
  {
  }

  /** A file that is doomed goes. */
  lemma FileGoes(fs0: Tree, mode: Mode, user: string, t: string, doomed: seq<Doomed>, k: nat, fs: Tree)
    requires Target(fs0, t) && Erasing(fs0, mode, user, t, doomed, k, fs) && k > 0 && !doomed[k - 1].dir
    ensures Erasing(fs0, mode, user, t, doomed, k - 1, fs - {doomed[k - 1].path})
  {
    hide Contains, Survives, IsKept, DirName, Join, Complete, Popped, SortedByLength, Below, IsTree;
    NextIsThere(fs0, mode, user, t, doomed, k, fs);
    var path := doomed[k - 1].path;
    FileSurvives(fs0, mode, user, path);
    forall p
      ensures Popped(doomed, k - 1, p) <==> Popped(doomed, k, p) || p == path
    {
      PoppedMore(doomed, k, p);
    }
  }

  /** Everything in a directory is dealt with before the directory is. */
  lemma EntryGone(fs0: Tree, mode: Mode, user: string, t: string, doomed: seq<Doomed>, k: nat, fs: Tree, c: string)
    requires Target(fs0, t) && Erasing(fs0, mode, user, t, doomed, k, fs) && k > 0
    requires c in fs0 && c != "/" && DirName(c) == doomed[k - 1].path
    ensures c in fs <==> Survives(fs0, mode, user, c)
  {
    hide Contains, IsKept, DirName, Join, IsTree;
    var x := doomed[k - 1];
    NextIsThere(fs0, mode, user, t, doomed, k, fs);
    InTree(fs0, c);
    EntryBelow(fs0, t, c);
    KeptSurvives(fs0, mode, user, c);
    if !Survives(fs0, mode, user, c) {
      assert Doomed(c, fs0[c].Dir?) in doomed;
      var j: nat :| j < |doomed| && doomed[j] == Doomed(c, fs0[c].Dir?);
      assert j >= k;
      assert Popped(doomed, k, c);
    }
  }

  lemma KeptSurvives(fs: Tree, mode: Mode, user: string, p: string)
    requires p in fs
    ensures IsKept(mode, user, fs[p]) ==> Survives(fs, mode, user, p)
    ensures mode == DELETE ==> !Survives(fs, mode, user, p)
  {
    ContainsSelf(p);
  }

  /** When it is a directory's turn, the directory is empty if and only if nothing below
      it has to stay. */
  lemma DirIsEmpty(fs0: Tree, mode: Mode, user: string, t: string, doomed: seq<Doomed>, k: nat, fs: Tree)
    requires Target(fs0, t) && Erasing(fs0, mode, user, t, doomed, k, fs) && k > 0 && doomed[k - 1].dir
    ensures IsEmptyDir(fs, doomed[k - 1].path) <==> !Survives(fs0, mode, user, doomed[k - 1].path)
  {
    hide IsTree;
    var d := doomed[k - 1].path;
    NextIsThere(fs0, mode, user, t, doomed, k, fs);
    SurvivesByEntry(fs0, mode, user, d);
    forall c | c in fs0 && c != "/" && DirName(c) == d
      ensures c in fs <==> Survives(fs0, mode, user, c)
    {
      EntryGone(fs0, mode, user, t, doomed, k, fs, c);
    }
    EmptyByEntries(fs0, mode, user, fs, d);
  }

  lemma EmptyByEntries(fs0: Tree, mode: Mode, user: string, fs: Tree, d: string)
    requires d in fs && fs[d].Dir? && d != "/" && fs.Keys <= fs0.Keys
    requires forall c :: c in fs0 && c != "/" && DirName(c) == d ==> (c in fs <==> Survives(fs0, mode, user, c))
    ensures IsEmptyDir(fs, d) <==> !exists c :: c in fs0 && c != "/" && DirName(c) == d && Survives(fs0, mode, user, c)
  {
    hide Survives, DirName, IsTree;
  }

  lemma DirGoes(fs0: Tree, mode: Mode, user: string, t: string, doomed: seq<Doomed>, k: nat, fs: Tree, fs': Tree)
    requires Target(fs0, t) && Erasing(fs0, mode, user, t, doomed, k, fs) && k > 0 && doomed[k - 1].dir
    requires fs' == if IsEmptyDir(fs, doomed[k - 1].path) then fs - {doomed[k - 1].path} else fs
    ensures Erasing(fs0, mode, user, t, doomed, k - 1, fs')
  {
    hide Contains, Survives, IsKept, DirName, Join, Complete, Popped, SortedByLength, Below, IsEmptyDir, IsTree;
    DirIsEmpty(fs0, mode, user, t, doomed, k, fs);
    var path := doomed[k - 1].path;
    forall p
      ensures Popped(doomed, k - 1, p) <==> Popped(doomed, k, p) || p == path
    {
      PoppedMore(doomed, k, p);
    }
  }

  lemma ErasedAll(fs0: Tree, mode: Mode, user: string, t: string, doomed: seq<Doomed>, fs: Tree)
    requires Target(fs0, t) && Erasing(fs0, mode, user, t, doomed, 0, fs)
    ensures Emptied(fs0, mode, user, t, fs)
  {
    hide Contains, Survives, IsKept, SortedByLength, IsTree;
    forall p | p in fs0
      ensures Popped(doomed, 0, p) && !Survives(fs0, mode, user, p) <==> Contains(p, t) && !Survives(fs0, mode, user, p)
    {
      KeptSurvives(fs0, mode, user, p);
      if Contains(p, t) && !Survives(fs0, mode, user, p) {
        assert Doomed(p, fs0[p].Dir?) in doomed;
      }
      if j: nat :| j < |doomed| && doomed[j].path == p {
        assert doomed[j] in doomed;
      }
    }
  }

  // ----- the run -----

  /** Directories of the target. */
  ghost function DirsBelow(fs: Tree, t: string): set<string> {
    set p | p in fs && Below(fs, t, p) && fs[p].Dir?
  }

  function Head(r: Logic): seq<string> {
    if r.listtarget then [r.targetpath] else []
  }

  ghost predicate Answers(fs: Tree, lister: string -> seq<Listed>) {
    forall d :: d in fs && fs[d].Dir? ==> IsListing(fs, d, lister(d))
  }

  lemma GatheringStarts(fs: Tree, r: Logic)
    requires Target(fs, r.target) && r.wantedlists == [r.target] && r.deletefiles == []
    ensures Gathering(fs, r, {}, r.wantedlists)
  {
    hide IsTree;
    ContainsSelf(r.target);
    assert r.wantedlists[0] == r.target && forall p :: p in r.wantedlists ==> p == r.target;
    assert FrontierOk(fs, r.target, {}, r.wantedlists);
  }

  lemma FirstInFrontier(fs: Tree, r: Logic, listed: set<string>, frontier: seq<string>)
    requires Gathering(fs, r, listed, frontier) && frontier != []
    ensures frontier[0] in fs && fs[frontier[0]].Dir? && Below(fs, r.target, frontier[0]) && frontier[0] !in listed
  {
    assert frontier[0] in frontier;
  }

  lemma OneLess(all: set<string>, listed: set<string>, d: string)
    requires d in all && d !in listed
    ensures |all - (listed + {d})| < |all - listed|
  {
    assert all - (listed + {d}) == (all - listed) - {d};
  }

  /** A directory of the frontier is listed. */
  method ListDirectory(logic: RecursiveCommandLogic, fs: Tree, lister: string -> seq<Listed>, cwd: string,
                       ghost listed: set<string>)
    requires Target(fs, logic.r.target) && Answers(fs, lister) && cwd in fs && fs[cwd].Dir?
    requires Gathering(fs, logic.r, listed, [cwd] + logic.r.wantedlists)
    modifies logic
    ensures var o, r := old(logic.r), logic.r;
            && r == o.(wantedlists := r.wantedlists, deletefiles := r.deletefiles)
            && Gathering(fs, r, listed + {cwd}, r.wantedlists)
            && (r.wantedlists == [] ==> SortedByLength(r.deletefiles))
    ensures cwd !in listed && cwd in DirsBelow(fs, logic.r.target)
  {
    hide Gathering, Target, Answers, Below, Contains, DirName, SortedByLength, IsListing, IsTree;
    ghost var was := logic.r;
    FirstInFrontier(fs, was, listed, [cwd] + was.wantedlists);
    ListingOf(fs, lister, cwd);
    BelowContains(fs, was.target, cwd);
    logic.AddFileList(cwd, lister(cwd));
    ListedKeeps(fs, was, listed, cwd, lister(cwd), logic.r);
  }

  /** The next directory is entered, or listed when the connection is there. */
  method NextDirectory(logic: RecursiveCommandLogic, cwd: string) returns (action: Action)
    requires logic.r.listtarget || logic.r.wantedlists != []
    requires logic.r.listtarget ==> cwd == logic.r.targetpath
    modifies logic
    ensures var o, r := old(logic.r), logic.r;
            var frontier := Head(o) + o.wantedlists;
            && r == o.(wantedlists := r.wantedlists, listtarget := r.listtarget, targetpath := r.targetpath)
            && (action.ChangeDir? ==> !o.listtarget && r.listtarget && action.path == r.targetpath == frontier[0] &&
                                      Head(r) + r.wantedlists == frontier)
            && (!action.ChangeDir? ==> !r.listtarget && frontier == [cwd] + r.wantedlists)
  {
    hide DirName;
    action := logic.GetAction(cwd);
  }

  /** The first part of the run: every directory of the target is visited and listed,
      each once. */
  method Gather(logic: RecursiveCommandLogic, fs: Tree, lister: string -> seq<Listed>, cwd0: string)
    returns (cwd: string, visited: seq<string>)
    requires Target(fs, logic.r.target) && Answers(fs, lister) && cwd0 in fs && fs[cwd0].Dir?
    requires logic.r.wantedlists == [logic.r.target] && logic.r.deletefiles == [] && !logic.r.listtarget &&
             logic.r.active
    modifies logic
    ensures var o, r := old(logic.r), logic.r;
            && r == o.(wantedlists := [], deletefiles := r.deletefiles, targetpath := r.targetpath)
            && Complete(fs, r.mode, r.user, r.target, r.deletefiles) && SortedByLength(r.deletefiles)
    ensures cwd in fs && fs[cwd].Dir?
    ensures Distinct(visited) && forall p :: p in visited <==> Below(fs, logic.r.target, p) && fs[p].Dir?
  {
    hide Gathering, Target, Complete, Answers, Below, Contains, DirName, SortedByLength, DirsBelow, Distinct, IsTree;
    GatheringStarts(fs, logic.r);
    cwd, visited := cwd0, [];
    assert Head(logic.r) + logic.r.wantedlists == logic.r.wantedlists;
    NothingVisited();
    ghost var listed, all, o := {}, DirsBelow(fs, logic.r.target), logic.r;
    while logic.r.listtarget || logic.r.wantedlists != []
      invariant logic.r == o.(wantedlists := logic.r.wantedlists, deletefiles := logic.r.deletefiles,
                              listtarget := logic.r.listtarget, targetpath := logic.r.targetpath)
      invariant Gathering(fs, logic.r, listed, Head(logic.r) + logic.r.wantedlists)
      invariant logic.r.listtarget ==> cwd == logic.r.targetpath
      invariant logic.r.wantedlists == [] && !logic.r.listtarget ==> SortedByLength(logic.r.deletefiles)
      invariant cwd in fs && fs[cwd].Dir?
      invariant Distinct(visited) && forall p :: p in visited <==> p in listed
      decreases |all - listed|, if logic.r.listtarget then 0 else 1
    {
      ghost var was := logic.r;
      ghost var frontier := Head(was) + was.wantedlists;
      FirstInFrontier(fs, was, listed, frontier);
      var action := NextDirectory(logic, cwd);
      SameGathering(fs, was, logic.r, listed, frontier);
      if action.ChangeDir? {
        cwd := action.path;
      } else {
        ListDirectory(logic, fs, lister, cwd, listed);
        OneLess(all, listed, cwd);
        assert Head(logic.r) + logic.r.wantedlists == logic.r.wantedlists;
        DistinctAppend(visited, cwd);
        listed, visited := listed + {cwd}, visited + [cwd];
      }
    }
    assert Head(logic.r) + logic.r.wantedlists == [];
    Gathered(fs, logic.r, listed);
  }

  lemma NothingVisited()
    ensures Distinct<string>([])
  {
  }

  lemma SameGathering(fs: Tree, r: Logic, r': Logic, listed: set<string>, frontier: seq<string>)
    requires Gathering(fs, r, listed, frontier)
    requires r'.mode == r.mode && r'.user == r.user && r'.target == r.target && r'.deletefiles == r.deletefiles
    ensures Gathering(fs, r', listed, frontier)
  {
  }

  lemma ListingOf(fs: Tree, lister: string -> seq<Listed>, d: string)
    requires Answers(fs, lister) && d in fs && fs[d].Dir?
    ensures IsListing(fs, d, lister(d))
  {
  }

  lemma BelowContains(fs: Tree, t: string, p: string)
    requires Below(fs, t, p)
    ensures Contains(p, t)
  {
  }

  /** A command that deletes, and where it was sent. */
  datatype Issued = Issued(dir: bool, path: string, cwd: string, empty: bool)

  /** It is sent from the directory that the path is in; a directory that is deleted with
      everything in it is empty by then, and a file that is kept is never deleted. */
  ghost predicate WellIssued(fs0: Tree, mode: Mode, user: string, t: string, c: Issued) {
    && Below(fs0, t, c.path) && c.dir == fs0[c.path].Dir? && c.cwd == DirName(c.path)
    && !IsKept(mode, user, fs0[c.path])
    && (c.dir ==> (c.empty <==> !Survives(fs0, mode, user, c.path)))
    && (c.dir && mode == DELETE ==> c.empty)
  }

  /** The doomed from place k on have been asked for, the last one first. */
  ghost predicate AskedFrom(doomed: seq<Doomed>, k: nat, log: seq<Issued>) {
    && |log| + k == |doomed|
    && forall i :: 0 <= i < |log| ==> Doomed(log[i].path, log[i].dir) == doomed[|doomed| - 1 - i]
  }

  lemma AskedMore(doomed: seq<Doomed>, k: nat, log: seq<Issued>, c: Issued)
    requires AskedFrom(doomed, k, log) && k > 0 && Doomed(c.path, c.dir) == doomed[k - 1]
    ensures AskedFrom(doomed, k - 1, log + [c])
  {
  }

  /** Everything below the target that is not to be kept was asked for, and just once. */
  ghost predicate AskedOnce(fs: Tree, mode: Mode, user: string, t: string, log: seq<Issued>) {
    && (forall i, j :: 0 <= i < j < |log| ==> log[i].path != log[j].path)
    && (forall c :: c in log ==> Below(fs, t, c.path) && !IsKept(mode, user, fs[c.path]))
    && (forall p :: Below(fs, t, p) && !IsKept(mode, user, fs[p]) ==> exists c :: c in log && c.path == p)
  }

  lemma AskedAll(fs: Tree, mode: Mode, user: string, t: string, doomed: seq<Doomed>, log: seq<Issued>)
    requires Complete(fs, mode, user, t, doomed) && AskedFrom(doomed, 0, log)
    ensures AskedOnce(fs, mode, user, t, log)
  {
    hide Contains, IsKept;
    forall i | 0 <= i < |log|
      ensures Doomed(log[i].path, log[i].dir) in doomed
    {
      assert doomed[|doomed| - 1 - i] in doomed;
    }
    forall i, j | 0 <= i < j < |log|
      ensures log[i].path != log[j].path
    {
      assert doomed[|doomed| - 1 - i] != doomed[|doomed| - 1 - j];
    }
    forall p | Below(fs, t, p) && !IsKept(mode, user, fs[p])
      ensures exists c :: c in log && c.path == p
    {
      assert Doomed(p, fs[p].Dir?) in doomed;
      var k: nat :| k < |doomed| && doomed[k] == Doomed(p, fs[p].Dir?);
      assert log[|doomed| - 1 - k] in log;
    }
  }

  /** The second part of the run: what is doomed is deleted, the longest paths first. */
  method Erase(logic: RecursiveCommandLogic, fs0: Tree, cwd0: string) returns (fs: Tree, log: seq<Issued>)
    requires Target(fs0, logic.r.target) && cwd0 in fs0 && fs0[cwd0].Dir?
    requires var r := logic.r;
             && Complete(fs0, r.mode, r.user, r.target, r.deletefiles) && SortedByLength(r.deletefiles)
             && r.wantedlists == [] && !r.listtarget && r.active && r.deletefiles != []
    modifies logic
    ensures !logic.r.active
    ensures Emptied(fs0, old(logic.r).mode, old(logic.r).user, old(logic.r).target, fs)
    ensures forall c :: c in log ==> WellIssued(fs0, old(logic.r).mode, old(logic.r).user, old(logic.r).target, c)
    ensures AskedOnce(fs0, old(logic.r).mode, old(logic.r).user, old(logic.r).target, log)
  {
    hide Complete, Below, Contains, DirName, BaseName, Join, IsKept, IsEmptyDir, Survives, IsTree, SortedByLength,
      WellIssued, Popped, Target, AskedFrom, AskedOnce;
    var cwd := cwd0;
    fs, log := fs0, [];
    ghost var o, doomed := logic.r, logic.r.deletefiles;
    ghost var k: nat := |doomed|;
    ErasingStarts(fs0, o.mode, o.user, o.target, doomed);
    NothingAsked(doomed);
    while logic.r.active
      invariant k <= |doomed| && logic.r.deletefiles == doomed[..k] && logic.r.active == (k > 0)
      invariant logic.r.wantedlists == [] && !logic.r.listtarget
      invariant Erasing(fs0, o.mode, o.user, o.target, doomed, k, fs)
      invariant forall c :: c in log ==> WellIssued(fs0, o.mode, o.user, o.target, c)
      invariant AskedFrom(doomed, k, log)
      decreases k, if k > 0 && cwd == DirName(doomed[k - 1].path) then 0 else 1
    {
      NextIsThere(fs0, o.mode, o.user, o.target, doomed, k, fs);
      ghost var last := doomed[k - 1];
      assert logic.r.deletefiles[|logic.r.deletefiles| - 1] == last;
      var action := logic.GetAction(cwd);
      match action {
        case ChangeDir(path) =>
          assert path in fs && fs[path].Dir?;
          cwd := path;
        case DeleteFile(name) =>
          IssuedFile(fs0, o.mode, o.user, o.target, doomed, k, fs, cwd);
          AskedMore(doomed, k, log, Issued(false, Join(cwd, name), cwd, false));
          log := log + [Issued(false, Join(cwd, name), cwd, false)];
          fs := RemoveFile(fs, cwd, name);
          k := k - 1;
        case DeleteDir(name) =>
          IssuedDir(fs0, o.mode, o.user, o.target, doomed, k, fs, cwd);
          AskedMore(doomed, k, log, Issued(true, Join(cwd, name), cwd, IsEmptyDir(fs, Join(cwd, name))));
          log := log + [Issued(true, Join(cwd, name), cwd, IsEmptyDir(fs, Join(cwd, name)))];
          fs := RemoveDir(fs, cwd, name);
          k := k - 1;
      }
      assert logic.r.deletefiles == doomed[..k];
    }
    ErasedAll(fs0, o.mode, o.user, o.target, doomed, fs);
    CompleteOf(fs0, o.mode, o.user, o.target, doomed, fs);
    AskedAll(fs0, o.mode, o.user, o.target, doomed, log);
  }

  lemma NothingAsked(doomed: seq<Doomed>)
    ensures AskedFrom(doomed, |doomed|, [])
  {
  }

  lemma CompleteOf(fs0: Tree, mode: Mode, user: string, t: string, doomed: seq<Doomed>, fs: Tree)
    requires Erasing(fs0, mode, user, t, doomed, 0, fs)
    ensures Complete(fs0, mode, user, t, doomed)
  {
  }

  lemma ErasingStarts(fs: Tree, mode: Mode, user: string, t: string, doomed: seq<Doomed>)
    requires Complete(fs, mode, user, t, doomed) && SortedByLength(doomed)
    ensures Erasing(fs, mode, user, t, doomed, |doomed|, fs)
  {
  }

  lemma IssuedFile(fs0: Tree, mode: Mode, user: string, t: string, doomed: seq<Doomed>, k: nat, fs: Tree, cwd: string)
    requires Target(fs0, t) && Erasing(fs0, mode, user, t, doomed, k, fs) && 0 < k <= |doomed| && !doomed[k - 1].dir
    requires cwd == DirName(doomed[k - 1].path)
    ensures var name := BaseName(doomed[k - 1].path);
            && Join(cwd, name) == doomed[k - 1].path
            && WellIssued(fs0, mode, user, t, Issued(false, Join(cwd, name), cwd, false))
            && Erasing(fs0, mode, user, t, doomed, k - 1, RemoveFile(fs, cwd, name))
  {
    hide Erasing, Target, IsKept, DirName, BaseName, Join, Contains, Survives, IsTree;
    NextIsThere(fs0, mode, user, t, doomed, k, fs);
    FileGoes(fs0, mode, user, t, doomed, k, fs);
  }

  lemma IssuedDir(fs0: Tree, mode: Mode, user: string, t: string, doomed: seq<Doomed>, k: nat, fs: Tree, cwd: string)
    requires Target(fs0, t) && Erasing(fs0, mode, user, t, doomed, k, fs) && 0 < k <= |doomed| && doomed[k - 1].dir
    requires cwd == DirName(doomed[k - 1].path)
    ensures var name := BaseName(doomed[k - 1].path);
            && Join(cwd, name) == doomed[k - 1].path
            && WellIssued(fs0, mode, user, t, Issued(true, Join(cwd, name), cwd, IsEmptyDir(fs, Join(cwd, name))))
            && Erasing(fs0, mode, user, t, doomed, k - 1, RemoveDir(fs, cwd, name))
  {
    hide Erasing, Target, IsKept, DirName, BaseName, Join, Contains, Survives, IsEmptyDir, IsTree;
    NextIsThere(fs0, mode, user, t, doomed, k, fs);
    DirIsEmpty(fs0, mode, user, t, doomed, k, fs);
    DirGoes(fs0, mode, user, t, doomed, k, fs, RemoveDir(fs, cwd, BaseName(doomed[k - 1].path)));
    KeptSurvives(fs0, mode, user, doomed[k - 1].path);
  }

  /** A recursive delete of a directory below the root ends inactive, with everything gone
      that can go and nothing else. */
  method Run(fs0: Tree, lister: string -> seq<Listed>, cwd0: string, mode: Mode, target: string, user: string)
    returns (fs: Tree, visited: seq<string>, log: seq<Issued>)
    requires Target(fs0, target) && Answers(fs0, lister) && cwd0 in fs0 && fs0[cwd0].Dir?
    ensures Emptied(fs0, mode, user, target, fs)
    ensures Distinct(visited) && forall p :: p in visited <==> Below(fs0, target, p) && fs0[p].Dir?
    ensures forall c :: c in log ==> WellIssued(fs0, mode, user, target, c)
    ensures AskedOnce(fs0, mode, user, target, log)
  {
    hide Target, Answers, Complete, SortedByLength, Emptied, WellIssued, AskedOnce, Contains, IsTree;
    var logic := new RecursiveCommandLogic();
    logic.Initialize(mode, target, user);
    var cwd;
    cwd, visited := Gather(logic, fs0, lister, cwd0);
    TargetIsDoomed(fs0, mode, user, target, logic.r.deletefiles);
    fs, log := Erase(logic, fs0, cwd);
    assert !logic.r.active;
  }

  lemma TargetIsDoomed(fs: Tree, mode: Mode, user: string, t: string, doomed: seq<Doomed>)
    requires Target(fs, t) && Complete(fs, mode, user, t, doomed)
    ensures doomed != []
  {
    ContainsSelf(t);
    assert Doomed(t, true) in doomed;
  }

  /** With nothing to keep, exactly the target and what is below it are gone. */
  lemma DeleteAll(fs0: Tree, user: string, t: string, fs: Tree)
    requires Emptied(fs0, DELETE, user, t, fs)
    ensures fs == map p | p in fs0 && !Contains(p, t) :: fs0[p]
  {
    forall p | p in fs0
      ensures !Survives(fs0, DELETE, user, p)
    {
      KeptSurvives(fs0, DELETE, user, p);
    }
  }

  // ----- a directory that cannot be entered -----

  /** The longest doomed paths are neither in the current directory nor in the base. */
  predicate Stuck(r: Logic, cwd: string, length: nat) {
    && r.active && !r.listtarget && r.wantedlists == [] && r.deletefiles != [] && SortedByLength(r.deletefiles)
    && length > 1 && |r.deletefiles[|r.deletefiles| - 1].path| == length
    && forall x :: x in r.deletefiles && |x.path| == length ==> DirName(x.path) != cwd && DirName(x.path) != r.basepath
  }

  /** When the server refuses every change of directory, the deletion never ends: each round
      dooms one more directory, and leaves the logic active and where it was. */
  method RefuseAll(logic: RecursiveCommandLogic, cwd: string, rounds: nat)
    requires logic.r.deletefiles != []
    requires Stuck(logic.r, cwd, |logic.r.deletefiles[|logic.r.deletefiles| - 1].path|)
    modifies logic
    ensures logic.r.active && |logic.r.deletefiles| == |old(logic.r).deletefiles| + rounds
    ensures multiset(old(logic.r).deletefiles) <= multiset(logic.r.deletefiles)
  {
    hide DirName, SortedByLength;
    ghost var length := |logic.r.deletefiles[|logic.r.deletefiles| - 1].path|;
    for n := 0 to rounds
      invariant Stuck(logic.r, cwd, length) && |logic.r.deletefiles| == |old(logic.r).deletefiles| + n
      invariant multiset(old(logic.r).deletefiles) <= multiset(logic.r.deletefiles)
    {
      ghost var was := logic.r;
      assert was.deletefiles[|was.deletefiles| - 1] in was.deletefiles;
      var action := logic.GetAction(cwd);
      assert action == ChangeDir(logic.r.targetpath);
      logic.FailedCwd();
      StillStuck(was, cwd, length, logic.r);
    }
  }

  /** The directory that is added is shorter than what is in it. */
  lemma StillStuck(r: Logic, cwd: string, length: nat, r': Logic)
    requires Stuck(r, cwd, length) && SortedByLength(r'.deletefiles)
    requires var target := DirName(r.deletefiles[|r.deletefiles| - 1].path);
             && r' == r.(targetpath := target, deletefiles := r'.deletefiles)
             && multiset(r'.deletefiles) == multiset(r.deletefiles + [Doomed(target, true)])
    ensures Stuck(r', cwd, length) && |r'.deletefiles| == |r.deletefiles| + 1
    ensures multiset(r.deletefiles) <= multiset(r'.deletefiles)
  {
    var last := r.deletefiles[|r.deletefiles| - 1];
    var more := r.deletefiles + [Doomed(DirName(last.path), true)];
    SameLength(r'.deletefiles, more);
    SameMembers(more, r'.deletefiles);
    DirShorter(last.path);
    assert last in more;
    assert r'.deletefiles[|r'.deletefiles| - 1] in more;
    forall x | x in more
      ensures |x.path| <= length
    {
      if x in r.deletefiles {
        var i: nat :| i < |r.deletefiles| && r.deletefiles[i] == x;
      }
    }
    var j: nat :| j < |r'.deletefiles| && r'.deletefiles[j] == last;
  }

  lemma SameLength(a: seq<Doomed>, b: seq<Doomed>)
    requires multiset(a) == multiset(b)
    ensures |a| == |b|
  {
    assert |multiset(a)| == |a| && |multiset(b)| == |b|;
  }

  lemma DirShorter(p: string)
    requires |p| > 1
    ensures |DirName(p)| < |p|
  {
  }

  // ----- an example -----

  function SharedTree(): Tree {
    map["/" := Dir, "/a" := Dir, "/a/b" := Plain("other")]
  }

  function SharedListings(): string -> seq<Listed> {
    (d: string) =>
      if d == "/" then [Listed("a", true, "me")]
      else if d == "/a" then [Listed("b", false, "other")]
      else []
  }

  lemma SharedPaths()
    ensures Join("/", "a") == "/a" && DirName("/a") == "/" && BaseName("/a") == "a"
    ensures Join("/a", "b") == "/a/b" && DirName("/a/b") == "/a" && BaseName("/a/b") == "b"
  {
    JoinParts("/", "a");
    JoinParts("/a", "b");
    assert Join("/", "a") == "/a" && Join("/a", "b") == "/a/b";
  }

  lemma SharedIsTree()
    ensures Target(SharedTree(), "/a")
  {
    hide DirName, BaseName, Join;
    SharedPaths();
    assert InDirectory(SharedTree(), "/a") && InDirectory(SharedTree(), "/a/b");
  }

  /** The tree and its listings are what a run asks for. */
  lemma SharedCanRun()
    ensures Target(SharedTree(), "/a") && Answers(SharedTree(), SharedListings())
  {
    hide DirName, BaseName, Join, Target;
    SharedPaths();
    SharedIsTree();
    assert IsListing(SharedTree(), "/", SharedListings()("/"));
    assert IsListing(SharedTree(), "/a", SharedListings()("/a"));
  }

  /** A directory with a file of someone else goes with everything in it, but stays when
      only own files are to go: it is then asked for while it is not empty. */
  lemma SharedStays()
    ensures Survives(SharedTree(), DELETEOWN, "me", "/a") && !Survives(SharedTree(), DELETE, "me", "/a")
  {
    assert Contains("/a/b", "/a") && IsKept(DELETEOWN, "me", SharedTree()["/a/b"]);
  }
}
