/** Deleting a directory with all that is in it, one command at a time. */
module RecursiveDeletes {
  import opened Base
  import opened Paths
  import opened RemoteTrees
  import FileListContent

  datatype Doomed = Doomed(path: string, dir: bool)

  datatype Action = ListDir | ChangeDir(path: string) | DeleteFile(name: string) | DeleteDir(name: string) | Nothing

  datatype Logic = Logic(
    mode: Mode,
    active: bool,
    basepath: string,
    target: string,
    user: string,
    wantedlists: seq<string>,
    deletefiles: seq<Doomed>,
    listtarget: bool,
    targetpath: string)

  // ----- listings -----

  function WantedDirs(d: string, entries: seq<Listed>): (r: seq<string>)
    ensures forall p :: p in r <==> exists e :: e in entries && e.dir && p == Join(d, e.name)
  {
    if entries == [] then []
    else
      var init, e := WantedDirs(d, entries[..|entries| - 1]), entries[|entries| - 1];
      if e.dir then init + [Join(d, e.name)] else init
  }

  predicate Goes(mode: Mode, user: string, e: Listed) {
    !e.dir && (mode == DELETEOWN ==> FileListContent.EightCharUserCompare(e.owner, user))
  }

  function DoomedFiles(mode: Mode, user: string, d: string, entries: seq<Listed>): (r: seq<Doomed>)
    ensures forall x :: x in r <==>
            !x.dir && exists e :: e in entries && Goes(mode, user, e) && x.path == Join(d, e.name)
  {
    if entries == [] then []
    else
      var init, e := DoomedFiles(mode, user, d, entries[..|entries| - 1]), entries[|entries| - 1];
      if Goes(mode, user, e) then init + [Doomed(Join(d, e.name), false)] else init
  }

  predicate SortedByLength(s: seq<Doomed>) {
    forall i, j :: 0 <= i < j < |s| ==> |s[i].path| <= |s[j].path|
  }

  /** Entries have different names, so their paths differ. */
  lemma {:induction false} DistinctPaths(mode: Mode, user: string, d: string, entries: seq<Listed>)
    requires ValidDir(d) && forall e :: e in entries ==> ValidName(e.name)
    requires forall i, j :: 0 <= i < j < |entries| ==> entries[i].name != entries[j].name
    ensures Distinct(WantedDirs(d, entries)) && Distinct(DoomedFiles(mode, user, d, entries))
  {
    if entries != [] {
      var init, e := entries[..|entries| - 1], entries[|entries| - 1];
      DistinctPaths(mode, user, d, init);
      forall f | f in init
        ensures Join(d, f.name) != Join(d, e.name)
      {
        JoinParts(d, f.name);
        JoinParts(d, e.name);
      }
      assert Join(d, e.name) !in WantedDirs(d, init);
      assert Doomed(Join(d, e.name), false) !in DoomedFiles(mode, user, d, init);
      DistinctAppend(WantedDirs(d, init), Join(d, e.name));
      DistinctAppend(DoomedFiles(mode, user, d, init), Doomed(Join(d, e.name), false));
    }
  }

  function Insert(t: seq<Doomed>, x: Doomed): (r: seq<Doomed>)
    ensures forall y :: y in r <==> y == x || y in t
  {
    if t == [] then [x]
    else if |t[|t| - 1].path| <= |x.path| then t + [x]
    else Insert(t[..|t| - 1], x) + [t[|t| - 1]]
  }

  lemma {:induction false} InsertKeeps(t: seq<Doomed>, x: Doomed)
    ensures multiset(Insert(t, x)) == multiset(t) + multiset{x}
  {
    if t != [] {
      assert t == t[..|t| - 1] + [t[|t| - 1]];
      InsertKeeps(t[..|t| - 1], x);
    }
  }

  lemma {:induction false} InsertSorts(t: seq<Doomed>, x: Doomed)
    requires SortedByLength(t)
    ensures SortedByLength(Insert(t, x))
  {
    if t != [] {
      var init, last := t[..|t| - 1], t[|t| - 1];
      InsertSorts(init, x);
      if |last.path| <= |x.path| {
        forall i | 0 <= i < |t|
          ensures |t[i].path| <= |last.path|
        {
        }
      } else {
        forall y | y in Insert(init, x)
          ensures |y.path| <= |last.path|
        {
        }
      }
    }
  }

  class RecursiveCommandLogic {
    var r: Logic

    constructor ()
      ensures !r.active
    {
      r := Logic(DELETE, false, "", "", "", [], [], false, "");
    }

    method Initialize(mode: Mode, target: string, user: string)
      modifies this
      ensures r == Logic(mode, true, DirName(target), target, user, [target], [], false, old(r).targetpath)
    {
      r := r.(mode := mode);
      r := r.(active := true, listtarget := false);
      r := r.(basepath := DirName(target), target := target, user := user);
      r := r.(wantedlists := [target], deletefiles := []);
    }

    /** What to do next on a connection that is in currentpath. */
    method GetAction(currentpath: string) returns (action: Action)
      modifies this
      ensures var o := old(r);
              if o.listtarget then
                && r == o.(listtarget := currentpath != o.targetpath)
                && action == if currentpath == o.targetpath then ListDir else ChangeDir(o.targetpath)
              else if o.wantedlists != [] then
                var next := o.wantedlists[0];
                && r == o.(listtarget := currentpath != next, targetpath := next, wantedlists := o.wantedlists[1..])
                && action == if currentpath == next then ListDir else ChangeDir(next)
              else if o.deletefiles == [] then
                r == o.(active := false) && action == Nothing
              else
                var last := o.deletefiles[|o.deletefiles| - 1];
                if currentpath != DirName(last.path) then
                  r == o.(targetpath := DirName(last.path)) && action == ChangeDir(DirName(last.path))
                else
                  && r == o.(deletefiles := o.deletefiles[..|o.deletefiles| - 1],
                             active := o.active && |o.deletefiles| > 1)
                  && action == if last.dir then DeleteDir(BaseName(last.path)) else DeleteFile(BaseName(last.path))
    {
      if r.listtarget {
        if currentpath == r.targetpath {
          r := r.(listtarget := false);
          return ListDir;
        }
        return ChangeDir(r.targetpath);
      }
      if |r.wantedlists| == 0 {
        if |r.deletefiles| == 0 {
          r := r.(active := false);
          return Nothing;
        }
        var delfile := r.deletefiles[|r.deletefiles| - 1];
        if currentpath != DirName(delfile.path) {
          r := r.(targetpath := DirName(delfile.path));
          return ChangeDir(r.targetpath);
        }
        r := r.(deletefiles := r.deletefiles[..|r.deletefiles| - 1]);
        if |r.deletefiles| == 0 {
          r := r.(active := false);
        }
        return if delfile.dir then DeleteDir(BaseName(delfile.path)) else DeleteFile(BaseName(delfile.path));
      }
      r := r.(listtarget := true, targetpath := r.wantedlists[0]);
      r := r.(wantedlists := r.wantedlists[1..]);
      if currentpath == r.targetpath {
        r := r.(listtarget := false);
        return ListDir;
      }
      return ChangeDir(r.targetpath);
    }

    /** Some order of the doomed by length; equal lengths come in any order. */
    static method SortByLength(s: seq<Doomed>) returns (t: seq<Doomed>)
      ensures multiset(t) == multiset(s) && SortedByLength(t)
    {
      t := [];
      for i := 0 to |s|
        invariant multiset(t) == multiset(s[..i]) && SortedByLength(t)
      {
        assert s[..i + 1] == s[..i] + [s[i]];
        InsertKeeps(t, s[i]);
        InsertSorts(t, s[i]);
        t := Insert(t, s[i]);
      }
      assert s[..|s|] == s;
    }

    /** A directory of the target was listed. */
    method AddFileList(path: string, entries: seq<Listed>)
      modifies this
      ensures !Contains(path, old(r).target) ==> r == old(r)
      ensures Contains(path, old(r).target) ==>
                && r == old(r).(wantedlists := old(r).wantedlists + WantedDirs(path, entries),
                                deletefiles := r.deletefiles)
                && multiset(r.deletefiles) == multiset(old(r).deletefiles + [Doomed(path, true)] +
                                                       DoomedFiles(old(r).mode, old(r).user, path, entries))
                && (r.wantedlists == [] ==> SortedByLength(r.deletefiles))
    {
      if !Contains(path, r.target) {
        return;
      }
      CollectEntries(path, entries);
      if |r.wantedlists| == 0 {
        var sorted := SortByLength(r.deletefiles);
        r := r.(deletefiles := sorted);
      }
    }

    method CollectEntries(path: string, entries: seq<Listed>)
      modifies this
      ensures r == old(r).(wantedlists := old(r).wantedlists + WantedDirs(path, entries),
                           deletefiles := old(r).deletefiles + [Doomed(path, true)] +
                                          DoomedFiles(old(r).mode, old(r).user, path, entries))
    {
      hide Join;
      ghost var was := r;
      r := r.(deletefiles := r.deletefiles + [Doomed(path, true)]);
      for i := 0 to |entries|
        invariant r == was.(wantedlists := was.wantedlists + WantedDirs(path, entries[..i]),
                            deletefiles := was.deletefiles + [Doomed(path, true)] +
                                           DoomedFiles(was.mode, was.user, path, entries[..i]))
      {
        var e := entries[i];
        assert entries[..i + 1][..i] == entries[..i];
        if e.dir {
          r := r.(wantedlists := r.wantedlists + [Join(path, e.name)]);
        } else {
          if !(r.mode == DELETEOWN && !FileListContent.EightCharUserCompare(e.owner, r.user)) {
            r := r.(deletefiles := r.deletefiles + [Doomed(Join(path, e.name), false)]);
          }
        }
      }
      assert entries[..|entries|] == entries;
    }

    method FailedCwd()
      modifies this
      ensures var o := old(r);
              && r == o.(listtarget := false, active := o.active && o.targetpath != o.basepath,
                         deletefiles := r.deletefiles)
              && multiset(r.deletefiles) ==
                 multiset(o.deletefiles + if o.targetpath == o.basepath then [] else [Doomed(o.targetpath, true)])
              && (r.wantedlists == [] ==> SortedByLength(r.deletefiles))
    {
      r := r.(listtarget := false);
      assert r.deletefiles + [] == r.deletefiles;
      if r.targetpath == r.basepath {
        r := r.(active := false);
      } else {
        r := r.(deletefiles := r.deletefiles + [Doomed(r.targetpath, true)]);
      }
      if |r.wantedlists| == 0 {
        var sorted := SortByLength(r.deletefiles);
        r := r.(deletefiles := sorted);
      }
    }
  }
}
