/** The file list of one remote directory, with its redundant counters and indexes,
    and the reading of a raw listing into it. */
module FileLists {
  import opened Base
  import opened FileListContent
  import opened FileListLaws
  import opened FileListRuns
  import opened FileListSweep

  class FileList {
    /** The fields of the list, updated one by one. */
    var c: Content

    ghost predicate Valid()
      reads this
    {
      Sound(c)
    }

    constructor (username: string, state: FileListState)
      ensures Valid() && c == InitialContent(username, state)
      ensures Counted(c) && PercentageOk(c)
    {
      c := InitialContent(username, state);
    }

    method Lookup(name: string) returns (r: Option<File>)
      requires Valid()
      ensures r == GetFile(c, name)
      ensures r.Some? <==> Contains(c, name)
    {
      if name in c.files {
        return Some(c.files[name]);
      }
      var l := ToLower(name);
      if l in c.lower {
        var found := c.lower[l];
        if found in c.files {
          return Some(c.files[found]);
        }
      }
      return None;
    }

    method RecalcOwnedPercentage()
      modifies this
      ensures c == Recalculated(old(c))
    {
      c := c.(ownpercentage := OwnedPercentage(c.owned, |c.files|));
    }

    method SetChanged()
      modifies this
      ensures c == Changed(old(c))
    {
      c := c.(boardstate := Bumped(c.boardstate, CHANGED));
    }

    method SetMetaChanged()
      modifies this
      ensures c == MetaChanged(old(c))
    {
      c := c.(boardstate := Bumped(c.boardstate, META_CHANGED));
    }

    method NoteChange(name: string)
      modifies this
      ensures c == Noted(old(c), name)
    {
      c := c.(changed := c.changed + {name});
    }

    /** The counters that follow the size of a stored file. */
    method ResizeStored(name: string, newsize: nat)
      requires name in c.files
      modifies this
      ensures var o := old(c);
              var was := o.files[name];
              c == o.(totalfilesize := o.totalfilesize + (if was.directory then 0 else newsize - was.size),
                      uploadedfiles := o.uploadedfiles + UploadedStep(was, newsize),
                      maxfilesize := Max(o.maxfilesize, newsize),
                      boardstate := if was.size != newsize then Bumped(o.boardstate, CHANGED) else o.boardstate,
                      changed := o.changed + if was.size != newsize then {name} else {})
    {
      var oldsize := c.files[name].size;
      if oldsize != newsize {
        if !c.files[name].directory {
          c := c.(totalfilesize := c.totalfilesize + newsize - oldsize);
          if oldsize == 0 && newsize > 0 {
            c := c.(uploadedfiles := c.uploadedfiles + 1);
          } else if oldsize > 0 && newsize == 0 {
            c := c.(uploadedfiles := c.uploadedfiles - 1);
          }
        }
        SetChanged();
        NoteChange(name);
      }
      if newsize > c.maxfilesize {
        c := c.(maxfilesize := newsize);
      }
    }

    method ReownStored(name: string, owner: string)
      requires name in c.files
      modifies this
      ensures var o := old(c);
              var was := o.files[name].owner;
              var owned := OwnedAfter(o.user, o.owned, was, owner);
              c == o.(owned := owned,
                      ownpercentage := if EightCharUserCompare(owner, was) then o.ownpercentage
                                       else OwnedPercentage(owned, |o.files|))
    {
      hide EightCharUserCompare, OwnedPercentage;
      var was := c.files[name].owner;
      if !EightCharUserCompare(owner, was) {
        if EightCharUserCompare(c.user, owner) {
          c := c.(owned := c.owned + 1);
        } else if EightCharUserCompare(c.user, was) {
          c := c.(owned := c.owned - 1);
        }
        RecalcOwnedPercentage();
      }
    }

    method NoteMeta(name: string, f: File)
      requires name in c.files
      modifies this
      ensures var o := old(c);
              var was := o.files[name];
              c == o.(boardstate :=
                      if was.owner != f.owner || was.group != f.group || was.lastmodified != f.lastmodified
                      then Bumped(o.boardstate, META_CHANGED) else o.boardstate,
                      changed := o.changed + if was.owner != f.owner then {name} else {})
    {
      var was := c.files[name];
      if was.owner != f.owner {
        SetMetaChanged();
        NoteChange(name);
      }
      if was.group != f.group {
        SetMetaChanged();
      }
      if was.lastmodified != f.lastmodified {
        SetMetaChanged();
      }
    }

    method CountIn(f: File)
      modifies this
      ensures c == old(c).(owned := old(c).owned + (if EightCharUserCompare(old(c).user, f.owner) then 1 else 0),
                           uploadedfiles := old(c).uploadedfiles + (if HasContent(f) then 1 else 0),
                           totalfilesize := old(c).totalfilesize + (if HasContent(f) then f.size else 0),
                           maxfilesize := Max(old(c).maxfilesize, f.size))
    {
      hide EightCharUserCompare;
      if f.size > 0 && !f.directory {
        c := c.(uploadedfiles := c.uploadedfiles + 1, totalfilesize := c.totalfilesize + f.size);
      }
      if f.size > c.maxfilesize {
        c := c.(maxfilesize := f.size);
      }
      if EightCharUserCompare(c.user, f.owner) {
        c := c.(owned := c.owned + 1);
      }
    }

    method InsertNew(name: string, f: File)
      requires Valid() && name !in c.files
      modifies this
      ensures Valid() && c == AddNew(old(c), name, f)
    {
      hide EightCharUserCompare, OwnedPercentage, ToLower, Sound, Bumped, HasContent, Max;
      AddNewSound(c, name, f);
      c := c.(order := c.order + [name], files := c.files[name := f], lower := c.lower[ToLower(name) := name]);
      CountIn(f);
      RecalcOwnedPercentage();
      SetChanged();
      NoteChange(name);
    }

    /** One entry of a listing; valid says whether its line could be parsed. */
    method UpdateFile(name: string, f: File, valid: bool) returns (accepted: bool)
      requires Valid()
      modifies this
      ensures Valid() && accepted == (valid && name != "." && name != "..")
      ensures c == if accepted then Update(old(c), name, f) else old(c)
      ensures accepted ==> OthersSame(old(c), c, name) && c.files[name].size == f.size && c.files[name].owner == f.owner
    {
      hide EightCharUserCompare, OwnedPercentage, ToLower, Sound, OwnedAfter, UploadedStep, AddNew, Max;
      UpdatedFile(c, name, f);
      if !valid || name == "." || name == ".." {
        return false;
      }
      UpdateSound(c, name, f);
      if name in c.files {
        var was := c.files[name];
        ResizeStored(name, f.size);
        ReownStored(name, f.owner);
        NoteMeta(name, f);
        c := c.(files := c.files[name := Refreshed(was, f)]);
        assert c.changed == old(c).changed + if was.size != f.size || was.owner != f.owner then {name} else {};
      } else {
        InsertNew(name, f);
      }
      return true;
    }

    method TouchFile(name: string, user: string, upload: bool)
      requires Valid()
      modifies this
      ensures Valid() && c == Touch(old(c), name, user, upload)
      ensures OthersSame(old(c), c, name)
      ensures c.files[name].uploading <==> upload || (name in old(c).files && old(c).files[name].uploading)
      ensures name in old(c).files ==>
                c.files[name] == old(c).files[name].(uploading := c.files[name].uploading, updateflag := false)
      ensures name !in old(c).files ==>
                c.files[name].size == 0 && c.files[name].owner == user && !c.files[name].directory
    {
      hide Sound, AddNew;
      TouchedFile(c, name, user, upload);
      TouchCounted(c, name, user, upload);
      if name in c.files {
        c := c.(files := c.files[name := c.files[name].(updateflag := false)]);
      } else {
        InsertNew(name, EmptyFile(user));
      }
      assert c == Announce(old(c), name, user);
      if upload && !c.files[name].uploading {
        c := c.(files := c.files[name := c.files[name].(uploading := true)], uploading := c.uploading + 1);
      }
    }

    method CountOut(f: File)
      modifies this
      ensures c == old(c).(owned := old(c).owned - (if EightCharUserCompare(old(c).user, f.owner) then 1 else 0),
                           uploadedfiles := old(c).uploadedfiles - (if HasContent(f) then 1 else 0),
                           totalfilesize := old(c).totalfilesize - (if HasContent(f) then f.size else 0),
                           uploading := old(c).uploading - (if f.uploading then 1 else 0))
    {
      hide EightCharUserCompare;
      if EightCharUserCompare(c.user, f.owner) {
        c := c.(owned := c.owned - 1);
      }
      if f.size > 0 && !f.directory {
        c := c.(uploadedfiles := c.uploadedfiles - 1, totalfilesize := c.totalfilesize - f.size);
      }
      if f.uploading {
        c := c.(uploading := c.uploading - 1);
      }
    }

    method RemoveFile(name: string)
      requires Valid()
      modifies this
      ensures Valid() && c == Remove(old(c), name)
    {
      hide EightCharUserCompare, OwnedPercentage, ToLower, Sound, OrderWithout, Bumped, HasContent;
      if name !in c.files {
        return;
      }
      RemoveSound(c, name);
      CountOut(c.files[name]);
      c := c.(order := OrderWithout(c.order, name), files := c.files - {name}, lower := c.lower - {ToLower(name)});
      RecalcOwnedPercentage();
      SetChanged();
      NoteChange(name);
    }

    method SetFileUpdateFlag(name: string, size: nat)
      requires Valid()
      modifies this
      ensures Valid() && c == SetUpdateFlag(old(c), name, size)
      ensures name in old(c).files ==>
                OthersSame(old(c), c, name) && c.files[name] == old(c).files[name].(size := size, updateflag := true)
    {
      hide Sound;
      FlaggedFile(c, name, size);
      if name !in c.files {
        return;
      }
      SetUpdateFlagSound(c, name, size);
      var oldsize := c.files[name].size;
      if oldsize != size {
        if oldsize == 0 {
          c := c.(uploadedfiles := c.uploadedfiles + 1);
        }
        c := c.(totalfilesize := c.totalfilesize + size - oldsize);
        if size > c.maxfilesize {
          c := c.(maxfilesize := size);
        }
        SetChanged();
        NoteChange(name);
      }
      c := c.(files := c.files[name := c.files[name].(size := size, updateflag := true)]);
    }

    method FinishUploadOf(name: string)
      requires Valid()
      modifies this
      ensures Valid() && c == FinishUpload(old(c), name)
      ensures name in c.files ==> !c.files[name].uploading
      ensures c.files == if name in old(c).files then old(c).files[name := old(c).files[name].(uploading := false)]
                         else old(c).files
    {
      hide Sound;
      FinishedFile(c, name);
      FinishUploadSound(c, name);
      if name in c.files && c.files[name].uploading {
        c := c.(files := c.files[name := c.files[name].(uploading := false)], uploading := c.uploading - 1);
        SetChanged();
      }
    }

    method CleanSweep(touch: int)
      requires Valid()
      modifies this
      ensures Valid() && c == Sweep(old(c), touch)
    {
      hide Sound, Remove, Tally;
      SweepSound(c, touch);
      OrderStored(c);
      ghost var o := c;
      var eraselist := [];
      for i := 0 to |c.order|
        invariant c == o && eraselist == StaleNames(c.order[..i], c.files, touch)
      {
        var f := c.files[c.order[i]];
        assert c.order[..i + 1][..i] == c.order[..i];
        if f.touch != touch && !f.uploading {
          eraselist := eraselist + [c.order[i]];
        }
      }
      assert c.order[..|c.order|] == c.order;
      if eraselist != [] {
        for i := 0 to |eraselist|
          invariant Valid() && c == RemoveAll(o, eraselist[..i])
        {
          RemoveFile(eraselist[i]);
          assert eraselist[..i + 1][..i] == eraselist[..i];
        }
        assert eraselist[..|eraselist|] == eraselist;
        var maxfilesize := LargestFile();
        c := c.(maxfilesize := maxfilesize);
        SetChanged();
      }
    }

    lemma OrderStored(c: Content)
      requires Sound(c)
      ensures forall n :: n in c.order ==> n in c.files
    {
    }

    method LargestFile() returns (maxfilesize: nat)
      requires Valid()
      ensures maxfilesize == MaxSize(c.order, c.files)
    {
      maxfilesize := 0;
      for i := 0 to |c.order|
        invariant maxfilesize == MaxSize(c.order[..i], c.files)
      {
        var f := c.files[c.order[i]];
        assert c.order[..i + 1][..i] == c.order[..i];
        if !f.directory && f.size > maxfilesize {
          maxfilesize := f.size;
        }
      }
      assert c.order[..|c.order|] == c.order;
    }

    method ResetScoreBoardUpdates()
      requires Valid()
      modifies this
      ensures Valid() && c == old(c).(boardstate := NONE, changed := {})
    {
      c := c.(boardstate := NONE, changed := {});
    }

    // ----- a raw listing -----

    /** One line of a listing that is long enough. */
    method ReadLine(line: string, parse: string -> Option<Entry>, touch: int, ghost o: Content,
                    ghost entries: seq<Entry>)
      returns (accepted: bool)
      requires Valid() && c == ApplyEntries(o, entries, touch)
      modifies this
      ensures Valid() && c == ApplyEntries(o, entries + Accepted([line], parse), touch)
      ensures |Accepted([line], parse)| == if accepted then 1 else 0
    {
      hide Sound, Update;
      AcceptedOne(line, parse);
      var entry := parse(line);
      var e := entry.GetOr(Entry("", EmptyFile("")));
      accepted := UpdateFile(e.name, e.file.(touch := touch), entry.Some?);
      assert (entries + [e])[..|entries|] == entries;
      assert entries + [] == entries;
    }

    /** Reads a raw listing: every parsed line updates its file, and the sweep runs only
        when the list is now larger than the number of accepted lines. */
    method ParseFileList(buf: string, parse: string -> Option<Entry>, touch: int)
      requires Valid()
      modifies this
      ensures Valid() && c == ReadListing(old(c), Accepted(Lines(buf, 0), parse), touch)
      ensures c.state == LISTED && c.boardstate != NONE
    {
      hide Sound, Update, Sweep, Accepted, Lines, ApplyEntries, EndsListing, ContinuesListing, LineEnd,
        FileListSweep.Listed;
      ghost var o := c;
      ghost var entries: seq<Entry> := [];
      var loc, files := 0, 0;
      NoEntries(o, touch);
      while loc + 4 < |buf| && !EndsListing(buf, loc)
        invariant loc <= |buf| && Valid()
        invariant c == ApplyEntries(o, entries, touch) && files == |entries|
        invariant entries + Accepted(Lines(buf, loc), parse) == Accepted(Lines(buf, 0), parse)
        decreases |buf| - loc
      {
        LinesStep(buf, loc, parse);
        if ContinuesListing(buf, loc) {
          loc := loc + 4;
        }
        var start := loc;
        loc := SkipLine(buf, loc);
        if loc - start >= 40 {
          var accepted := ReadLine(buf[start..loc], parse, touch, o, entries);
          if accepted {
            files := files + 1;
          }
          entries := entries + Accepted([buf[start..loc]], parse);
        }
      }
      NoLines(buf, loc, parse);
      EntriesFiles(o, entries, touch);
      assert entries == Accepted(Lines(buf, 0), parse);
      if |c.files| > files {
        CleanSweep(touch);
      }
      SetListedSound(c);
      if c.state != LISTED {
        c := c.(state := LISTED);
      }
      c := c.(boardstate := Bumped(c.boardstate, REFRESHED));
    }

    static lemma SetListedSound(c: Content)
      requires Sound(c)
      ensures Sound(SetListed(c))
    {
    }

    static lemma NoEntries(o: Content, touch: int)
      ensures ApplyEntries(o, [], touch) == o
    {
    }

    static lemma NoLines(buf: string, loc: nat, parse: string -> Option<Entry>)
      requires loc <= |buf| && (loc + 4 >= |buf| || EndsListing(buf, loc))
      ensures Accepted(Lines(buf, loc), parse) == []
    {
    }

    static method SkipLine(buf: string, start: nat) returns (loc: nat)
      requires start <= |buf|
      ensures loc == LineEnd(buf, start)
    {
      loc := start;
      while loc < |buf|
        invariant start <= loc <= |buf| && LineEnd(buf, loc) == LineEnd(buf, start)
      {
        loc := loc + 1;
        if buf[loc - 1] == '\n' {
          return;
        }
      }
    }
  }
}
