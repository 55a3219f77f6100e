/** What the operations on a file list keep. */
module FileListLaws {
  import opened Base
  import opened FileListContent

  lemma ContainsIsLookup(c: Content, name: string)
    ensures Contains(c, name) <==> GetFile(c, name).Some?
  {
  }

  /** What is found has the name that was asked for, but for the case of its letters. A
      name that is stored finds itself. */
  lemma FoundByName(c: Content, name: string)
    requires Sound(c)
    ensures GetFile(c, name).Some? ==>
            exists n :: n in c.files && ToLower(n) == ToLower(name) && GetFile(c, name) == Some(c.files[n])
    ensures name in c.files ==> GetFile(c, name) == Some(c.files[name])
    ensures name !in c.files ==> (GetFile(c, name).Some? <==> ToLower(name) in c.lower)
  {
    if name !in c.files && ToLower(name) in c.lower {
      assert c.lower[ToLower(name)] in c.files;
    }
  }

  /** The same letter, but perhaps for its case. */
  predicate SameLetter(a: char, b: char) {
    || a == b
    || ('A' <= a <= 'Z' && b as int == a as int + 32)
    || ('A' <= b <= 'Z' && a as int == b as int + 32)
  }

  lemma LowerAt(s: string, i: nat)
    requires i < |s|
    ensures ToLower(s)[i] == LowerChar(s[i])
  {
    if i < |s| - 1 {
      LowerAt(s[..|s| - 1], i);
    }
  }

  lemma LowerLetter(a: char, b: char)
    ensures LowerChar(a) == LowerChar(b) <==> SameLetter(a, b)
  {
  }

  /** Names have the same lower case form if and only if they differ in the case of letters
      only. */
  lemma LowerExact(a: string, b: string)
    ensures ToLower(a) == ToLower(b) <==> |a| == |b| && forall i :: 0 <= i < |a| ==> SameLetter(a[i], b[i])
  {
    hide ToLower, LowerChar, SameLetter;
    if |a| == |b| {
      forall i | 0 <= i < |a|
        ensures ToLower(a)[i] == ToLower(b)[i] <==> SameLetter(a[i], b[i])
      {
        LowerAt(a, i);
        LowerAt(b, i);
        LowerLetter(a[i], b[i]);
      }
    }
  }

  // ----- what an operation stores -----

  /** All other files are as they were. */
  predicate OthersSame(c: Content, d: Content, name: string) {
    && d.files.Keys == c.files.Keys + {name}
    && forall n :: n in c.files && n != name ==> d.files[n] == c.files[n]
  }

  lemma PutSame(c: Content, d: Content, name: string, f: File)
    requires d.files == c.files[name := f]
    ensures OthersSame(c, d, name) && d.files[name] == f
  {
  }

  /** A listing line about a file: the file is as the line says, but a stored one keeps its
      kind and whether it is being uploaded. */
  lemma UpdatedFile(c: Content, name: string, f: File)
    ensures var d := Update(c, name, f);
            && OthersSame(c, d, name)
            && d.files[name] == (if name in c.files then StoredAs(c.files[name], f) else f)
            && d.order == c.order + if name in c.files then [] else [name]
  {
    hide OwnedPercentage, OwnedAfter, UpdateBoardState, ToLower, EightCharUserCompare, Bumped, Max, HasContent,
      UploadedStep, OthersSame;
    assert c.order + [] == c.order;
    PutSame(c, Update(c, name, f), name, if name in c.files then StoredAs(c.files[name], f) else f);
  }

  function StoredAs(was: File, f: File): File {
    File(f.size, f.owner, f.group, f.lastmodified, was.directory, f.touch, was.uploading, false)
  }

  /** What a listing line says to the boards and to whoever watches the list. */
  lemma UpdatedState(c: Content, name: string, f: File)
    ensures var d := Update(c, name, f);
            if name !in c.files || c.files[name].size != f.size then d.boardstate == CHANGED && name in d.changed
            else if c.files[name].owner != f.owner || c.files[name].group != f.group ||
                    c.files[name].lastmodified != f.lastmodified then
              d.boardstate == if c.boardstate == CHANGED then CHANGED else META_CHANGED
            else d.boardstate == c.boardstate && d.changed == c.changed
  {
    hide OwnedPercentage, OwnedAfter, ToLower, EightCharUserCompare, Max, HasContent, UploadedStep;
  }

  /** A new file can be found under its name in any case of its letters. */
  lemma NewIsFound(c: Content, name: string, f: File, asked: string)
    requires name !in c.files && ToLower(asked) == ToLower(name)
    ensures GetFile(Update(c, name, f), asked).Some?
  {
    hide OwnedPercentage, ToLower, EightCharUserCompare, Bumped, Max, HasContent;
  }

  /** A file that is touched is stored, and is being uploaded if and only if the upload was
      asked for or under way. A stored one is otherwise as it was. */
  lemma TouchedFile(c: Content, name: string, user: string, upload: bool)
    ensures var d := Touch(c, name, user, upload);
            && OthersSame(c, d, name)
            && (d.files[name].uploading <==> upload || (name in c.files && c.files[name].uploading))
            && (name in c.files ==>
                  d.files[name] == c.files[name].(uploading := d.files[name].uploading, updateflag := false))
            && (name !in c.files ==>
                  d.files[name].size == 0 && d.files[name].owner == user && !d.files[name].directory)
  {
    hide OwnedPercentage, ToLower, EightCharUserCompare, Max, HasContent, Bumped, OthersSame;
    var before := if name in c.files then c.files[name].(updateflag := false) else EmptyFile(user);
    PutSame(c, Touch(c, name, user, upload), name, before.(uploading := upload || before.uploading));
  }

  /** Only a new file is news for the boards. */
  lemma TouchedState(c: Content, name: string, user: string, upload: bool)
    ensures var d := Touch(c, name, user, upload);
            if name in c.files then d.boardstate == c.boardstate && d.changed == c.changed && d.order == c.order
            else d.boardstate == CHANGED && d.changed == c.changed + {name} && d.order == c.order + [name]
  {
    hide OwnedPercentage, ToLower, EightCharUserCompare, Max, HasContent;
  }

  /** The reported size is taken over, and what else is known of the file stays. */
  lemma FlaggedFile(c: Content, name: string, size: nat)
    ensures var d := SetUpdateFlag(c, name, size);
            && (name !in c.files ==> d == c)
            && (name in c.files ==> OthersSame(c, d, name) &&
                                    d.files[name] == c.files[name].(size := size, updateflag := true))
            && (name in c.files && c.files[name].size != size ==> d.boardstate == CHANGED && name in d.changed)
            && (name in c.files && c.files[name].size == size ==> d == c.(files := d.files))
  {
    hide Max;
  }

  /** The upload of a file ends, and nothing but that. */
  lemma FinishedFile(c: Content, name: string)
    ensures var d := FinishUpload(c, name);
            && (name in c.files && c.files[name].uploading ==>
                  && OthersSame(c, d, name) && d.files[name] == c.files[name].(uploading := false)
                  && d.boardstate == CHANGED && d.uploading == c.uploading - 1)
            && (!(name in c.files && c.files[name].uploading) ==> d == c)
            && d.changed == c.changed && d.order == c.order
  {
  }

  /** A file that is removed leaves its place in the order, and the others keep theirs. */
  lemma {:induction false} OrderWithoutAt(order: seq<string>, i: nat)
    requires Distinct(order) && i < |order|
    ensures OrderWithout(order, order[i]) == order[..i] + order[i + 1..]
  {
    var init := order[..|order| - 1];
    if i == |order| - 1 {
      assert order[i] !in init;
    } else {
      OrderWithoutAt(init, i);
      assert order[i + 1..] == init[i + 1..] + [order[|order| - 1]];
    }
  }

  /** After a sweep that removed something the bound is the size of a file that is left. */
  lemma SweptSize(c: Content, touch: int)
    requires Sound(c)
    ensures var d := Sweep(c, touch);
            d.files != c.files ==>
              && d.boardstate == CHANGED
              && (d.maxfilesize > 0 ==>
                    exists n :: n in d.files && !d.files[n].directory && d.files[n].size == d.maxfilesize)
  {
    hide RemoveAll, StaleNames;
    RemoveAllSound(c, StaleNames(c.order, c.files, touch));
  }

  // ----- the stored files and their lower case index -----

  lemma AddNewSound(c: Content, name: string, f: File)
    requires Sound(c) && name !in c.files
    ensures Sound(AddNew(c, name, f))
  {
  }

  lemma UpdateSound(c: Content, name: string, f: File)
    requires Sound(c)
    ensures Sound(Update(c, name, f))
  {
    hide OwnedPercentage, OwnedAfter, UpdateBoardState;
    if name !in c.files {
      AddNewSound(c, name, f);
    }
  }

  lemma SetUpdateFlagSound(c: Content, name: string, size: nat)
    requires Sound(c)
    ensures Sound(SetUpdateFlag(c, name, size))
  {
  }

  lemma FinishUploadSound(c: Content, name: string)
    requires Sound(c)
    ensures Sound(FinishUpload(c, name))
  {
  }

  // ----- counters -----

  lemma AddNewCounted(c: Content, name: string, f: File)
    requires Sound(c) && name !in c.files
    ensures Sound(AddNew(c, name, f))
    ensures UploadsCounted(c) ==> UploadsCounted(AddNew(c, name, f))
    ensures OwnedCounted(c) ==> OwnedCounted(AddNew(c, name, f))
    ensures UploadingCounted(c) ==> (UploadingCounted(AddNew(c, name, f)) <==> !f.uploading)
  {
    hide Tally, OwnedPercentage, ToLower, EightCharUserCompare;
    AddNewSound(c, name, f);
    TallyAppend(c.order, c.files, name, f, UploadedWeight());
    TallyAppend(c.order, c.files, name, f, SizeWeight());
    TallyAppend(c.order, c.files, name, f, UploadingWeight());
    TallyAppend(c.order, c.files, name, f, OwnWeight(c.user));
  }

  /** When the owner of a stored file changes from was to is_, the three way
      comparison moves the count of own files by the right amount. */
  predicate OwnerStepExact(user: string, was: string, is_: string) {
    if EightCharUserCompare(is_, was) then EightCharUserCompare(user, is_) == EightCharUserCompare(user, was)
    else !(EightCharUserCompare(user, is_) && EightCharUserCompare(user, was))
  }

  /** User names shorter than eight characters are safe. */
  lemma ShortUserExact(user: string, was: string, is_: string)
    requires |user| < 8
    ensures OwnerStepExact(user, was, is_)
  {
    assert forall s: string :: |s| > 8 ==> |FirstEight(s)| == 8;
  }

  lemma UpdateExistingCounted(c: Content, name: string, f: File)
    requires Sound(c) && name in c.files && Sound(UpdateExisting(c, name, f))
    ensures UploadsCounted(c) ==> UploadsCounted(UpdateExisting(c, name, f))
    ensures UploadingCounted(c) ==> UploadingCounted(UpdateExisting(c, name, f))
    ensures OwnedCounted(c) ==>
              (OwnedCounted(UpdateExisting(c, name, f)) <==>
               OwnerStepExact(c.user, c.files[name].owner, f.owner))
  {
    hide Tally, OwnedPercentage, ToLower, EightCharUserCompare, Max, UpdateBoardState;
    ReplaceCounted(c, name, Refreshed(c.files[name], f));
  }

  /** A listing keeps the upload counters always, and the count of own files exactly
      when the owner comparison is exact for the change of owner it reports. */
  lemma UpdateCounted(c: Content, name: string, f: File)
    requires Sound(c)
    ensures Sound(Update(c, name, f))
    ensures UploadsCounted(c) ==> UploadsCounted(Update(c, name, f))
    ensures UploadingCounted(c) ==>
              (UploadingCounted(Update(c, name, f)) <==> name in c.files || !f.uploading)
    ensures OwnedCounted(c) ==>
              (OwnedCounted(Update(c, name, f)) <==>
               (name in c.files ==> OwnerStepExact(c.user, c.files[name].owner, f.owner)))
  {
    hide Sound, UploadsCounted, UploadingCounted, OwnedCounted, UpdateExisting, AddNew, OwnerStepExact;
    UpdateSound(c, name, f);
    if name in c.files {
      UpdateExistingCounted(c, name, f);
    } else {
      AddNewCounted(c, name, f);
    }
  }

  lemma AnnounceCounted(c: Content, name: string, user: string)
    requires Sound(c)
    ensures Sound(Announce(c, name, user))
    ensures UploadsCounted(c) ==> UploadsCounted(Announce(c, name, user))
    ensures UploadingCounted(c) ==> UploadingCounted(Announce(c, name, user))
    ensures OwnedCounted(c) ==> OwnedCounted(Announce(c, name, user))
  {
    hide Tally, OwnedPercentage, ToLower, EightCharUserCompare, AddNew;
    if name in c.files {
      ReplaceCounted(c, name, c.files[name].(updateflag := false));
    } else {
      AddNewCounted(c, name, EmptyFile(user));
    }
  }

  lemma StartUploadCounted(c: Content, name: string)
    requires Sound(c) && name in c.files
    ensures Sound(StartUpload(c, name))
    ensures UploadsCounted(c) ==> UploadsCounted(StartUpload(c, name))
    ensures UploadingCounted(c) ==> UploadingCounted(StartUpload(c, name))
    ensures OwnedCounted(c) ==> OwnedCounted(StartUpload(c, name))
  {
    hide Tally, EightCharUserCompare;
    ReplaceCounted(c, name, c.files[name].(uploading := true));
  }

  lemma TouchCounted(c: Content, name: string, user: string, upload: bool)
    requires Sound(c)
    ensures Sound(Touch(c, name, user, upload))
    ensures UploadsCounted(c) ==> UploadsCounted(Touch(c, name, user, upload))
    ensures UploadingCounted(c) ==> UploadingCounted(Touch(c, name, user, upload))
    ensures OwnedCounted(c) ==> OwnedCounted(Touch(c, name, user, upload))
  {
    hide Sound, UploadsCounted, UploadingCounted, OwnedCounted, Announce, StartUpload;
    AnnounceCounted(c, name, user);
    StartUploadCounted(Announce(c, name, user), name);
  }

  /** Replacing one stored file moves each sum by the difference of its weights. */
  lemma ReplaceCounted(c: Content, name: string, g: File)
    requires Sound(c) && name in c.files
    ensures var t := c.files[name := g];
            && Tally(c.order, t, UploadedWeight()) ==
               Tally(c.order, c.files, UploadedWeight()) - UploadedWeight()(c.files[name]) + UploadedWeight()(g)
            && Tally(c.order, t, SizeWeight()) ==
               Tally(c.order, c.files, SizeWeight()) - SizeWeight()(c.files[name]) + SizeWeight()(g)
            && Tally(c.order, t, UploadingWeight()) ==
               Tally(c.order, c.files, UploadingWeight()) - UploadingWeight()(c.files[name]) + UploadingWeight()(g)
            && Tally(c.order, t, OwnWeight(c.user)) ==
               Tally(c.order, c.files, OwnWeight(c.user)) - OwnWeight(c.user)(c.files[name]) + OwnWeight(c.user)(g)
  {
    TallyChange(c.order, c.files, name, g, UploadedWeight());
    TallyChange(c.order, c.files, name, g, SizeWeight());
    TallyChange(c.order, c.files, name, g, UploadingWeight());
    TallyChange(c.order, c.files, name, g, OwnWeight(c.user));
  }

  lemma OrderIs(c: Content)
    requires Sound(c)
    ensures Distinct(c.order) && forall n :: n in c.order <==> n in c.files
  {
  }

  lemma RemoveCounted(c: Content, name: string)
    requires Sound(c)
    ensures Sound(Remove(c, name))
    ensures UploadsCounted(c) ==> UploadsCounted(Remove(c, name))
    ensures UploadingCounted(c) ==> UploadingCounted(Remove(c, name))
    ensures OwnedCounted(c) ==> OwnedCounted(Remove(c, name))
  {
    hide Tally, OwnedPercentage, ToLower, EightCharUserCompare, Bumped, OrderWithout, Sound;
    RemoveSound(c, name);
    if name in c.files {
      OrderIs(c);
      TallyWithout(c.order, c.files, name, UploadedWeight());
      TallyWithout(c.order, c.files, name, SizeWeight());
      TallyWithout(c.order, c.files, name, UploadingWeight());
      TallyWithout(c.order, c.files, name, OwnWeight(c.user));
    }
  }

  /** The reported size keeps the upload counters exactly when it is no change, or the
      file is no directory and the size is not zero. */
  lemma SetUpdateFlagCounted(c: Content, name: string, size: nat)
    requires Sound(c)
    ensures Sound(SetUpdateFlag(c, name, size))
    ensures UploadsCounted(c) ==>
              (UploadsCounted(SetUpdateFlag(c, name, size)) <==>
               (name in c.files && c.files[name].size != size ==> !c.files[name].directory && size != 0))
    ensures UploadingCounted(c) ==> UploadingCounted(SetUpdateFlag(c, name, size))
    ensures OwnedCounted(c) ==> OwnedCounted(SetUpdateFlag(c, name, size))
  {
    hide Tally, OwnedPercentage, ToLower, EightCharUserCompare;
    SetUpdateFlagSound(c, name, size);
    if name in c.files {
      ReplaceCounted(c, name, c.files[name].(size := size, updateflag := true));
    }
  }

  lemma FinishUploadCounted(c: Content, name: string)
    requires Sound(c)
    ensures Sound(FinishUpload(c, name))
    ensures UploadsCounted(c) ==> UploadsCounted(FinishUpload(c, name))
    ensures UploadingCounted(c) ==> UploadingCounted(FinishUpload(c, name))
    ensures OwnedCounted(c) ==> OwnedCounted(FinishUpload(c, name))
  {
    hide Tally, OwnedPercentage, ToLower, EightCharUserCompare;
    FinishUploadSound(c, name);
    if name in c.files {
      ReplaceCounted(c, name, c.files[name].(uploading := false));
    }
  }

  lemma PercentageRange(owned: int, size: nat)
    requires 0 <= owned <= size && size * 100 < U32 / 2
    ensures 0 <= OwnedPercentage(owned, size) <= 100
  {
    if size > 0 {
      DivAtMost(owned * 100, size, 100);
      assert (owned * 100) % U64 == owned * 100;
      SmallToInt((owned * 100) / size);
    }
  }

  lemma SmallToInt(x: nat)
    requires x <= 100
    ensures ToInt(x) == x
  {
  }

  /** The share of own files is a percentage as long as the count is right, and the
      product fits an int. */
  lemma PercentageBounds(c: Content)
    requires Sound(c) && PercentageOk(c) && OwnedCounted(c) && |c.files| * 100 < U32 / 2
    ensures 0 <= c.ownpercentage <= 100
  {
    hide OwnedPercentage, EightCharUserCompare;
    TallyBounds(c.order, c.files, OwnWeight(c.user));
    assert c.files.Keys == set n | n in c.order;
    DistinctCardinality(c.order);
    assert |c.files| == |c.files.Keys|;
    PercentageRange(c.owned, |c.files|);
  }

  /** contains and the counters give the boards a cheap emptiness test. */
  lemma {:induction false} NoUploadsNoContent(order: seq<string>, files: map<string, File>)
    requires forall n :: n in order ==> n in files
    ensures Tally(order, files, UploadedWeight()) >= 0
    ensures Tally(order, files, UploadedWeight()) == 0 <==> forall n :: n in order ==> !HasContent(files[n])
  {
    if order != [] {
      NoUploadsNoContent(order[..|order| - 1], files);
    }
  }
}
