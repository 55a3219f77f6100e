/** Any run of operations on a file list: what it keeps, and what it tells the boards. */
module FileListRuns {
  import opened Base
  import opened FileListContent
  import opened FileListLaws

  // ----- change tracking -----

  /** What the boards need to know about a name. */
  datatype Seen = Seen(size: nat, owner: string, directory: bool)

  function Observe(files: map<string, File>, name: string): Option<Seen> {
    if name in files then Some(Seen(files[name].size, files[name].owner, files[name].directory)) else None
  }

  /** From (f0, c0) to (f1, c1) the change set only grew, and it has every name whose
      existence, size, owner or kind differs. */
  ghost predicate Recorded(f0: map<string, File>, c0: set<string>, f1: map<string, File>, c1: set<string>) {
    c0 <= c1 && forall n :: n in f0 || n in f1 ==> Observe(f0, n) == Observe(f1, n) || n in c1
  }

  ghost predicate Tracks(c: Content, d: Content) {
    Recorded(c.files, c.changed, d.files, d.changed)
  }

  lemma TracksTransitive(a: Content, b: Content, c: Content)
    requires Tracks(a, b) && Tracks(b, c)
    ensures Tracks(a, c)
  {
    forall n | n in a.files || n in c.files
      ensures Observe(a.files, n) == Observe(c.files, n) || n in c.changed
    {
      if n in a.files || n in b.files {
      }
    }
  }

  // ----- alarms -----

  /** The part of it that decides about transfers. */
  datatype Shape = Shape(size: nat, directory: bool)

  function Outline(files: map<string, File>, name: string): Option<Shape> {
    if name in files then Some(Shape(files[name].size, files[name].directory)) else None
  }

  /** The list says that it changed if any name came, went, or has another size or kind. */
  ghost predicate Alerts(c: Content, d: Content) {
    && (c.boardstate == CHANGED ==> d.boardstate == CHANGED)
    && (d.boardstate == CHANGED || forall n :: Outline(c.files, n) == Outline(d.files, n))
  }

  lemma UpdateAlerts(c: Content, name: string, f: File)
    ensures Alerts(c, Update(c, name, f))
  {
    hide OwnedPercentage, OwnedAfter, ToLower, EightCharUserCompare, UploadedStep, HasContent, Max;
  }

  lemma TouchAlerts(c: Content, name: string, user: string, upload: bool)
    ensures Alerts(c, Touch(c, name, user, upload))
  {
    hide OwnedPercentage, ToLower, EightCharUserCompare, HasContent, Max;
  }

  lemma RemoveAlerts(c: Content, name: string)
    ensures Alerts(c, Remove(c, name))
  {
    hide OwnedPercentage, ToLower, EightCharUserCompare, OrderWithout, HasContent;
  }

  lemma {:induction false} RemoveAllAlerts(c: Content, names: seq<string>)
    ensures Alerts(c, RemoveAll(c, names))
  {
    if names != [] {
      hide Remove, Outline;
      RemoveAllAlerts(c, names[..|names| - 1]);
      RemoveAlerts(RemoveAll(c, names[..|names| - 1]), names[|names| - 1]);
    }
  }

  lemma SetUpdateFlagAlerts(c: Content, name: string, size: nat)
    ensures Alerts(c, SetUpdateFlag(c, name, size))
  {
  }

  lemma SweepAlerts(c: Content, touch: int)
    requires Sound(c)
    ensures Alerts(c, Sweep(c, touch))
  {
    hide RemoveAll, ToLower, Outline, MaxSize;
    RemoveAllSound(c, StaleNames(c.order, c.files, touch));
    RemoveAllAlerts(c, StaleNames(c.order, c.files, touch));
  }

  lemma UpdateTracks(c: Content, name: string, f: File)
    ensures Tracks(c, Update(c, name, f))
  {
    hide OwnedPercentage, OwnedAfter, UpdateBoardState, ToLower, EightCharUserCompare;
  }

  lemma TouchTracks(c: Content, name: string, user: string, upload: bool)
    ensures Tracks(c, Touch(c, name, user, upload))
  {
    hide OwnedPercentage, ToLower, EightCharUserCompare;
  }

  lemma RemoveTracks(c: Content, name: string)
    ensures Tracks(c, Remove(c, name))
  {
    hide OwnedPercentage, ToLower, EightCharUserCompare, OrderWithout;
  }

  lemma {:induction false} RemoveAllTracks(c: Content, names: seq<string>)
    ensures Tracks(c, RemoveAll(c, names))
  {
    if names != [] {
      var init := names[..|names| - 1];
      RemoveAllTracks(c, init);
      RemoveTracks(RemoveAll(c, init), names[|names| - 1]);
      TracksTransitive(c, RemoveAll(c, init), RemoveAll(c, names));
    }
  }

  // ----- runs -----

  datatype ListOp =
    | OpUpdate(name: string, file: File)
    | OpTouch(name: string, user: string, upload: bool)
    | OpRemove(name: string)
    | OpSetUpdateFlag(name: string, size: nat)
    | OpFinishUpload(name: string)
    | OpSweep(touch: int)

  function Apply(c: Content, op: ListOp): Content
    requires Sound(c)
  {
    match op
    case OpUpdate(name, file) => Update(c, name, file)
    case OpTouch(name, user, upload) => Touch(c, name, user, upload)
    case OpRemove(name) => Remove(c, name)
    case OpSetUpdateFlag(name, size) => SetUpdateFlag(c, name, size)
    case OpFinishUpload(name) => FinishUpload(c, name)
    case OpSweep(touch) => Sweep(c, touch)
  }

  lemma SweepSound(c: Content, touch: int)
    requires Sound(c)
    ensures Sound(Sweep(c, touch)) && Sweep(c, touch).user == c.user
    ensures Sweep(c, touch).files == c.files - set n | n in StaleNames(c.order, c.files, touch)
  {
    hide RemoveAll, Bumped, StaleNames, ToLower;
    RemoveAllSound(c, StaleNames(c.order, c.files, touch));
  }

  lemma ApplyUser(c: Content, op: ListOp)
    requires Sound(c)
    ensures Apply(c, op).user == c.user
  {
    hide Sound, OwnedPercentage, ToLower, EightCharUserCompare, OwnedAfter, UpdateBoardState, Bumped, OrderWithout,
      HasContent, Sweep;
    match op
    case OpSweep(touch) => SweepSound(c, touch);
    case _ =>
  }

  lemma ApplySound(c: Content, op: ListOp)
    requires Sound(c)
    ensures Sound(Apply(c, op)) && Apply(c, op).user == c.user
  {
    hide Sound, Update, Touch, Remove, SetUpdateFlag, FinishUpload, Sweep;
    ApplyUser(c, op);
    match op
    case OpUpdate(name, file) => UpdateSound(c, name, file);
    case OpTouch(name, user, upload) => TouchCounted(c, name, user, upload);
    case OpRemove(name) => RemoveSound(c, name);
    case OpSetUpdateFlag(name, size) => SetUpdateFlagSound(c, name, size);
    case OpFinishUpload(name) => FinishUploadSound(c, name);
    case OpSweep(touch) => SweepSound(c, touch);
  }

  function Run(c: Content, ops: seq<ListOp>): (r: Content)
    requires Sound(c)
    ensures Sound(r) && r.user == c.user
  {
    if ops == [] then c
    else
      var d := Run(c, ops[..|ops| - 1]);
      ApplySound(d, ops[|ops| - 1]);
      Apply(d, ops[|ops| - 1])
  }

  lemma ApplyTracks(c: Content, op: ListOp)
    requires Sound(c)
    ensures Tracks(c, Apply(c, op))
  {
    hide Sound, Update, Touch, Remove, SetUpdateFlag, FinishUpload, Sweep, Tracks;
    match op
    case OpUpdate(name, file) => UpdateTracks(c, name, file);
    case OpTouch(name, user, upload) => TouchTracks(c, name, user, upload);
    case OpRemove(name) => RemoveTracks(c, name);
    case OpSetUpdateFlag(name, size) => SetUpdateFlagTracks(c, name, size);
    case OpFinishUpload(name) => FinishUploadTracks(c, name);
    case OpSweep(touch) => SweepTracks(c, touch);
  }

  lemma SetUpdateFlagTracks(c: Content, name: string, size: nat)
    ensures Tracks(c, SetUpdateFlag(c, name, size))
  {
    hide Bumped, Max;
  }

  lemma FinishUploadTracks(c: Content, name: string)
    ensures Tracks(c, FinishUpload(c, name))
  {
    hide Bumped;
  }

  lemma SweepTracks(c: Content, touch: int)
    requires Sound(c)
    ensures Tracks(c, Sweep(c, touch))
  {
    hide RemoveAll, ToLower, Observe, MaxSize;
    RemoveAllSound(c, StaleNames(c.order, c.files, touch));
    RemoveAllTracks(c, StaleNames(c.order, c.files, touch));
  }

  /** No change is missed: after any run from a point where the change set was emptied,
      every name that came, went, or has another size or owner is in the change set. */
  lemma {:induction false} RunTracks(c: Content, ops: seq<ListOp>)
    requires Sound(c)
    ensures Tracks(c, Run(c, ops))
  {
    if ops != [] {
      var d := Run(c, ops[..|ops| - 1]);
      RunTracks(c, ops[..|ops| - 1]);
      ApplyTracks(d, ops[|ops| - 1]);
      TracksTransitive(c, d, Run(c, ops));
    }
  }

  lemma ApplyAlerts(c: Content, op: ListOp)
    requires Sound(c)
    ensures Alerts(c, Apply(c, op))
  {
    hide Sound, Update, Touch, Remove, SetUpdateFlag, Sweep, Outline;
    match op
    case OpUpdate(name, file) => UpdateAlerts(c, name, file);
    case OpTouch(name, user, upload) => TouchAlerts(c, name, user, upload);
    case OpRemove(name) => RemoveAlerts(c, name);
    case OpSetUpdateFlag(name, size) => SetUpdateFlagAlerts(c, name, size);
    case OpFinishUpload(name) => FinishUploadAlerts(c, name);
    case OpSweep(touch) => SweepAlerts(c, touch);
  }

  lemma FinishUploadAlerts(c: Content, name: string)
    ensures Alerts(c, FinishUpload(c, name))
  {
  }

  /** A list that does not say that it changed has, after any run, the same names with the
      same sizes and kinds, whatever its change set holds. */
  lemma {:induction false} RunAlerts(c: Content, ops: seq<ListOp>)
    requires Sound(c)
    ensures Alerts(c, Run(c, ops))
  {
    if ops != [] {
      hide Apply, Outline, Sound;
      RunAlerts(c, ops[..|ops| - 1]);
      ApplyAlerts(Run(c, ops[..|ops| - 1]), ops[|ops| - 1]);
    }
  }

  /** Exactly the operations that keep all four counters right. */
  predicate Exact(c: Content, op: ListOp) {
    match op
    case OpUpdate(name, file) =>
      if name in c.files then OwnerStepExact(c.user, c.files[name].owner, file.owner) else !file.uploading
    case OpSetUpdateFlag(name, size) =>
      name in c.files && c.files[name].size != size ==> !c.files[name].directory && size != 0
    case _ => true
  }

  lemma {:induction false} RemoveAllCounted(c: Content, names: seq<string>)
    requires Sound(c) && Counted(c)
    ensures Sound(RemoveAll(c, names)) && Counted(RemoveAll(c, names))
  {
    hide Sound, UploadsCounted, UploadingCounted, OwnedCounted, Remove;
    if names != [] {
      RemoveAllCounted(c, names[..|names| - 1]);
      RemoveCounted(RemoveAll(c, names[..|names| - 1]), names[|names| - 1]);
    }
  }

  lemma ApplyCounted(c: Content, op: ListOp)
    requires Sound(c) && Counted(c)
    ensures Sound(Apply(c, op))
    ensures Counted(Apply(c, op)) <==> Exact(c, op)
  {
    hide OwnedPercentage, ToLower, EightCharUserCompare, OwnerStepExact, Update, Touch, Remove, SetUpdateFlag,
      FinishUpload, Tally;
    ApplySound(c, op);
    match op
    case OpUpdate(name, file) => UpdateCounted(c, name, file);
    case OpTouch(name, user, upload) => TouchCounted(c, name, user, upload);
    case OpRemove(name) => RemoveCounted(c, name);
    case OpSetUpdateFlag(name, size) => SetUpdateFlagCounted(c, name, size);
    case OpFinishUpload(name) => FinishUploadCounted(c, name);
    case OpSweep(touch) => RemoveAllCounted(c, StaleNames(c.order, c.files, touch));
  }

  /** The counters equal their definitions after every run of exact operations. */
  lemma {:induction false} RunCounted(c: Content, ops: seq<ListOp>)
    requires Sound(c) && Counted(c)
    requires forall i :: 0 <= i < |ops| ==> Exact(Run(c, ops[..i]), ops[i])
    ensures Counted(Run(c, ops))
  {
    hide Apply, Sound, Counted, Exact;
    if ops != [] {
      var init := ops[..|ops| - 1];
      forall i | 0 <= i < |init|
        ensures Exact(Run(c, init[..i]), init[i])
      {
        assert init[..i] == ops[..i];
      }
      RunCounted(c, init);
      ApplyCounted(Run(c, init), ops[|ops| - 1]);
    }
  }

  // ----- the share of own files -----

  lemma {:induction false} RemoveAllPercentage(c: Content, names: seq<string>)
    requires PercentageOk(c)
    ensures PercentageOk(RemoveAll(c, names))
  {
    hide OwnedPercentage, EightCharUserCompare, ToLower;
    if names != [] {
      RemoveAllPercentage(c, names[..|names| - 1]);
    }
  }

  lemma ApplyPercentage(c: Content, op: ListOp)
    requires Sound(c) && PercentageOk(c)
    ensures PercentageOk(Apply(c, op))
  {
    hide OwnedPercentage, EightCharUserCompare, ToLower, UpdateBoardState, Bumped, OrderWithout;
    match op
    case OpSweep(touch) => RemoveAllPercentage(c, StaleNames(c.order, c.files, touch));
    case _ =>
  }

  lemma {:induction false} RunPercentage(c: Content, ops: seq<ListOp>)
    requires Sound(c) && PercentageOk(c)
    ensures PercentageOk(Run(c, ops))
  {
    if ops != [] {
      RunPercentage(c, ops[..|ops| - 1]);
      ApplyPercentage(Run(c, ops[..|ops| - 1]), ops[|ops| - 1]);
    }
  }

  /** What the scores rely on: a list that starts empty and sees only exact operations
      reports a share of own files between 0 and 100. */
  lemma RunPercentageBounds(user: string, state: FileListState, ops: seq<ListOp>)
    requires var c := InitialContent(user, state);
             && (forall i :: 0 <= i < |ops| ==> Exact(Run(c, ops[..i]), ops[i]))
             && |Run(c, ops).files| * 100 < U32 / 2
    ensures 0 <= Run(InitialContent(user, state), ops).ownpercentage <= 100
  {
    hide Run, Exact, Counted, OwnedCounted, Sound, PercentageOk, OwnedPercentage, InitialContent;
    var c := InitialContent(user, state);
    EmptyCounted(user, state);
    RunPercentage(c, ops);
    RunCounted(c, ops);
    OwnedOf(Run(c, ops));
    PercentageBounds(Run(c, ops));
  }

  lemma EmptyCounted(user: string, state: FileListState)
    ensures var c := InitialContent(user, state);
            Sound(c) && Counted(c) && PercentageOk(c)
  {
  }

  lemma OwnedOf(c: Content)
    requires Sound(c) && Counted(c)
    ensures OwnedCounted(c)
  {
  }

  /** Where the comparison of user names is not transitive, the count of own files
      drifts: the file of one longer name the site's user stands for is handed to
      another, and the share of own files exceeds 100. EightCharNotTransitive has
      three such names. */
  lemma OwnedDrifts(user: string, was: string, is_: string, name: string)
    requires EightCharUserCompare(user, was) && EightCharUserCompare(user, is_)
    requires !EightCharUserCompare(is_, was)
    ensures Sound(InitialContent(user, LISTED))
    ensures var c := InitialContent(user, LISTED);
            var r := Run(c, [OpUpdate(name, EmptyFile(was)), OpUpdate(name, EmptyFile(is_))]);
            r.owned == 2 && |r.files| == 1 && r.ownpercentage == 200
  {
    hide EightCharUserCompare, Bumped, ToLower, Run, OwnedPercentage, Sound, UploadedStep, Max, HasContent,
      UpdateBoardState;
    var c := InitialContent(user, LISTED);
    EmptySound(user);
    TwoOfOne();
    RunTwo(c, OpUpdate(name, EmptyFile(was)), OpUpdate(name, EmptyFile(is_)));
    var d := AddNew(c, name, EmptyFile(was));
    assert d.files == map[name := EmptyFile(was)] && d.owned == 1;
    assert |map[name := Refreshed(EmptyFile(was), EmptyFile(is_))]| == 1;
  }

  lemma EmptySound(user: string)
    ensures Sound(InitialContent(user, LISTED))
  {
  }

  lemma TwoOfOne()
    ensures OwnedPercentage(2, 1) == 200
  {
  }

  lemma RunTwo(c: Content, a: ListOp, b: ListOp)
    requires Sound(c)
    ensures Sound(Apply(c, a)) && Run(c, [a, b]) == Apply(Apply(c, a), b)
  {
    hide Apply, Sound;
    ApplySound(c, a);
    assert [a, b][..1] == [a] && [a][..0] == [];
    assert Run(c, []) == c;
    assert Run(c, [a]) == Apply(c, a);
  }
}
