/** What a remote directory listing consists of, and what each operation on it does.
    FileLists.FileList carries these values in its fields. */
module FileListContent {
  import opened Base

  datatype File = File(
    size: nat,
    owner: string,
    group: string,
    lastmodified: string,
    directory: bool,
    touch: int,
    uploading: bool,
    updateflag: bool)

  datatype FileListState = UNKNOWN | NONEXISTENT | EXISTS | LISTED | PRE_FAIL | FAILED

  datatype UpdateState = NONE | REFRESHED | META_CHANGED | CHANGED

  function Rank(s: UpdateState): nat {
    match s
    case NONE => 0
    case REFRESHED => 1
    case META_CHANGED => 2
    case CHANGED => 3
  }

  function Bumped(s: UpdateState, newstate: UpdateState): UpdateState {
    if Rank(newstate) > Rank(s) then newstate else s
  }

  // ----- names and users -----

  function LowerChar(c: char): char {
    if 'A' <= c <= 'Z' then (c as int + 32) as char else c
  }

  function ToLower(s: string): (r: string)
    ensures |r| == |s|
  {
    if s == [] then [] else ToLower(s[..|s| - 1]) + [LowerChar(s[|s| - 1])]
  }

  function FirstEight(s: string): string {
    if |s| > 8 then s[..8] else s
  }

  /** Servers cut user names to eight characters, so names are compared on eight
      characters unless both are longer. */
  predicate EightCharUserCompare(a: string, b: string) {
    if |a| > 8 && |b| > 8 then a == b else FirstEight(a) == FirstEight(b)
  }

  /** The comparison is not transitive: an eight character name stands for every
      longer name that it begins. */
  lemma EightCharNotTransitive()
    ensures EightCharUserCompare("distbot_", "distbot_a")
    ensures EightCharUserCompare("distbot_", "distbot_b")
    ensures !EightCharUserCompare("distbot_b", "distbot_a")
  {
  }

  // ----- sums over the stored files -----

  /** The sum of w over the files in the order they were first seen. */
  function Tally(order: seq<string>, files: map<string, File>, w: File -> int): int
    requires forall n :: n in order ==> n in files
  {
    if order == [] then 0
    else Tally(order[..|order| - 1], files, w) + w(files[order[|order| - 1]])
  }

  function OrderWithout(order: seq<string>, name: string): (r: seq<string>)
    ensures forall n :: n in r <==> n in order && n != name
    ensures Distinct(order) ==> Distinct(r)
    ensures name !in order ==> r == order
  {
    if order == [] then []
    else
      var init := OrderWithout(order[..|order| - 1], name);
      assert Distinct(order) ==> order[|order| - 1] !in order[..|order| - 1];
      if order[|order| - 1] == name then init else init + [order[|order| - 1]]
  }

  lemma {:induction false} TallySame(order: seq<string>, files: map<string, File>, more: map<string, File>,
                                     w: File -> int)
    requires forall n :: n in order ==> n in files && n in more && files[n] == more[n]
    ensures Tally(order, files, w) == Tally(order, more, w)
  {
    if order != [] {
      TallySame(order[..|order| - 1], files, more, w);
    }
  }

  lemma TallyAppend(order: seq<string>, files: map<string, File>, name: string, f: File, w: File -> int)
    requires forall n :: n in order ==> n in files
    requires name !in order
    ensures Tally(order + [name], files[name := f], w) == Tally(order, files, w) + w(f)
  {
    assert (order + [name])[..|order|] == order;
    TallySame(order, files, files[name := f], w);
  }

  lemma {:induction false} TallyChange(order: seq<string>, files: map<string, File>, name: string, f: File,
                                       w: File -> int)
    requires forall n :: n in order ==> n in files
    requires Distinct(order) && name in order
    ensures Tally(order, files[name := f], w) == Tally(order, files, w) - w(files[name]) + w(f)
  {
    var init, last := order[..|order| - 1], order[|order| - 1];
    if last == name {
      TallySame(init, files, files[name := f], w);
    } else {
      TallyChange(init, files, name, f, w);
    }
  }

  lemma {:induction false} TallyWithout(order: seq<string>, files: map<string, File>, name: string, w: File -> int)
    requires forall n :: n in order ==> n in files
    requires Distinct(order) && name in order
    ensures Tally(OrderWithout(order, name), files - {name}, w) == Tally(order, files, w) - w(files[name])
  {
    var init, last := order[..|order| - 1], order[|order| - 1];
    if last == name {
      assert name !in init;
      TallySame(init, files, files - {name}, w);
    } else {
      TallyWithout(init, files, name, w);
      var r := OrderWithout(order, name);
      assert r[..|r| - 1] == OrderWithout(init, name);
    }
  }

  lemma {:induction false} TallyBounds(order: seq<string>, files: map<string, File>, w: File -> int)
    requires forall n :: n in order ==> n in files
    requires forall f :: 0 <= w(f) <= 1
    ensures 0 <= Tally(order, files, w) <= |order|
  {
    if order != [] {
      TallyBounds(order[..|order| - 1], files, w);
    }
  }

  /** A file counts as uploaded once it has content. */
  predicate HasContent(f: File) {
    f.size > 0 && !f.directory
  }

  function UploadedWeight(): File -> int {
    (f: File) => if HasContent(f) then 1 else 0
  }

  function SizeWeight(): File -> int {
    (f: File) => if f.directory then 0 else f.size
  }

  function UploadingWeight(): File -> int {
    (f: File) => if f.uploading then 1 else 0
  }

  function OwnWeight(user: string): File -> int {
    (f: File) => if EightCharUserCompare(user, f.owner) then 1 else 0
  }

  // ----- the list -----

  datatype Content = Content(
    user: string,
    files: map<string, File>,
    order: seq<string>,
    lower: map<string, string>,
    state: FileListState,
    owned: int,
    ownpercentage: int,
    uploading: int,
    maxfilesize: nat,
    totalfilesize: int,
    uploadedfiles: int,
    boardstate: UpdateState,
    changed: set<string>)

  /** Every name of the order is stored once, and every lower case entry leads to a
      stored file of that lower case name. */
  ghost predicate Sound(c: Content) {
    && Distinct(c.order)
    && (forall n :: n in c.order <==> n in c.files)
    && (forall x :: x in c.lower ==> c.lower[x] in c.files && ToLower(c.lower[x]) == x)
    && (forall n :: n in c.files && !c.files[n].directory ==> c.files[n].size <= c.maxfilesize)
  }

  /** The counters of uploads agree with the stored files. */
  ghost predicate UploadsCounted(c: Content)
    requires Sound(c)
  {
    && c.uploadedfiles == Tally(c.order, c.files, UploadedWeight())
    && c.totalfilesize == Tally(c.order, c.files, SizeWeight())
  }

  ghost predicate UploadingCounted(c: Content)
    requires Sound(c)
  {
    c.uploading == Tally(c.order, c.files, UploadingWeight())
  }

  ghost predicate OwnedCounted(c: Content)
    requires Sound(c)
  {
    c.owned == Tally(c.order, c.files, OwnWeight(c.user))
  }

  ghost predicate Counted(c: Content)
    requires Sound(c)
  {
    UploadsCounted(c) && UploadingCounted(c) && OwnedCounted(c)
  }

  function ToInt(x: nat): int {
    var w := x % U32;
    if w < 0x8000_0000 then w else w - U32
  }

  /** The product is an int, the divisor an unsigned size. */
  function OwnedPercentage(owned: int, size: nat): int {
    if size == 0 then 100 else ToInt(((owned * 100) % U64) / size)
  }

  ghost predicate PercentageOk(c: Content) {
    c.ownpercentage == OwnedPercentage(c.owned, |c.files|)
  }

  function Recalculated(c: Content): Content {
    c.(ownpercentage := OwnedPercentage(c.owned, |c.files|))
  }

  function Changed(c: Content): Content {
    c.(boardstate := Bumped(c.boardstate, CHANGED))
  }

  function MetaChanged(c: Content): Content {
    c.(boardstate := Bumped(c.boardstate, META_CHANGED))
  }

  function Noted(c: Content, name: string): Content {
    c.(changed := c.changed + {name})
  }

  // ----- lookup -----

  function GetFile(c: Content, name: string): (r: Option<File>)
    ensures name in c.files ==> r == Some(c.files[name])
  {
    if name in c.files then Some(c.files[name])
    else
      var l := ToLower(name);
      if l in c.lower && c.lower[l] in c.files then Some(c.files[c.lower[l]]) else None
  }

  predicate Contains(c: Content, name: string) {
    name in c.files ||
    (ToLower(name) in c.lower && c.lower[ToLower(name)] in c.files)
  }

  // ----- operations -----

  function InitialContent(user: string, state: FileListState): Content {
    Content(user, map[], [], map[], state, 0, 100, 0, 0, 0, 0, NONE, {})
  }

  function Max(a: nat, b: nat): nat {
    if a > b then a else b
  }

  function OwnedAfter(user: string, owned: int, was: string, is_: string): int {
    if EightCharUserCompare(is_, was) then owned
    else if EightCharUserCompare(user, is_) then owned + 1
    else if EightCharUserCompare(user, was) then owned - 1
    else owned
  }

  function UploadedStep(was: File, size: nat): int {
    if was.directory then 0
    else if was.size == 0 && size > 0 then 1
    else if was.size > 0 && size == 0 then -1
    else 0
  }

  function UpdateBoardState(s: UpdateState, was: File, f: File): UpdateState {
    if was.size != f.size then Bumped(s, CHANGED)
    else if was.owner != f.owner || was.group != f.group || was.lastmodified != f.lastmodified then
      Bumped(s, META_CHANGED)
    else s
  }

  /** A stored file keeps its kind, and whether it is being uploaded. */
  function Refreshed(was: File, f: File): File {
    was.(size := f.size, owner := f.owner, group := f.group, lastmodified := f.lastmodified,
         touch := f.touch, updateflag := false)
  }

  /** A listing line about a file that is already stored. */
  function UpdateExisting(c: Content, name: string, f: File): Content
    requires name in c.files
  {
    var was := c.files[name];
    var owned := OwnedAfter(c.user, c.owned, was.owner, f.owner);
    c.(files := c.files[name := Refreshed(was, f)],
       totalfilesize := c.totalfilesize + if was.directory then 0 else f.size - was.size,
       uploadedfiles := c.uploadedfiles + UploadedStep(was, f.size),
       maxfilesize := Max(c.maxfilesize, f.size),
       owned := owned,
       ownpercentage := if EightCharUserCompare(f.owner, was.owner) then c.ownpercentage
                        else OwnedPercentage(owned, |c.files|),
       boardstate := UpdateBoardState(c.boardstate, was, f),
       changed := c.changed + if was.size != f.size || was.owner != f.owner then {name} else {})
  }

  function AddNew(c: Content, name: string, f: File): Content
    requires name !in c.files
  {
    var c1 := c.(order := c.order + [name], files := c.files[name := f], lower := c.lower[ToLower(name) := name],
                 uploadedfiles := c.uploadedfiles + if HasContent(f) then 1 else 0,
                 totalfilesize := c.totalfilesize + if HasContent(f) then f.size else 0,
                 maxfilesize := Max(c.maxfilesize, f.size),
                 owned := c.owned + if EightCharUserCompare(c.user, f.owner) then 1 else 0);
    Noted(Changed(Recalculated(c1)), name)
  }

  function Update(c: Content, name: string, f: File): Content {
    if name in c.files then UpdateExisting(c, name, f) else AddNew(c, name, f)
  }

  function EmptyFile(user: string): File {
    File(0, user, user, "0", false, 0, false, false)
  }

  function StartUpload(c: Content, name: string): Content
    requires name in c.files
  {
    if c.files[name].uploading then c
    else c.(files := c.files[name := c.files[name].(uploading := true)], uploading := c.uploading + 1)
  }

  /** A transfer is about to create the file. */
  function Announce(c: Content, name: string, user: string): (r: Content)
    ensures name in r.files
  {
    if name in c.files then c.(files := c.files[name := c.files[name].(updateflag := false)])
    else AddNew(c, name, EmptyFile(user))
  }

  function Touch(c: Content, name: string, user: string, upload: bool): Content {
    var c1 := Announce(c, name, user);
    if upload then StartUpload(c1, name) else c1
  }

  function Remove(c: Content, name: string): Content {
    if name !in c.files then c
    else
      var f := c.files[name];
      var c1 := c.(owned := c.owned - if EightCharUserCompare(c.user, f.owner) then 1 else 0,
                   uploadedfiles := c.uploadedfiles - if HasContent(f) then 1 else 0,
                   totalfilesize := c.totalfilesize - if HasContent(f) then f.size else 0,
                   uploading := c.uploading - if f.uploading then 1 else 0,
                   order := OrderWithout(c.order, name), files := c.files - {name}, lower := c.lower - {ToLower(name)});
      Noted(Changed(Recalculated(c1)), name)
  }

  /** The size a finished transfer reports for the file. */
  function SetUpdateFlag(c: Content, name: string, size: nat): Content {
    if name !in c.files then c
    else
      var was := c.files[name];
      var c1 := if was.size == size then c
                else Noted(Changed(c.(uploadedfiles := c.uploadedfiles + if was.size == 0 then 1 else 0,
                                      totalfilesize := c.totalfilesize + size - was.size,
                                      maxfilesize := Max(c.maxfilesize, size))), name);
      c1.(files := c.files[name := was.(size := size, updateflag := true)])
  }

  function FinishUpload(c: Content, name: string): Content {
    if name in c.files && c.files[name].uploading then
      Changed(c.(files := c.files[name := c.files[name].(uploading := false)], uploading := c.uploading - 1))
    else c
  }

  function MaxSize(order: seq<string>, files: map<string, File>): (m: nat)
    requires forall n :: n in order ==> n in files
    ensures forall n :: n in order && !files[n].directory ==> files[n].size <= m
    ensures m > 0 ==> exists n :: n in order && !files[n].directory && files[n].size == m
  {
    if order == [] then 0
    else
      var n := order[|order| - 1];
      var m := MaxSize(order[..|order| - 1], files);
      if !files[n].directory && files[n].size > m then files[n].size else m
  }

  function RemoveAll(c: Content, names: seq<string>): Content {
    if names == [] then c else Remove(RemoveAll(c, names[..|names| - 1]), names[|names| - 1])
  }

  function StaleNames(order: seq<string>, files: map<string, File>, touch: int): (r: seq<string>)
    requires forall n :: n in order ==> n in files
    ensures forall n :: n in r <==> n in order && files[n].touch != touch && !files[n].uploading
  {
    if order == [] then []
    else
      var r, f := StaleNames(order[..|order| - 1], files, touch), files[order[|order| - 1]];
      if f.touch != touch && !f.uploading then r + [order[|order| - 1]] else r
  }

  lemma RemoveSound(c: Content, name: string)
    requires Sound(c)
    ensures Sound(Remove(c, name))
    ensures Remove(c, name).files == c.files - {name} && Remove(c, name).user == c.user
  {
    hide OwnedPercentage, EightCharUserCompare, ToLower, OrderWithout, HasContent, Bumped;
    if name in c.files {
      RemovedLower(c, name);
    }
  }

  lemma RemovedLower(c: Content, name: string)
    requires Sound(c) && name in c.files
    ensures var lower := c.lower - {ToLower(name)};
            forall x :: x in lower ==> lower[x] in c.files && lower[x] != name && ToLower(lower[x]) == x
  {
    hide ToLower;
  }

  lemma {:induction false} RemoveAllSound(c: Content, names: seq<string>)
    requires Sound(c)
    ensures Sound(RemoveAll(c, names))
    ensures RemoveAll(c, names).files == c.files - set n | n in names
    ensures RemoveAll(c, names).user == c.user
  {
    hide Sound, Remove;
    if names != [] {
      var init, last := names[..|names| - 1], names[|names| - 1];
      RemoveAllSound(c, init);
      RemoveSound(RemoveAll(c, init), last);
      assert (set n | n in names) == (set n | n in init) + {last};
    }
  }

  /** Drops what the last listing did not mention, but for files being uploaded. */
  function Sweep(c: Content, touch: int): (r: Content)
    requires Sound(c)
  {
    var stale := StaleNames(c.order, c.files, touch);
    if stale == [] then c
    else
      RemoveAllSound(c, stale);
      var c1 := RemoveAll(c, stale);
      Changed(c1.(maxfilesize := MaxSize(c1.order, c1.files)))
  }

  // ----- a listing -----

  datatype Entry = Entry(name: string, file: File)

  /** The entries of a listing, all marked with the same touch value. */
  function ApplyEntries(c: Content, entries: seq<Entry>, touch: int): Content {
    if entries == [] then c
    else
      var e := entries[|entries| - 1];
      Update(ApplyEntries(c, entries[..|entries| - 1], touch), e.name, e.file.(touch := touch))
  }

  function SetListed(c: Content): Content {
    c.(state := LISTED, boardstate := Bumped(c.boardstate, REFRESHED))
  }
}
