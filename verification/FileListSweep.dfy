/** Reading a whole listing: every entry refreshes its file, and what was not
    mentioned is swept when the list is larger than the listing. */
module FileListSweep {
  import opened Base
  import opened FileListContent
  import opened FileListLaws
  import opened FileListRuns

  // ----- a raw listing -----

  /** A status line of the form 21x followed by a space ends the listing. */
  predicate EndsListing(buf: string, loc: nat)
    requires loc + 4 < |buf|
  {
    buf[loc] == '2' && buf[loc + 1] == '1' && buf[loc + 3] == ' '
  }

  predicate ContinuesListing(buf: string, loc: nat)
    requires loc + 4 < |buf|
  {
    buf[loc] == '2' && buf[loc + 1] == '1' && buf[loc + 3] == '-'
  }

  /** The place behind the next line feed, or the end. */
  function LineEnd(buf: string, loc: nat): (r: nat)
    requires loc <= |buf|
    ensures loc <= r <= |buf| && (loc < |buf| ==> loc < r)
    ensures forall i :: loc <= i < r - 1 ==> buf[i] != '\n'
    ensures loc < r ==> r == |buf| || buf[r - 1] == '\n'
    decreases |buf| - loc
  {
    if loc == |buf| then loc
    else if buf[loc] == '\n' then loc + 1
    else LineEnd(buf, loc + 1)
  }

  /** The lines from loc on that are long enough to describe a file. */
  function Lines(buf: string, loc: nat): seq<string>
    requires loc <= |buf|
    decreases |buf| - loc
  {
    if loc + 4 >= |buf| || EndsListing(buf, loc) then []
    else
      var start := if ContinuesListing(buf, loc) then loc + 4 else loc;
      var end := LineEnd(buf, start);
      (if end - start >= 40 then [buf[start..end]] else []) + Lines(buf, end)
  }

  /** The entries of the lines that can be parsed and name a file. */
  function Accepted(lines: seq<string>, parse: string -> Option<Entry>): seq<Entry> {
    if lines == [] then []
    else
      var e := parse(lines[0]);
      (if e.Some? && e.value.name != "." && e.value.name != ".." then [e.value] else []) + Accepted(lines[1..], parse)
  }

  /** What the next line from loc contributes. */
  lemma LinesStep(buf: string, loc: nat, parse: string -> Option<Entry>)
    requires loc + 4 < |buf| && !EndsListing(buf, loc)
    ensures var start := if ContinuesListing(buf, loc) then loc + 4 else loc;
            var end := LineEnd(buf, start);
            Accepted(Lines(buf, loc), parse) ==
            (if end - start >= 40 then Accepted([buf[start..end]], parse) else []) + Accepted(Lines(buf, end), parse)
  {
    var start := if ContinuesListing(buf, loc) then loc + 4 else loc;
    var end := LineEnd(buf, start);
    if end - start >= 40 {
      var line := buf[start..end];
      assert ([line] + Lines(buf, end))[1..] == Lines(buf, end);
      assert Accepted([line][1..], parse) == [];
    } else {
      assert Lines(buf, loc) == [] + Lines(buf, end) == Lines(buf, end);
      assert [] + Accepted(Lines(buf, end), parse) == Accepted(Lines(buf, end), parse);
    }
  }

  // ----- the text of a listing -----

  /** A line of a listing, with its line feed; it may come after a status code and a dash. */
  datatype RawLine = RawLine(coded: bool, text: string)

  function LineText(l: RawLine): string {
    (if l.coded then "213-" else "") + l.text
  }

  function ListingText(lines: seq<RawLine>): string {
    if lines == [] then "" else LineText(lines[0]) + ListingText(lines[1..])
  }

  function LongLines(lines: seq<RawLine>): seq<string> {
    if lines == [] then []
    else (if |lines[0].text| >= 40 then [lines[0].text] else []) + LongLines(lines[1..])
  }

  /** Ends in its only line feed, and without a code does not begin like one. */
  predicate PlainLine(l: RawLine) {
    var n := |l.text|;
    && n > 0 && l.text[n - 1] == '\n' && (forall i :: 0 <= i < n - 1 ==> l.text[i] != '\n')
    && (!l.coded && n >= 2 && l.text[..2] == "21" ==> n >= 4 && l.text[3] != ' ' && l.text[3] != '-')
  }

  /** The end of a listing: a status code and a space. */
  predicate EndText(rest: string) {
    |rest| > 4 && rest[..2] == "21" && rest[3] == ' '
  }

  lemma {:induction false} LineEndShift(buf: string, a: nat, loc: nat)
    requires a + loc <= |buf|
    ensures LineEnd(buf, a + loc) == a + LineEnd(buf[a..], loc)
    decreases |buf| - loc
  {
    if a + loc < |buf| && buf[a + loc] != '\n' {
      LineEndShift(buf, a, loc + 1);
    }
  }

  lemma StatusShift(buf: string, a: nat, loc: nat)
    requires a + loc + 4 < |buf|
    ensures EndsListing(buf, a + loc) <==> EndsListing(buf[a..], loc)
    ensures ContinuesListing(buf, a + loc) <==> ContinuesListing(buf[a..], loc)
  {
  }

  lemma SliceShift(buf: string, a: nat, i: nat, j: nat)
    requires i <= j && a + j <= |buf|
    ensures buf[a..][i..j] == buf[a + i..a + j]
  {
  }

  lemma LinesNext(buf: string, loc: nat)
    requires loc + 4 < |buf| && !EndsListing(buf, loc)
    ensures var start := if ContinuesListing(buf, loc) then loc + 4 else loc;
            var end := LineEnd(buf, start);
            Lines(buf, loc) == (if end - start >= 40 then [buf[start..end]] else []) + Lines(buf, end)
  {
    hide LineEnd, EndsListing, ContinuesListing;
  }

  lemma LinesNone(buf: string, loc: nat)
    requires loc <= |buf| && (loc + 4 >= |buf| || EndsListing(buf, loc))
    ensures Lines(buf, loc) == []
  {
    hide EndsListing, ContinuesListing;
  }

  /** What comes before does not matter. */
  lemma {:induction false} LinesShift(buf: string, a: nat, loc: nat)
    requires a + loc <= |buf|
    ensures Lines(buf, a + loc) == Lines(buf[a..], loc)
    decreases |buf| - loc
  {
    hide Lines, LineEnd, EndsListing, ContinuesListing;
    if a + loc + 4 < |buf| {
      StatusShift(buf, a, loc);
    }
    if a + loc + 4 < |buf| && !EndsListing(buf, a + loc) {
      var start := if ContinuesListing(buf, a + loc) then loc + 4 else loc;
      LineEndShift(buf, a, start);
      var end := LineEnd(buf[a..], start);
      SliceShift(buf, a, start, end);
      LinesShift(buf, a, end);
      LinesNext(buf, a + loc);
      LinesNext(buf[a..], loc);
    } else {
      LinesNone(buf, a + loc);
      LinesNone(buf[a..], loc);
    }
  }

  lemma LineEndIs(line: string, rest: string, start: nat)
    requires start < |line| && line[|line| - 1] == '\n' && forall i :: start <= i < |line| - 1 ==> line[i] != '\n'
    ensures LineEnd(line + rest, start) == |line|
  {
    hide LineEnd;
    assert (line + rest)[|line| - 1] == '\n';
  }

  lemma PlainStart(l: RawLine, rest: string)
    requires PlainLine(l) && |rest| > 4
    ensures !EndsListing(LineText(l) + rest, 0) && (ContinuesListing(LineText(l) + rest, 0) <==> l.coded)
  {
    var buf := LineText(l) + rest;
    if l.coded {
      assert buf[0] == '2' && buf[1] == '1' && buf[3] == '-';
    } else if |l.text| >= 2 && buf[0] == '2' && buf[1] == '1' {
      assert l.text[..2] == "21";
      assert buf[3] == l.text[3];
    }
  }

  lemma PlainEnd(l: RawLine, rest: string)
    requires PlainLine(l)
    ensures var start, line := if l.coded then 4 else 0, LineText(l);
            && LineEnd(line + rest, start) == |line| && |line| == start + |l.text|
            && (line + rest)[start..|line|] == l.text
  {
    hide LineEnd;
    LineEndIs(LineText(l), rest, if l.coded then 4 else 0);
  }

  /** The first line of a listing, and the rest of it. */
  lemma FirstLine(l: RawLine, rest: string)
    requires PlainLine(l) && |rest| > 4
    ensures Lines(LineText(l) + rest, 0) == (if |l.text| >= 40 then [l.text] else []) + Lines(rest, 0)
  {
    hide Lines, LineEnd, PlainLine, EndsListing, ContinuesListing, LineText;
    var line := LineText(l);
    PlainStart(l, rest);
    PlainEnd(l, rest);
    LinesNext(line + rest, 0);
    assert (line + rest)[|line|..] == rest;
    LinesShift(line + rest, |line|, 0);
  }

  /** Reading a listing gives back its lines of at least 40 characters, up to the status that
      ends it. */
  lemma {:induction false} ListingLines(lines: seq<RawLine>, end: string)
    requires (forall l :: l in lines ==> PlainLine(l)) && EndText(end)
    ensures Lines(ListingText(lines) + end, 0) == LongLines(lines)
  {
    hide PlainLine;
    if lines == [] {
      assert ListingText(lines) + end == end;
      EndIsEnd(end);
    } else {
      var rest := ListingText(lines[1..]) + end;
      assert ListingText(lines) + end == LineText(lines[0]) + rest;
      ListingLines(lines[1..], end);
      FirstLine(lines[0], rest);
    }
  }

  lemma EndIsEnd(end: string)
    requires EndText(end)
    ensures Lines(end, 0) == []
  {
    assert end[0] == end[..2][0] && end[1] == end[..2][1];
  }

  lemma AcceptedOne(line: string, parse: string -> Option<Entry>)
    ensures var e := parse(line);
            Accepted([line], parse) ==
            if e.Some? && e.value.name != "." && e.value.name != ".." then [e.value] else []
  {
    assert Accepted([line][1..], parse) == [];
  }

  // ----- its effect -----

  function Names(entries: seq<Entry>): (r: set<string>)
    ensures forall e :: e in entries ==> e.name in r
    ensures forall n :: n in r ==> exists e :: e in entries && e.name == n
  {
    set e | e in entries :: e.name
  }

  /** The whole of one listing, with its size test before the sweep. */
  function ReadListing(c: Content, entries: seq<Entry>, touch: int): Content
    requires Sound(c)
  {
    EntriesFiles(c, entries, touch);
    var c1 := ApplyEntries(c, entries, touch);
    SetListed(if |c1.files| > |entries| then Sweep(c1, touch) else c1)
  }

  /** d is c after a listing of these names. */
  ghost predicate Listed(c: Content, d: Content, names: set<string>, touch: int) {
    && d.files.Keys == c.files.Keys + names
    && (forall n :: n in names ==> d.files[n].touch == touch)
    && (forall n :: n in c.files && n !in names ==> d.files[n] == c.files[n])
    && (forall n :: n in c.files ==> d.files[n].uploading == c.files[n].uploading)
  }

  lemma ListedStep(c: Content, d: Content, names: set<string>, touch: int, e: Entry)
    requires Listed(c, d, names, touch)
    ensures Listed(c, Update(d, e.name, e.file.(touch := touch)), names + {e.name}, touch)
  {
    hide Update;
    UpdateFiles(d, e.name, e.file.(touch := touch));
  }

  lemma {:induction false} EntriesFiles(c: Content, entries: seq<Entry>, touch: int)
    requires Sound(c)
    ensures Sound(ApplyEntries(c, entries, touch))
    ensures Listed(c, ApplyEntries(c, entries, touch), Names(entries), touch)
  {
    hide Sound, Update;
    if entries != [] {
      hide Listed;
      var init, e := entries[..|entries| - 1], entries[|entries| - 1];
      EntriesFiles(c, init, touch);
      var d := ApplyEntries(c, init, touch);
      UpdateSound(d, e.name, e.file.(touch := touch));
      assert entries == init + [e];
      assert Names(entries) == Names(init) + {e.name};
      ListedStep(c, d, Names(init), touch, e);
    }
  }

  lemma UpdateFiles(c: Content, name: string, f: File)
    ensures var d := Update(c, name, f);
            && d.files.Keys == c.files.Keys + {name}
            && d.files[name].touch == f.touch
            && (name in c.files ==> d.files[name].uploading == c.files[name].uploading)
            && (forall n :: n in c.files && n != name ==> d.files[n] == c.files[n])
  {
    hide OwnedPercentage, OwnedAfter, UpdateBoardState, ToLower, EightCharUserCompare, Bumped, Max, HasContent,
      UploadedStep;
    if name in c.files {
      assert Update(c, name, f).files == c.files[name := Refreshed(c.files[name], f)];
    } else {
      assert Update(c, name, f).files == c.files[name := f];
    }
  }

  /** The last line about a file is what is known of it after a listing. */
  lemma {:induction false} LastLineWins(c: Content, entries: seq<Entry>, touch: int, i: nat)
    requires Sound(c) && i < |entries| && forall j :: i < j < |entries| ==> entries[j].name != entries[i].name
    ensures var d, e := ApplyEntries(c, entries, touch), entries[i];
            && e.name in d.files && d.files[e.name].size == e.file.size && d.files[e.name].owner == e.file.owner
            && d.files[e.name].group == e.file.group && d.files[e.name].lastmodified == e.file.lastmodified
  {
    hide Update, Sound;
    var init, last := entries[..|entries| - 1], entries[|entries| - 1];
    UpdatedFile(ApplyEntries(c, init, touch), last.name, last.file.(touch := touch));
    if i < |entries| - 1 {
      LastLineWins(c, init, touch, i);
    }
  }

  /** What a listing should leave: the names it mentions, and files being uploaded. */
  function Expected(c: Content, entries: seq<Entry>): set<string> {
    Names(entries) + set n | n in c.files && c.files[n].uploading
  }

  function Unlisted(c: Content, entries: seq<Entry>): set<string> {
    c.files.Keys - Names(entries)
  }

  predicate Fresh(c: Content, touch: int) {
    forall n :: n in c.files ==> c.files[n].touch != touch
  }

  lemma SweepFiles(c: Content, entries: seq<Entry>, touch: int)
    requires Sound(c) && Fresh(c, touch)
    ensures Sound(ApplyEntries(c, entries, touch))
    ensures Sweep(ApplyEntries(c, entries, touch), touch).files.Keys == Expected(c, entries)
    ensures ApplyEntries(c, entries, touch).files.Keys == c.files.Keys + Names(entries)
  {
    hide ApplyEntries, Sweep;
    EntriesFiles(c, entries, touch);
    var d := ApplyEntries(c, entries, touch);
    SweepSound(d, touch);
  }

  lemma {:induction false} NamesCardinality(entries: seq<Entry>)
    ensures |Names(entries)| <= |entries|
    ensures (forall i, j :: 0 <= i < j < |entries| ==> entries[i].name != entries[j].name) ==>
              |Names(entries)| == |entries|
  {
    if entries != [] {
      var init, e := entries[..|entries| - 1], entries[|entries| - 1];
      NamesCardinality(init);
      assert entries == init + [e];
      assert Names(entries) == Names(init) + {e.name};
    }
  }

  /** The size test before the sweep loses nothing exactly when there is nothing to
      sweep, or more files went unmentioned than there were repeated lines. */
  lemma GuardedSweepExact(c: Content, entries: seq<Entry>, touch: int)
    requires Sound(c) && Fresh(c, touch)
    ensures ReadListing(c, entries, touch).files.Keys == Expected(c, entries) <==>
            ((forall n :: n in Unlisted(c, entries) ==> c.files[n].uploading) ||
             |Unlisted(c, entries)| > |entries| - |Names(entries)|)
  {
    hide ApplyEntries, Sweep, Sound, Names, Expected;
    SweepFiles(c, entries, touch);
    ExpectedSplit(c, entries);
    var d := ApplyEntries(c, entries, touch);
    assert |d.files| == |d.files.Keys|;
  }

  lemma ExpectedSplit(c: Content, entries: seq<Entry>)
    ensures |c.files.Keys + Names(entries)| == |Names(entries)| + |Unlisted(c, entries)|
    ensures c.files.Keys + Names(entries) == Expected(c, entries) <==>
            forall n :: n in Unlisted(c, entries) ==> c.files[n].uploading
  {
    hide Names;
    assert c.files.Keys + Names(entries) == Names(entries) + Unlisted(c, entries);
    assert Expected(c, entries) <= c.files.Keys + Names(entries);
  }

  /** For a listing without repeated names the list is exactly what was listed plus
      the files being uploaded, whether or not the sweep ran. */
  lemma DistinctListing(c: Content, entries: seq<Entry>, touch: int)
    requires Sound(c) && Fresh(c, touch)
    requires forall i, j :: 0 <= i < j < |entries| ==> entries[i].name != entries[j].name
    ensures ReadListing(c, entries, touch).files.Keys == Expected(c, entries)
  {
    hide ReadListing;
    NamesCardinality(entries);
    GuardedSweepExact(c, entries, touch);
    if n :| n in Unlisted(c, entries) {
      assert |Unlisted(c, entries)| > 0;
    }
  }

  /** A repeated line hides a file that is gone: it is never swept. */
  lemma RepeatedLineHidesRemoval(c: Content, gone: string, e: Entry, touch: int)
    requires Sound(c) && Fresh(c, touch) && c.files.Keys == {gone} && gone != e.name
    requires !c.files[gone].uploading
    ensures gone in ReadListing(c, [e, e], touch).files
  {
    hide ReadListing, Sound, Names, Fresh;
    RepeatedNames(e);
    GuardedSweepExact(c, [e, e], touch);
    assert Unlisted(c, [e, e]) == {gone};
    ReadListingKeys(c, [e, e], touch);
  }

  lemma RepeatedNames(e: Entry)
    ensures Names([e, e]) == {e.name}
  {
  }

  lemma ReadListingKeys(c: Content, entries: seq<Entry>, touch: int)
    requires Sound(c) && Fresh(c, touch)
    ensures var r := ReadListing(c, entries, touch).files.Keys;
            r == Expected(c, entries) || r == c.files.Keys + Names(entries)
  {
    hide ApplyEntries, Sweep, Sound;
    SweepFiles(c, entries, touch);
  }
}
