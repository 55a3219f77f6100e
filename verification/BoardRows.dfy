/** What a row of a board says about its key, and why the sorted board starts with the
    files that have priority. */
module BoardRows {
  import opened Base
  import opened FileListContent
  import opened FileListLaws
  import opened FileListRuns
  import opened ScoreBoardElements
  import opened ScoreBoardIndex
  import opened Scores
  import opened BoardSync
  import opened BoardEvolution

  /** The readings that scores depend on. */
  datatype Scoring = Scoring(
    speed: (nat, nat) -> int,
    maxavgspeed: nat,
    priority: nat -> SitePriority,
    racemode: nat -> bool,
    timespent: nat -> nat,
    maxfilesize: (nat, nat) -> nat,
    maxprogress: nat -> nat)

  // ----- kinds of files -----

  /** The place of the last dot, or 0. */
  function LastDot(name: string): (p: nat)
    ensures p == 0 || (p < |name| && name[p] == '.')
    ensures forall i :: p < i < |name| ==> name[i] != '.'
  {
    if |name| <= 1 then 0
    else if name[|name| - 1] == '.' then |name| - 1
    else LastDot(name[..|name| - 1])
  }

  /** A dot in front does not start an extension. */
  function Extension(name: string): string {
    if LastDot(name) == 0 then "" else ToLower(name[LastDot(name) + 1..])
  }

  function PrioOf(name: string): PrioType {
    if Extension(name) == "sfv" then PRIO
    else if Extension(name) == "nfo" then PRIO_LATER
    else NORMAL
  }

  /** More than the ending, and the ending in any case of its letters. */
  predicate EndsIn(name: string, ending: string) {
    |name| > |ending| && ToLower(name[|name| - |ending|..]) == ending
  }

  /** A file without priority. */
  predicate Ordinary(name: string) {
    !EndsIn(name, ".sfv") && !EndsIn(name, ".nfo")
  }

  lemma LastDotIs(name: string, p: nat)
    requires 0 < p < |name| && name[p] == '.' && forall i :: p < i < |name| ==> name[i] != '.'
    ensures LastDot(name) == p
  {
  }

  lemma LowerRest(s: string, p: nat)
    requires p <= |s|
    ensures ToLower(s)[p..] == ToLower(s[p..])
  {
    hide LowerChar;
    if p < |s| {
      LowerRest(s[..|s| - 1], p);
      assert s[p..][..|s| - 1 - p] == s[..|s| - 1][p..];
    }
  }

  /** An extension of three letters is what comes after the dot before them. */
  lemma ExtensionExact(name: string, ext: string)
    requires |ext| == 3 && '.' !in ext
    ensures Extension(name) == ext <==> EndsIn(name, "." + ext)
  {
    hide ToLower, LastDot;
    var p := LastDot(name);
    if EndsIn(name, "." + ext) {
      var q := |name| - 4;
      var tail := name[q..];
      LowerRest(tail, 1);
      assert tail[1..] == name[q + 1..];
      forall i | q < i < |name|
        ensures name[i] != '.'
      {
        LowerAt(tail, i - q);
        assert ToLower(tail)[i - q] == ext[i - q - 1] && ext[i - q - 1] in ext;
      }
      LowerAt(tail, 0);
      LastDotIs(name, q);
    } else if Extension(name) == ext {
      var tail := name[p..];
      assert tail[1..] == name[p + 1..];
      LowerRest(tail, 1);
      LowerAt(tail, 0);
    }
  }

  /** Which names have priority: those that end in .sfv. Those that end in .nfo have it
      later. */
  lemma PrioByName(name: string)
    ensures PrioOf(name) == PRIO <==> EndsIn(name, ".sfv")
    ensures PrioOf(name) == PRIO_LATER <==> EndsIn(name, ".nfo")
  {
    hide EndsIn, Extension;
    ExtensionExact(name, "sfv");
    ExtensionExact(name, "nfo");
    assert "." + "sfv" == ".sfv" && "." + "nfo" == ".nfo";
  }

  lemma PrioByStem(stem: string)
    requires stem != ""
    ensures PrioOf(stem + ".sfv") == PRIO && EndsIn(stem + ".sfv", ".sfv")
    ensures PrioOf(stem + ".nfo") == PRIO_LATER && EndsIn(stem + ".nfo", ".nfo")
  {
    hide PrioOf;
    assert (stem + ".sfv")[|stem|..] == ".sfv" && (stem + ".nfo")[|stem|..] == ".nfo";
    EndingsLower();
    PrioByName(stem + ".sfv");
    PrioByName(stem + ".nfo");
  }

  lemma EndingsLower()
    ensures ToLower(".sfv") == ".sfv" && ToLower(".nfo") == ".nfo"
  {
    forall i | 0 <= i < 4
      ensures ToLower(".sfv")[i] == ".sfv"[i] && ToLower(".nfo")[i] == ".nfo"[i]
    {
      LowerAt(".sfv", i);
      LowerAt(".nfo", i);
    }
  }

  // ----- rows -----

  function FactorsOf(sc: Scoring, lists: Lists, k: Key, speed: int, filesize: nat): Factors
    requires k.dst in lists
  {
    Factors(sc.timespent(k.src.race), filesize, sc.maxfilesize(k.src.race, k.src.site), speed, sc.maxavgspeed,
            sc.racemode(k.src.race), sc.priority(k.dst.site), lists[k.dst].ownpercentage, lists[k.dst].uploadedfiles,
            sc.maxprogress(k.src.race))
  }

  function RowOf(sc: Scoring, lists: Lists, k: Key, speed: int): Row
    requires k.src in lists && k.dst in lists && GetFile(lists[k.src], k.name).Some?
  {
    var filesize := GetFile(lists[k.src], k.name).value.size;
    NewRow(CalculateScore(PrioOf(k.name), FactorsOf(sc, lists, k, speed, filesize)), filesize, PrioOf(k.name))
  }

  predicate RowIs(sc: Scoring, lists: Lists, k: Key, speed: int, row: Row) {
    && k.src in lists && k.dst in lists && GetFile(lists[k.src], k.name).Some?
    && row == RowOf(sc, lists, k, speed)
  }

  // ----- the speed that the loop over changed names carries along -----

  /** A name that l lost and can have back from c. */
  ghost predicate LostAndBack(env: Env, lists: Lists, l: ListId, c: ListId, name: string)
    requires l in lists && c in lists
  {
    GetFile(lists[l], name).None? && PutsBack(env, lists, l, c, name)
  }

  /** The speed after some names: the first one that was lost and put back leaves the speed
      of the opposite direction behind. */
  ghost function CarriedSpeed(env: Env, sc: Scoring, lists: Lists, l: ListId, c: ListId, order: seq<string>): int
    requires l in lists && c in lists
  {
    if order == [] then sc.speed(l.site, c.site)
    else if LostAndBack(env, lists, l, c, order[|order| - 1]) then sc.speed(c.site, l.site)
    else CarriedSpeed(env, sc, lists, l, c, order[..|order| - 1])
  }

  /** The carried speed is the one from l to c if and only if no name before was put back,
      or both directions are as fast. */
  lemma {:induction false} CarriedExact(env: Env, sc: Scoring, lists: Lists, l: ListId, c: ListId, order: seq<string>)
    requires l in lists && c in lists
    ensures CarriedSpeed(env, sc, lists, l, c, order) ==
            if exists n :: n in order && LostAndBack(env, lists, l, c, n) then sc.speed(c.site, l.site)
            else sc.speed(l.site, c.site)
  {
    hide LostAndBack;
    if order != [] {
      var init, last := order[..|order| - 1], order[|order| - 1];
      CarriedExact(env, sc, lists, l, c, init);
      assert order == init + [last];
    }
  }

  /** How the keys between l and c are scored when the names come in this order. */
  ghost predicate PairRow(env: Env, sc: Scoring, lists: Lists, l: ListId, c: ListId, order: seq<string>, k: Key,
                          row: Row)
    requires l in lists && c in lists
  {
    exists i :: 0 <= i < |order| && order[i] == k.name &&
                RowIs(sc, lists, k,
                      if k.src == l then CarriedSpeed(env, sc, lists, l, c, order[..i])
                        else sc.speed(c.site, l.site), row)
  }

  ghost function PairRows(env: Env, sc: Scoring, lists: Lists, l: ListId, c: ListId, order: seq<string>)
    : (Key, Row) -> bool
    requires l in lists && c in lists
  {
    (k, row) => PairRow(env, sc, lists, l, c, order, k, row)
  }

  // ----- rows of a whole drain -----

  /** Some name that the source lost is put back from the destination. */
  ghost predicate SpeedTurns(env: Env, lists: Lists, k: Key) {
    k.src in lists && k.dst in lists &&
    exists n :: n in lists[k.src].changed && LostAndBack(env, lists, k.src, k.dst, n)
  }

  /** A row is scored with the speed from source to destination, or, if the speed turns,
      perhaps with the one of the opposite direction. */
  ghost predicate DrainRow(env: Env, sc: Scoring, lists: Lists, k: Key, row: Row) {
    || RowIs(sc, lists, k, sc.speed(k.src.site, k.dst.site), row)
    || (SpeedTurns(env, lists, k) && RowIs(sc, lists, k, sc.speed(k.dst.site, k.src.site), row))
  }

  ghost function DrainRows(env: Env, sc: Scoring, lists: Lists): (Key, Row) -> bool {
    (k, row) => DrainRow(env, sc, lists, k, row)
  }

  ghost function AddRows(sc: Scoring, lists: Lists): (Key, Row) -> bool {
    (k: Key, row: Row) => RowIs(sc, lists, k, sc.speed(k.src.site, k.dst.site), row)
  }

  lemma PairIsDrain(env: Env, sc: Scoring, lists: Lists, l: ListId, c: ListId, order: seq<string>, k: Key, row: Row)
    requires l in lists && c in lists && forall n :: n in order ==> n in lists[l].changed
    requires PairActs(env, lists, l, c, lists[l].changed)(k) == Put && PairRow(env, sc, lists, l, c, order, k, row)
    ensures DrainRow(env, sc, lists, k, row)
  {
    hide RowIs, LostAndBack, CarriedSpeed, ForwardAct, ReverseAct;
    var i :| 0 <= i < |order| && order[i] == k.name &&
             RowIs(sc, lists, k,
                   if k.src == l then CarriedSpeed(env, sc, lists, l, c, order[..i])
                     else sc.speed(c.site, l.site), row);
    CarriedExact(env, sc, lists, l, c, order[..i]);
    PutsBetween(env, lists, l, c, k);
    if n :| n in order[..i] && LostAndBack(env, lists, l, c, n) {
      assert n in order;
    }
  }

  lemma PutsBetween(env: Env, lists: Lists, l: ListId, c: ListId, k: Key)
    requires l in lists && c in lists && PairActs(env, lists, l, c, lists[l].changed)(k) == Put
    ensures (k.src == l && k.dst == c) || (k.src == c && k.dst == l && k.src != l)
  {
  }

  /** A drain with a wrong row: a is put back from c before b is sent there, and b is
      scored with the speed from c. With b first its score is right. */
  lemma WrongSpeedDrain(env: Env, sc: Scoring, lists: Lists, l: ListId, c: ListId, a: string, b: string,
                        was: map<Key, Row>, rows: map<Key, Row>, here: Key -> bool, order: seq<string>)
    requires l in lists && c in lists && a != b && order in {[a, b], [b, a]}
    requires LostAndBack(env, lists, l, c, a) && GetFile(lists[l], b).Some? && Sends(env, lists, l, c, b)
    requires here(Key(b, l, c)) &&
             Evolved(was, rows, PairActs(env, lists, l, c, {a, b}), here, PairRows(env, sc, lists, l, c, order))
    requires Slow(sc, lists, l, c, b)
    ensures Key(b, l, c) in rows
    ensures RowOf(sc, lists, Key(b, l, c), sc.speed(l.site, c.site)).score == 6500
    ensures rows[Key(b, l, c)].score == if order == [a, b] then 9500 else 6500
  {
    hide LostAndBack, RowOf, Slow, GetFile, Contains;
    var k := Key(b, l, c);
    assert PairActs(env, lists, l, c, {a, b})(k) == Put;
    assert PairRows(env, sc, lists, l, c, order)(k, Settled(rows[k]));
    var i :| 0 <= i < |order| && order[i] == b &&
             RowIs(sc, lists, k, CarriedSpeed(env, sc, lists, l, c, order[..i]), Settled(rows[k]));
    assert order[..i] == if order == [a, b] then [a] else [];
    CarriedOne(env, sc, lists, l, c, a);
    SpeedMatters(sc, lists, l, c, b);
  }

  lemma CarriedOne(env: Env, sc: Scoring, lists: Lists, l: ListId, c: ListId, a: string)
    requires l in lists && c in lists && LostAndBack(env, lists, l, c, a)
    ensures CarriedSpeed(env, sc, lists, l, c, [a]) == sc.speed(c.site, l.site)
    ensures CarriedSpeed(env, sc, lists, l, c, []) == sc.speed(l.site, c.site)
  {
  }

  /** l is slow towards c, and c is fast towards l. */
  predicate Slow(sc: Scoring, lists: Lists, l: ListId, c: ListId, b: string) {
    && l in lists && GetFile(lists[l], b).Some? && GetFile(lists[l], b).value.size == 1
    && PrioOf(b) == NORMAL && sc.maxavgspeed == 1024 && sc.maxfilesize(l.race, l.site) == 0
    && sc.speed(l.site, c.site) == 0 && sc.speed(c.site, l.site) == 1024
    && sc.racemode(l.race) && sc.priority(c.site) == VERY_HIGH
  }

  lemma SpeedMatters(sc: Scoring, lists: Lists, l: ListId, c: ListId, b: string)
    requires c in lists && Slow(sc, lists, l, c, b)
    ensures RowOf(sc, lists, Key(b, l, c), 0).score == 6500 && RowOf(sc, lists, Key(b, l, c), 1024).score == 9500
    ensures sc.speed(l.site, c.site) == 0 && sc.speed(c.site, l.site) == 1024
  {
    hide PrioOf, GetFile, CalculateScore;
    SlowAndFast(FactorsOf(sc, lists, Key(b, l, c), 0, 1));
  }

  /** A priority type is settled by the name, so refreshing an element need not set it. */
  ghost predicate PriosOk(rows: map<Key, Row>) {
    forall k :: k in rows ==> rows[k].prio == PrioOf(k.name)
  }

  lemma DrainPrio(env: Env, sc: Scoring, lists: Lists, k: Key, row: Row)
    requires DrainRow(env, sc, lists, k, row)
    ensures row.prio == PrioOf(k.name)
  {
    hide CalculateScore, Extension, PrioOf, SpeedTurns;
  }

  lemma PriosKept(was: map<Key, Row>, rows: map<Key, Row>, acts: Acts, here: Key -> bool, env: Env, sc: Scoring,
                  lists: Lists)
    requires PriosOk(was) && Evolved(was, rows, acts, here, DrainRows(env, sc, lists))
    ensures PriosOk(rows)
  {
    hide DrainRow, PrioOf;
    forall k | k in rows
      ensures rows[k].prio == PrioOf(k.name)
    {
      if acts(k) == Put && here(k) {
        assert DrainRows(env, sc, lists)(k, Settled(rows[k]));
        DrainPrio(env, sc, lists, k, Settled(rows[k]));
      } else {
        assert SameData(rows[k], was[k]);
      }
    }
  }

  /** What putting a key does to the rows of the board it belongs on. */
  lemma PutRow(rows: map<Key, Row>, k: Key, score: nat, filesize: nat, here: Key -> bool,
               newrow: (Key, Row) -> bool)
    requires PriosOk(rows) && here(k) && newrow(k, NewRow(score, filesize, PrioOf(k.name)))
    ensures var row := if k in rows then ScoreBoardElements.Refreshed(rows[k], score, filesize)
                       else NewRow(score, filesize, PrioOf(k.name));
            Evolved(rows, rows[k := row], Only(k, Put), here, newrow) && PriosOk(rows[k := row])
  {
    hide Evolved, PrioOf;
    var row := if k in rows then ScoreBoardElements.Refreshed(rows[k], score, filesize)
      else NewRow(score, filesize, PrioOf(k.name));
    assert Settled(row) == NewRow(score, filesize, PrioOf(k.name));
    EvolvedPut(rows, k, row, here, newrow);
  }

  /** Skip checks that are due again change no key and no data. */
  lemma UncheckedEvolved(was: map<Key, Row>, rows: map<Key, Row>, fl: ListId, acts: Acts, here: Key -> bool,
                         newrow: (Key, Row) -> bool)
    requires Evolved(was, rows, acts, here, newrow) && PriosOk(rows)
    ensures Evolved(was, SkipUnchecked(rows, fl), acts, here, newrow) && PriosOk(SkipUnchecked(rows, fl))
  {
    hide PrioOf;
    var after := SkipUnchecked(rows, fl);
    forall k | k in after
      ensures Settled(after[k]) == Settled(rows[k])
    {
    }
  }

  /** What the score depends on is the same in the lists while they are processed. */
  lemma RowGrown(env: Env, sc: Scoring, was: Lists, lists: Lists, k: Key, speed: int)
    requires Grown(env, was, lists) && k.src in was && k.dst in was && GetFile(was[k.src], k.name).Some?
    ensures k.src in lists && k.dst in lists && GetFile(lists[k.src], k.name).Some?
    ensures RowOf(sc, lists, k, speed) == RowOf(sc, was, k, speed)
  {
    hide CalculateScore, PrioOf, GetFile;
    GrownView(env, was, lists, k.src);
    GrownView(env, was, lists, k.dst);
  }

  lemma RowReady(env: Env, sc: Scoring, was: Lists, lists: Lists, k: Key, speed: int)
    requires Grown(env, was, lists) && k.src in was && k.dst in was && GetFile(was[k.src], k.name).Some?
    ensures k.src in lists && k.dst in lists && GetFile(lists[k.src], k.name).Some?
    ensures var row := RowOf(sc, lists, k, speed);
            row.score < USHORT_MAX && RowIs(sc, was, k, speed, NewRow(row.score, row.filesize, PrioOf(k.name)))
  {
    hide CalculateScore, PrioOf, GetFile, Grown;
    RowGrown(env, sc, was, lists, k, speed);
  }

  lemma AddReady(sc: Scoring, lists: Lists, was: Lists, k: Key)
    requires k.src in was && k.dst in was && k.name in was[k.src].files
    requires k.src in lists && k.dst in lists && lists[k.src] == was[k.src] && lists[k.dst] == was[k.dst]
    ensures GetFile(lists[k.src], k.name) == Some(was[k.src].files[k.name])
    ensures var row := RowOf(sc, lists, k, sc.speed(k.src.site, k.dst.site));
            row.score < USHORT_MAX && AddRows(sc, was)(k, NewRow(row.score, row.filesize, PrioOf(k.name)))
  {
    hide CalculateScore, PrioOf;
  }

  // ----- priority -----

  /** The readings are in range: see Scores.Sane. */
  ghost predicate Measured(sc: Scoring, lists: Lists) {
    && sc.maxavgspeed >= 1024
    && (forall s, d :: sc.speed(s, d) >= 0)
    && (forall l :: l in lists ==>
          if sc.racemode(l.race) then 0 <= lists[l].ownpercentage <= 100
          else 0 <= lists[l].uploadedfiles <= sc.maxprogress(l.race))
  }

  /** Names that end in .sfv have the top score, and those that end neither in that nor in
      .nfo at most the sum of the maximum points. */
  predicate ScoreOk(k: Key, row: Row) {
    && (EndsIn(k.name, ".sfv") ==> row.score == 65535)
    && (Ordinary(k.name) ==> row.score <= 9500)
  }

  ghost predicate ScoresOk(rows: map<Key, Row>) {
    forall k :: k in rows ==> ScoreOk(k, rows[k])
  }

  lemma FactorsScore(sc: Scoring, lists: Lists, k: Key, speed: int, filesize: nat)
    requires k.dst in lists && Measured(sc, lists) && speed >= 0 && k.src.race == k.dst.race
    ensures var score := CalculateScore(PrioOf(k.name), FactorsOf(sc, lists, k, speed, filesize));
            ScoreOk(k, NewRow(score, filesize, PrioOf(k.name)))
  {
    hide PrioOf, FileSizePoints, SpeedPoints, OwnershipPoints, ProgressPoints, PriorityPoints, EndsIn;
    PrioByName(k.name);
    if PrioOf(k.name) == NORMAL {
      ScoreBound(NORMAL, FactorsOf(sc, lists, k, speed, filesize));
    }
  }

  lemma RowScore(sc: Scoring, lists: Lists, k: Key, speed: int)
    requires k.src in lists && k.dst in lists && GetFile(lists[k.src], k.name).Some?
    requires Measured(sc, lists) && speed >= 0 && k.src.race == k.dst.race
    ensures ScoreOk(k, RowOf(sc, lists, k, speed))
  {
    hide PrioOf, GetFile, CalculateScore, ScoreOk, Measured;
    FactorsScore(sc, lists, k, speed, GetFile(lists[k.src], k.name).value.size);
  }

  /** A file that ends in .nfo has the top score once the race is more than 15 seconds old. */
  lemma NfoWaits(sc: Scoring, lists: Lists, k: Key, speed: int)
    requires k.src in lists && k.dst in lists && GetFile(lists[k.src], k.name).Some?
    requires Measured(sc, lists) && speed >= 0 && k.src.race == k.dst.race && EndsIn(k.name, ".nfo")
    ensures RowOf(sc, lists, k, speed).score == 65535 <==> sc.timespent(k.src.race) > 15
  {
    hide PrioOf, GetFile, FileSizePoints, SpeedPoints, OwnershipPoints, ProgressPoints, PriorityPoints, EndsIn;
    PrioByName(k.name);
    var f := FactorsOf(sc, lists, k, speed, GetFile(lists[k.src], k.name).value.size);
    if f.timespent <= 15 {
      ScoreBound(PRIO_LATER, f);
    }
  }

  /** The readings of two moments that a key without priority is scored by, the second as good
      as the first: at the source the largest file, at the destination its priority, its share
      of own files and its progress, and the speed from one to the other. */
  predicate Improves(a: Scoring, b: Scoring, was: Lists, now: Lists, k: Key, slow: int, fast: int)
    requires k.dst in was && k.dst in now
  {
    var r := k.src.race;
    && b.maxfilesize(r, k.src.site) <= a.maxfilesize(r, k.src.site)
    && Level(a.priority(k.dst.site)) <= Level(b.priority(k.dst.site))
    && now[k.dst].ownpercentage <= was[k.dst].ownpercentage && was[k.dst].uploadedfiles <= now[k.dst].uploadedfiles
    && slow <= fast && a.maxavgspeed == b.maxavgspeed
    && a.racemode(r) == b.racemode(r) && a.maxprogress(r) == b.maxprogress(r)
  }

  /** Readings that are as good never lower the score of a transfer, and a destination whose
      site has a higher priority raises it. */
  lemma BetterRow(a: Scoring, b: Scoring, was: Lists, now: Lists, k: Key, slow: int, fast: int)
    requires k.src in was && k.dst in was && k.src in now && k.dst in now && k.src.race == k.dst.race
    requires GetFile(was[k.src], k.name).Some? && GetFile(now[k.src], k.name).Some?
    requires GetFile(was[k.src], k.name).value.size <= GetFile(now[k.src], k.name).value.size
    requires Measured(a, was) && Measured(b, now) && 0 <= slow && Improves(a, b, was, now, k, slow, fast)
    requires Small(FactorsOf(b, now, k, fast, GetFile(now[k.src], k.name).value.size))
    requires Ordinary(k.name)
    ensures RowOf(a, was, k, slow).score <= RowOf(b, now, k, fast).score
    ensures Level(a.priority(k.dst.site)) < Level(b.priority(k.dst.site)) ==>
              RowOf(a, was, k, slow).score < RowOf(b, now, k, fast).score
  {
    hide PrioOf, GetFile, CalculateScore, EndsIn, Small;
    PrioByName(k.name);
    BetterScores(FactorsOf(a, was, k, slow, GetFile(was[k.src], k.name).value.size),
                 FactorsOf(b, now, k, fast, GetFile(now[k.src], k.name).value.size));
  }

  /** The row of a key that is scored again. */
  function Rescored(sc: Scoring, lists: Lists, k: Key, row: Row): Row
    requires k.dst in lists
  {
    row.(score := CalculateScore(row.prio, FactorsOf(sc, lists, k, sc.speed(k.src.site, k.dst.site), row.filesize)))
  }

  /** Scoring again gives what the key would score if it were put now. */
  lemma RescoredAgrees(sc: Scoring, lists: Lists, k: Key, row: Row)
    requires k.src in lists && k.dst in lists && GetFile(lists[k.src], k.name).Some?
    requires row.prio == PrioOf(k.name) && row.filesize == GetFile(lists[k.src], k.name).value.size
    ensures Settled(Rescored(sc, lists, k, row)) == RowOf(sc, lists, k, sc.speed(k.src.site, k.dst.site))
  {
    hide PrioOf, CalculateScore, GetFile;
  }

  /** Scoring again brings every score into range, whatever it was. */
  lemma RescoredOk(sc: Scoring, lists: Lists, k: Key, row: Row)
    requires k.dst in lists && Measured(sc, lists) && k.src.race == k.dst.race && row.prio == PrioOf(k.name)
    ensures ScoreOk(k, Rescored(sc, lists, k, row)) && Rescored(sc, lists, k, row).score < USHORT_MAX
  {
    hide PrioOf, CalculateScore;
    FactorsScore(sc, lists, k, sc.speed(k.src.site, k.dst.site), row.filesize);
  }

  lemma DrainScore(env: Env, sc: Scoring, lists: Lists, k: Key, row: Row)
    requires DrainRow(env, sc, lists, k, row) && Measured(sc, lists) && k.src.race == k.dst.race
    ensures ScoreOk(k, row)
  {
    hide PrioOf, CalculateScore, GetFile, RowOf, SpeedTurns, ScoreOk;
    RowScore(sc, lists, k, sc.speed(k.src.site, k.dst.site));
    RowScore(sc, lists, k, sc.speed(k.dst.site, k.src.site));
  }

  lemma SameScore(k: Key, a: Row, b: Row)
    requires SameData(a, b) && ScoreOk(k, b)
    ensures ScoreOk(k, a)
  {
    hide PrioOf;
  }

  /** New rows with measured readings keep the scores of a board in range. */
  lemma ScoresKept(was: map<Key, Row>, rows: map<Key, Row>, acts: Acts, here: Key -> bool, newrow: (Key, Row) -> bool,
                   env: Env, sc: Scoring, lists: Lists)
    requires ScoresOk(was) && Evolved(was, rows, acts, here, newrow) && Measured(sc, lists)
    requires forall k, row :: newrow(k, row) ==> DrainRow(env, sc, lists, k, row)
    requires forall k :: acts(k) == Put ==> k.src.race == k.dst.race
    ensures ScoresOk(rows)
  {
    hide ScoreOk, Measured, DrainRow;
    forall k | k in rows
      ensures ScoreOk(k, rows[k])
    {
      if acts(k) == Put && here(k) {
        assert newrow(k, Settled(rows[k]));
        DrainScore(env, sc, lists, k, Settled(rows[k]));
        SameScore(k, rows[k], Settled(rows[k]));
      } else {
        SameScore(k, rows[k], was[k]);
      }
    }
  }

  /** Rows of some keys move from one board to another. */
  ghost predicate Handed(from0: map<Key, Row>, to0: map<Key, Row>, from1: map<Key, Row>, to1: map<Key, Row>,
                         keys: set<Key>) {
    && keys <= from0.Keys && to1.Keys == to0.Keys + keys && from1.Keys == from0.Keys - keys
    && (forall k :: k in to1 ==> SameData(to1[k], if k in keys then from0[k] else to0[k]))
    && (forall k :: k in from1 ==> SameData(from1[k], from0[k]))
  }

  lemma HandedScores(from0: map<Key, Row>, to0: map<Key, Row>, from1: map<Key, Row>, to1: map<Key, Row>, keys: set<Key>)
    requires ScoresOk(from0) && ScoresOk(to0) && Handed(from0, to0, from1, to1, keys)
    ensures ScoresOk(from1) && ScoresOk(to1)
  {
    hide ScoreOk, SameData;
    forall k | k in from1
      ensures ScoreOk(k, from1[k])
    {
      SameScore(k, from1[k], from0[k]);
    }
    forall k | k in to1
      ensures ScoreOk(k, to1[k])
    {
      SameScore(k, to1[k], if k in keys then from0[k] else to0[k]);
    }
  }

  /** On a board sorted by descending score every file that ends in .sfv comes before every
      file that ends neither in that nor in .nfo. */
  ghost predicate PriorityFirst(pool: seq<Element>, es: seq<Handle>, n: nat)
    requires n <= |es| && forall i :: 0 <= i < |es| ==> es[i] < |pool|
  {
    forall i, j :: 0 <= i < n && 0 <= j < n && EndsIn(pool[es[i]].id.name, ".sfv") && Ordinary(pool[es[j]].id.name) ==>
                     i < j
  }

  lemma SortedByPriority(pool: seq<Element>, es: seq<Handle>, n: nat, rows: map<Key, Row>)
    requires n <= |es| && forall i :: 0 <= i < |es| ==> es[i] < |pool|
    requires ScoresOk(rows) && Descending(LiveScores(pool, es, n))
    requires forall i :: 0 <= i < n ==> pool[es[i]].id in rows && rows[pool[es[i]].id] == pool[es[i]].row
    ensures PriorityFirst(pool, es, n)
  {
    hide EndsIn;
    var s := LiveScores(pool, es, n);
    forall i, j | 0 <= i < n && 0 <= j < n && EndsIn(pool[es[i]].id.name, ".sfv") && Ordinary(pool[es[j]].id.name)
      ensures i < j
    {
      assert s[i] == 65535 && s[j] <= 9500;
    }
  }
}
