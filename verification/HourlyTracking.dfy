/** Totals over the last 24 hours, and how they survive a restart. */
module HourlyTrackings {
  import opened Base
  import opened Sums

  datatype Tracker = Tracker(hours: seq<nat>, last24hours: int, all: int, minutes: nat)

  function Zeros(n: nat): seq<nat> {
    seq(n, i => 0)
  }

  function Value(): nat -> int {
    (x: nat) => x
  }

  /** The running total is the total of the hours. */
  ghost predicate Totalled(t: Tracker) {
    |t.hours| == 24 && t.last24hours == Sum(t.hours, Value())
  }

  /** A new hour begins, and the oldest one is forgotten. */
  function Shifted(t: Tracker): Tracker
    requires |t.hours| == 24
  {
    t.(last24hours := t.last24hours - t.hours[23], hours := [0] + t.hours[..23])
  }

  function ShiftedTimes(t: Tracker, n: nat): (r: Tracker)
    requires |t.hours| == 24
    ensures |r.hours| == 24 && r.minutes == t.minutes && r.all == t.all
  {
    if n == 0 then t else Shifted(ShiftedTimes(t, n - 1))
  }

  function ResetHours(t: Tracker): Tracker {
    t.(hours := Zeros(24), last24hours := 0, minutes := 0)
  }

  /** After a day everything is forgotten at once. */
  function Rotated(t: Tracker): Tracker
    requires |t.hours| == 24
  {
    if t.minutes >= 24 * 60 then ResetHours(t)
    else ShiftedTimes(t, t.minutes / 60).(minutes := t.minutes % 60)
  }

  function TickedMinute(t: Tracker): Tracker
    requires |t.hours| == 24
  {
    Rotated(t.(minutes := t.minutes + 1))
  }

  function Ticks(t: Tracker, k: nat): (r: Tracker)
    requires |t.hours| == 24
    ensures |r.hours| == 24
  {
    if k == 0 then t else TickedMinute(Ticks(t, k - 1))
  }

  /** When the current hour began. */
  function StartTimestamp(t: Tracker, now: nat): int {
    now - t.minutes * 60
  }

  /** What is loaded from saved hours and their time stamp. */
  function Loaded(t: Tracker, hours: seq<nat>, timestamp: int, now: nat): Tracker
    requires |hours| == 24
  {
    var s := t.(hours := hours, last24hours := Sum(hours, Value()), minutes := 0);
    if now <= timestamp then s else Rotated(s.(minutes := (now - timestamp) / 60))
  }

  // ----- totals -----

  lemma ShiftedTotal(t: Tracker)
    requires Totalled(t)
    ensures Totalled(Shifted(t))
  {
    hide Sum;
    var init := t.hours[..23];
    assert t.hours == init + [t.hours[23]];
    SumAppend(init, t.hours[23], Value());
    SumConcat<nat>([0], init, Value());
    SumZero<nat>([0], Value());
  }

  lemma {:induction false} ShiftedTimesTotal(t: Tracker, n: nat)
    requires Totalled(t)
    ensures Totalled(ShiftedTimes(t, n))
  {
    if n > 0 {
      ShiftedTimesTotal(t, n - 1);
      ShiftedTotal(ShiftedTimes(t, n - 1));
    }
  }

  lemma ZerosTotal(n: nat)
    ensures Sum(Zeros(n), Value()) == 0
  {
    SumZero(Zeros(n), Value());
  }

  lemma RotatedTotal(t: Tracker)
    requires Totalled(t)
    ensures Totalled(Rotated(t)) && Rotated(t).minutes < 60
  {
    hide Sum;
    ZerosTotal(24);
    ShiftedTimesTotal(t, t.minutes / 60);
  }

  lemma AddedTotal(t: Tracker, value: nat)
    requires Totalled(t)
    ensures Totalled(t.(hours := t.hours[0 := t.hours[0] + value], last24hours := t.last24hours + value))
  {
    SumUpdate<nat>(t.hours, 0, t.hours[0] + value, Value());
  }

  // ----- time -----

  /** After n hours the first n are empty. */
  lemma {:induction false} ShiftedHours(t: Tracker, n: nat)
    requires |t.hours| == 24
    ensures ShiftedTimes(t, n).hours == if n <= 24 then Zeros(n) + t.hours[..24 - n] else Zeros(24)
  {
    if n == 0 {
    } else {
      ShiftedHours(t, n - 1);
      var before := ShiftedTimes(t, n - 1).hours;
      if n <= 24 {
        assert [0] + Zeros(n - 1) == Zeros(n);
        assert before[..23] == Zeros(n - 1) + t.hours[..24 - n];
        assert [0] + before[..23] == Zeros(n) + t.hours[..24 - n];
      } else {
        assert before == Zeros(24);
        assert [0] + Zeros(24)[..23] == Zeros(24);
      }
    }
  }

  /** What was counted over all time is never forgotten. */
  lemma {:induction false} AllStays(t: Tracker, k: nat)
    requires |t.hours| == 24
    ensures Ticks(t, k).all == t.all
    ensures forall timestamp, now, hours :: |hours| == 24 ==> Loaded(t, hours, timestamp, now).all == t.all
  {
    hide Sum;
    if k > 0 {
      AllStays(t, k - 1);
    }
  }

  lemma ShiftedMinutes(t: Tracker, n: nat, m: nat)
    requires |t.hours| == 24
    ensures ShiftedTimes(t.(minutes := m), n) == ShiftedTimes(t, n).(minutes := m)
  {
    if n > 0 {
      ShiftedMinutes(t, n - 1, m);
    }
  }

  /** Ticking for k minutes shifts the hours once an hour. */
  lemma {:induction false} TicksShift(t: Tracker, k: nat)
    requires |t.hours| == 24 && t.minutes < 60
    ensures Ticks(t, k) == ShiftedTimes(t, (t.minutes + k) / 60).(minutes := (t.minutes + k) % 60)
  {
    hide Sum, Shifted, ResetHours;
    if k > 0 {
      TicksShift(t, k - 1);
      var n := (t.minutes + k - 1) / 60;
      var s := Ticks(t, k - 1).(minutes := (t.minutes + k - 1) % 60 + 1);
      ShiftedMinutes(t, n, s.minutes);
      assert s == ShiftedTimes(t, n).(minutes := s.minutes);
      if s.minutes == 60 {
        assert (t.minutes + k) / 60 == n + 1;
        ShiftedMinutes(ShiftedTimes(t, n), 1, 60);
        assert ShiftedTimes(ShiftedTimes(t, n), 1) == Shifted(ShiftedTimes(ShiftedTimes(t, n), 0));
      } else {
        assert (t.minutes + k) / 60 == n;
      }
    }
  }

  lemma LoadedMinutes(t: Tracker, now: nat, k: nat, seconds: nat, other: Tracker)
    requires |t.hours| == 24 && t.minutes < 60 && seconds < 60 && t.minutes * 60 <= now
    ensures Loaded(other, t.hours, StartTimestamp(t, now), now + 60 * k + seconds) ==
            Rotated(other.(hours := t.hours, last24hours := Sum(t.hours, Value()), minutes := t.minutes + k))
  {
    hide Sum;
    WholeMinutes(t.minutes, k, seconds);
    if now + 60 * k + seconds <= StartTimestamp(t, now) {
      assert t.minutes + k == 0;
    }
  }

  /** The hours and the total after catching up depend on the hours before only. */
  lemma RotatedAlike(t: Tracker, s: Tracker)
    requires Totalled(t) && Totalled(s) && s.hours == t.hours
    ensures Rotated(s).hours == ShiftedTimes(t, s.minutes / 60).hours
    ensures Rotated(s).last24hours == ShiftedTimes(t, s.minutes / 60).last24hours
    ensures Rotated(s).minutes == if s.minutes >= 24 * 60 then 0 else s.minutes % 60
  {
    hide Sum;
    var n := s.minutes / 60;
    ShiftedHours(t, n);
    ShiftedHours(s, n);
    ShiftedTimesTotal(t, n);
    RotatedTotal(s);
    if s.minutes >= 24 * 60 {
      assert n >= 24;
      assert Zeros(24) + t.hours[..0] == Zeros(24);
    }
  }

  /** Loading what was saved k minutes (and some seconds) ago gives the same hours and the
      same total as ticking for k minutes. The minutes of the current hour agree as well if
      and only if the tracker was not emptied in the middle of an hour. */
  lemma LoadIsTicks(t: Tracker, now: nat, k: nat, seconds: nat, other: Tracker)
    requires Totalled(t) && t.minutes < 60 && seconds < 60 && t.minutes * 60 <= now
    ensures var a := Loaded(other, t.hours, StartTimestamp(t, now), now + 60 * k + seconds);
            var b := Ticks(t, k);
            && a.hours == b.hours && a.last24hours == b.last24hours
            && (a.minutes == b.minutes <==> t.minutes + k < 24 * 60 || (t.minutes + k) % 60 == 0)
  {
    hide Sum, Rotated, Loaded, ShiftedTimes, Ticks, StartTimestamp;
    var s := other.(hours := t.hours, last24hours := Sum(t.hours, Value()), minutes := t.minutes + k);
    LoadedMinutes(t, now, k, seconds, other);
    RotatedAlike(t, s);
    TicksShift(t, k);
  }

  // ----- a clock that is cut -----

  /** How many whole hours seem to have passed since the time stamp. */
  function HoursSince(timestamp: int, clock: nat): nat {
    if clock <= timestamp then 0 else (clock - timestamp) / 60 / 60
  }

  lemma {:induction false} ShiftedMore(t: Tracker, a: nat, b: nat)
    requires |t.hours| == 24
    ensures ShiftedTimes(ShiftedTimes(t, a), b) == ShiftedTimes(t, a + b)
  {
    hide Shifted;
    if b > 0 {
      ShiftedMore(t, a, b - 1);
    }
  }

  /** Hours that equal themselves when they are shifted are empty, one after the other. */
  lemma {:induction false} EmptyUpTo(hours: seq<nat>, n: nat, i: nat)
    requires 0 < n <= |hours| && i < |hours| && hours == Zeros(n) + hours[..|hours| - n]
    ensures hours[i] == 0
    decreases i
  {
    if i >= n {
      EmptyUpTo(hours, n, i - n);
      assert (Zeros(n) + hours[..|hours| - n])[i] == hours[i - n];
    } else {
      assert (Zeros(n) + hours[..|hours| - n])[i] == 0;
    }
  }

  lemma AllEmpty(hours: seq<nat>, n: nat)
    requires 0 < n <= |hours| && hours == Zeros(n) + hours[..|hours| - n]
    ensures hours == Zeros(|hours|)
  {
    forall i | 0 <= i < |hours|
      ensures hours[i] == 0
    {
      EmptyUpTo(hours, n, i);
    }
  }

  /** Shifting changes the hours unless none has passed or all are empty. */
  lemma ShiftedSame(t: Tracker, n: nat)
    requires |t.hours| == 24
    ensures ShiftedTimes(t, n).hours == t.hours <==> n == 0 || t.hours == Zeros(24)
  {
    hide Shifted, ShiftedTimes;
    ShiftedHours(t, n);
    if n == 0 {
      assert Zeros(0) + t.hours[..24] == t.hours;
    } else if n <= 24 {
      if ShiftedTimes(t, n).hours == t.hours {
        AllEmpty(t.hours, n);
      }
      assert Zeros(n) + Zeros(24)[..24 - n] == Zeros(24);
    }
  }

  /** What is loaded are the saved hours, shifted by the hours that seem to have passed. */
  lemma LoadedShift(t: Tracker, timestamp: int, clock: nat, other: Tracker)
    requires Totalled(t)
    ensures Loaded(other, t.hours, timestamp, clock).hours == ShiftedTimes(t, HoursSince(timestamp, clock)).hours
  {
    hide Sum, Rotated, Shifted;
    if clock > timestamp {
      RotatedAlike(t, other.(hours := t.hours, last24hours := Sum(t.hours, Value()),
                             minutes := (clock - timestamp) / 60));
    }
  }

  /** The clock is cut to 32 bits when hours are loaded. They equal those of k ticks if and
      only if no hour is lost by that, or the hours that are loaded are all empty. */
  lemma LoadExact(t: Tracker, now: nat, k: nat, seconds: nat, other: Tracker)
    requires Totalled(t) && t.minutes < 60 && seconds < 60 && t.minutes * 60 <= now
    ensures var start, clock := StartTimestamp(t, now), (now + 60 * k + seconds) % U32;
            var a := Loaded(other, t.hours, start, clock);
            && HoursSince(start, clock) <= (t.minutes + k) / 60
            && (a.hours == Ticks(t, k).hours <==>
                HoursSince(start, clock) == (t.minutes + k) / 60 || a.hours == Zeros(24))
  {
    hide Sum, Loaded, ShiftedTimes, Ticks, Totalled, Shifted;
    var start, late := StartTimestamp(t, now), now + 60 * k + seconds;
    var clock, n := late % U32, (t.minutes + k) / 60;
    assert |t.hours| == 24 by { TrackedDay(t); }
    WholeMinutes(t.minutes, k, seconds);
    FewerHours(start, clock, late);
    var m := HoursSince(start, clock);
    LoadedShift(t, start, clock, other);
    TicksShift(t, k);
    ShiftedMore(t, m, n - m);
    ShiftedSame(ShiftedTimes(t, m), n - m);
  }

  lemma TrackedDay(t: Tracker)
    requires Totalled(t)
    ensures |t.hours| == 24
  {
  }

  lemma FewerHours(start: int, clock: nat, late: nat)
    requires start <= late && clock <= late
    ensures HoursSince(start, clock) <= (late - start) / 60 / 60
  {
  }

  /** Until the cut clock is at the time stamp again it loads the hours that k ticks leave if
      and only if it was not cut, no hour has passed, or there is nothing to lose. */
  lemma LoadAfterWrap(t: Tracker, now: nat, k: nat, seconds: nat, other: Tracker)
    requires Totalled(t) && t.minutes < 60 && seconds < 60 && t.minutes * 60 <= now < U32
    requires now + 60 * k + seconds <= U32 + StartTimestamp(t, now)
    ensures Loaded(other, t.hours, StartTimestamp(t, now), (now + 60 * k + seconds) % U32).hours ==
            Ticks(t, k).hours <==>
            now + 60 * k + seconds < U32 || t.minutes + k < 60 || t.hours == Zeros(24)
  {
    hide Sum, Loaded, Ticks, Totalled, ShiftedTimes;
    var start, late := StartTimestamp(t, now), now + 60 * k + seconds;
    WholeMinutes(t.minutes, k, seconds);
    LoadExact(t, now, k, seconds, other);
    assert |t.hours| == 24 by { TrackedDay(t); }
    LoadedShift(t, start, late % U32, other);
    if late < U32 {
      assert late % U32 == late;
    } else {
      assert late % U32 == late - U32;
      ShiftedSame(t, 0);
    }
  }

  lemma WholeMinutes(m: nat, k: nat, seconds: nat)
    requires seconds < 60
    ensures (60 * k + seconds + m * 60) / 60 == m + k
  {
  }

  // ----- numbers as text -----

  function Digit(d: nat): char
    requires d < 10
  {
    ('0' as int + d) as char
  }

  function Print(n: nat): (s: string)
    ensures s != "" && forall c :: c in s ==> IsDigit(c)
  {
    if n < 10 then [Digit(n)] else Print(n / 10) + [Digit(n % 10)]
  }

  /** The value of a text of digits. */
  function DigitsValue(s: string): nat
    requires forall c :: c in s ==> IsDigit(c)
  {
    if s == "" then 0
    else
      assert s[|s| - 1] in s;
      assert IsDigit(s[|s| - 1]);
      DigitsValue(s[..|s| - 1]) * 10 + (s[|s| - 1] as int - '0' as int)
  }

  function NotDigit(): char -> bool {
    (c: char) => !IsDigit(c)
  }

  /** Reads the digits that the text begins with. */
  function Parse(s: string): Option<nat> {
    var k := First(s, NotDigit());
    assert forall c :: c in s[..k] ==> IsDigit(c);
    if k == 0 then None else Some(DigitsValue(s[..k]))
  }

  lemma {:induction false} PrintedValue(n: nat)
    ensures DigitsValue(Print(n)) == n
  {
    if n >= 10 {
      PrintedValue(n / 10);
      assert Print(n)[..|Print(n)| - 1] == Print(n / 10);
    }
  }

  lemma DigitsAt(s: string)
    requires forall c :: c in s ==> IsDigit(c)
    ensures forall i :: 0 <= i < |s| ==> IsDigit(s[i])
  {
  }

  lemma PrintParse(n: nat)
    ensures Parse(Print(n)) == Some(n)
  {
    PrintedValue(n);
    var s := Print(n);
    DigitsAt(s);
    assert s[..|s|] == s;
  }

  // ----- hours as text -----

  function Is(c: char): char -> bool {
    (d: char) => d == c
  }

  function Joined(hours: seq<nat>): string
    requires hours != []
  {
    if |hours| == 1 then Print(hours[0]) else Print(hours[0]) + "," + Joined(hours[1..])
  }

  function HoursText(timestamp: nat, hours: seq<nat>): string
    requires hours != []
  {
    Print(timestamp) + ";" + Joined(hours)
  }

  function Fields(s: string): (r: seq<string>)
    ensures r != []
    decreases |s|
  {
    var k := First(s, Is(','));
    if k == |s| then [s] else [s[..k]] + Fields(s[k + 1..])
  }

  lemma DigitsFirst(s: string, c: char, rest: string)
    requires !IsDigit(c) && forall d :: d in s ==> IsDigit(d)
    ensures First(s + [c] + rest, Is(c)) == |s|
    ensures First(s, Is(c)) == |s|
  {
    DigitsAt(s);
    var t := s + [c] + rest;
    assert t[|s|] == c && forall i :: 0 <= i < |s| ==> t[i] == s[i];
  }

  lemma FieldsFront(p: string, rest: string)
    requires forall c :: c in p ==> IsDigit(c)
    ensures Fields(p + "," + rest) == [p] + Fields(rest)
    ensures Fields(p) == [p]
  {
    hide First;
    var s := p + "," + rest;
    DigitsFirst(p, ',', rest);
    assert s[..|p|] == p && s[|p| + 1..] == rest;
  }

  /** The fields of the text are the numbers that were written. */
  lemma {:induction false} JoinedFields(hours: seq<nat>)
    requires hours != []
    ensures |Fields(Joined(hours))| == |hours|
    ensures forall i :: 0 <= i < |hours| ==> Fields(Joined(hours))[i] == Print(hours[i])
  {
    hide Fields, Print;
    if |hours| == 1 {
      FieldsFront(Print(hours[0]), "");
    } else {
      FieldsFront(Print(hours[0]), Joined(hours[1..]));
      JoinedFields(hours[1..]);
    }
  }

  /** The fields after the semicolon, or of the whole text if there is none. */
  function FieldsOf(s: string): seq<string> {
    var k := First(s, Is(';'));
    Fields(s[if k < |s| then k + 1 else 0..])
  }

  /** What text stands for: a time stamp and numbers, or nothing if some number is missing. */
  ghost predicate Means(s: string, timestamp: nat, hours: seq<nat>) {
    var fields := FieldsOf(s);
    && Parse(s[..First(s, Is(';'))]) == Some(timestamp)
    && |fields| == |hours|
    && forall i :: 0 <= i < |hours| ==> Parse(fields[i]) == Some(hours[i])
  }

  /** Writing and reading undo each other. */
  lemma TextMeans(timestamp: nat, hours: seq<nat>)
    requires hours != []
    ensures Means(HoursText(timestamp, hours), timestamp, hours)
    ensures forall ts, hs :: Means(HoursText(timestamp, hours), ts, hs) ==> ts == timestamp && hs == hours
  {
    hide First, Parse, Fields;
    var s := HoursText(timestamp, hours);
    var p := Print(timestamp);
    DigitsFirst(p, ';', Joined(hours));
    assert s[..|p|] == p && s[|p| + 1..] == Joined(hours);
    PrintParse(timestamp);
    JoinedFields(hours);
    forall i | 0 <= i < |hours|
      ensures Parse(Fields(Joined(hours))[i]) == Some(hours[i])
    {
      PrintParse(hours[i]);
    }
  }

  lemma TextExample()
    ensures HoursText(60, [7, 15]) == "60;7,15"
  {
    assert Print(60) == Print(6) + [Digit(0)] && Print(15) == Print(1) + [Digit(5)];
    assert Print(6) == [Digit(6)] && Print(1) == [Digit(1)] && Print(7) == [Digit(7)];
    assert [7, 15][1..] == [15];
  }

  /** The numbers, each with a comma after it. */
  function Terminated(hours: seq<nat>): string {
    if hours == [] then "" else Terminated(hours[..|hours| - 1]) + Print(hours[|hours| - 1]) + ","
  }

  lemma {:induction false} TerminatedFront(h: nat, hours: seq<nat>)
    ensures Terminated([h] + hours) == Print(h) + "," + Terminated(hours)
  {
    hide Print;
    if hours == [] {
      assert [h] + hours == [h] && [h][..0] == [];
      assert Terminated([h]) == "" + Print(h) + ",";
    } else {
      var init := hours[..|hours| - 1];
      assert ([h] + hours)[..|hours|] == [h] + init;
      TerminatedFront(h, init);
      var a, b, c := Print(h) + ",", Terminated(init), Print(hours[|hours| - 1]) + ",";
      assert (a + b) + c == a + (b + c);
      assert Terminated([h] + hours) == Terminated([h] + init) + Print(hours[|hours| - 1]) + ",";
      assert Terminated(hours) == b + Print(hours[|hours| - 1]) + ",";
    }
  }

  lemma {:induction false} TerminatedJoined(hours: seq<nat>)
    requires hours != []
    ensures Terminated(hours) == Joined(hours) + ","
  {
    hide Print;
    TerminatedFront(hours[0], hours[1..]);
    assert [hours[0]] + hours[1..] == hours;
    if |hours| > 1 {
      TerminatedJoined(hours[1..]);
    } else {
      assert hours[1..] == [];
    }
  }

  class HourlyAllTracking {
    var t: Tracker

    ghost predicate Valid()
      reads this
    {
      Totalled(t) && t.minutes < 60
    }

    constructor ()
      ensures Valid() && t == Tracker(Zeros(24), 0, 0, 0)
    {
      t := Tracker(Zeros(24), 0, 0, 0);
      new;
      ZerosTotal(24);
    }

    method Add(value: nat)
      requires Valid()
      modifies this
      ensures Valid()
      ensures t == old(t).(hours := old(t).hours[0 := old(t).hours[0] + value],
                           last24hours := old(t).last24hours + value, all := old(t).all + value)
    {
      AddedTotal(t, value);
      t := t.(hours := t.hours[0 := t.hours[0] + value]);
      t := t.(last24hours := t.last24hours + value);
      t := t.(all := t.all + value);
    }

    method CheckRotate()
      requires |t.hours| == 24
      modifies this
      ensures t == Rotated(old(t))
    {
      if t.minutes >= 24 * 60 {
        t := ResetHours(t);
      }
      ghost var was := t;
      ghost var n: nat := 0;
      while t.minutes >= 60
        invariant 60 * n + t.minutes == was.minutes && t == ShiftedTimes(was, n).(minutes := t.minutes)
        decreases t.minutes
      {
        t := t.(minutes := t.minutes - 60);
        t := t.(last24hours := t.last24hours - t.hours[23]);
        ShiftHours();
        t := t.(hours := t.hours[0 := 0]);
        n := n + 1;
      }
      assert n == was.minutes / 60 && t.minutes == was.minutes % 60;
    }

    /** Moves every hour one place up, from the top down. */
    method ShiftHours()
      requires |t.hours| == 24
      modifies this
      ensures t == old(t).(hours := [old(t).hours[0]] + old(t).hours[..23])
    {
      for i := 23 downto 0
        invariant t == old(t).(hours := old(t).hours[..i + 1] + old(t).hours[i..23])
      {
        t := t.(hours := t.hours[i + 1 := t.hours[i]]);
      }
    }

    method TickMinute()
      requires Valid()
      modifies this
      ensures Valid() && t == TickedMinute(old(t))
    {
      MoreMinutes(t);
      t := t.(minutes := t.minutes + 1);
      CheckRotate();
    }

    static lemma MoreMinutes(t: Tracker)
      requires Totalled(t)
      ensures Totalled(TickedMinute(t)) && TickedMinute(t).minutes < 60
    {
      RotatedTotal(t.(minutes := t.minutes + 1));
    }

    /** Takes over saved hours, and catches up with the time since then. The clock is cut to
        32 bits. */
    method SetHours(hours: seq<nat>, timestamp: nat, clock: nat)
      requires |hours| == 24
      modifies this
      ensures Valid() && t == Loaded(old(t), hours, timestamp, clock % U32)
    {
      hide Sum;
      var now := clock % U32;
      t := ResetHours(t);
      t := t.(hours := hours);
      SumStart();
      for i := 0 to |hours|
        invariant t == old(t).(hours := hours, last24hours := Sum(hours[..i], Value()), minutes := 0)
      {
        SumAppend(hours[..i], hours[i], Value());
        assert hours[..i + 1] == hours[..i] + [hours[i]];
        t := t.(last24hours := t.last24hours + hours[i]);
      }
      assert hours[..|hours|] == hours;
      if now <= timestamp {
        return;
      }
      RotatedTotal(t.(minutes := (now - timestamp) / 60));
      t := t.(minutes := (now - timestamp) / 60);
      CheckRotate();
    }

    static lemma SumStart()
      ensures forall hours: seq<nat> :: Sum(hours[..0], Value()) == 0
    {
    }

    /** The hours as they are saved. */
    method HoursToString(now: nat) returns (out: string)
      requires Valid() && 60 * t.minutes <= now < U32
      ensures out == HoursText(StartTimestamp(t, now), t.hours)
    {
      hide Print, Joined;
      var timestamp := (now - t.minutes * 60) % U32;
      out := Print(timestamp) + ";";
      assert t.hours[..0] == [];
      for i := 0 to |t.hours|
        invariant out == Print(timestamp) + ";" + Terminated(t.hours[..i])
      {
        assert t.hours[..i + 1][..i] == t.hours[..i];
        out := out + (Print(t.hours[i]) + ",");
      }
      assert t.hours[..|t.hours|] == t.hours;
      TerminatedJoined(t.hours);
      assert out == Print(timestamp) + ";" + Joined(t.hours) + ",";
      out := out[..|out| - 1];
    }

    /** Reads saved hours. Fails where a number is missing. */
    static method ParseHours(text: string) returns (r: Option<(nat, seq<nat>)>)
      ensures r.Some? ==> Means(text, r.value.0, r.value.1)
      ensures r.None? ==> forall ts, hs :: !Means(text, ts, hs)
    {
      hide First, Parse, Fields;
      var split := First(text, Is(';'));
      var timestamp := Parse(text[..split]);
      if timestamp.None? {
        return None;
      }
      var fields := FieldsOf(text);
      var hours := [];
      for i := 0 to |fields|
        invariant |hours| == i && forall k :: 0 <= k < i ==> Parse(fields[k]) == Some(hours[k])
      {
        var hour := Parse(fields[i]);
        if hour.None? {
          NoMeaning(text, i);
          return None;
        }
        hours := hours + [hour.value];
      }
      return Some((timestamp.value, hours));
    }

    static lemma NoMeaning(text: string, i: nat)
      requires i < |FieldsOf(text)| && Parse(FieldsOf(text)[i]).None?
      ensures forall ts, hs :: !Means(text, ts, hs)
    {
      hide First, Parse, FieldsOf;
      forall ts, hs
        ensures !Means(text, ts, hs)
      {
        if Means(text, ts, hs) {
          MeansAll(text, ts, hs);
        }
      }
    }

    static lemma MeansAll(text: string, timestamp: nat, hours: seq<nat>)
      requires Means(text, timestamp, hours)
      ensures forall i :: 0 <= i < |FieldsOf(text)| ==> Parse(FieldsOf(text)[i]).Some?
    {
      hide First, Parse, FieldsOf;
    }

    static lemma CutStamp(timestamp: int)
      requires 0 <= timestamp < U32
      ensures timestamp % U32 == timestamp
    {
    }

    /** Saves, and loads again k minutes later into a tracker that starts out empty. The
        hours are those of k ticks if and only if cutting the clock loses no hour, or there
        is nothing left to load. */
    method Reload(now: nat, k: nat, seconds: nat) returns (loaded: HourlyAllTracking)
      requires Valid() && 60 * t.minutes <= now < U32 && seconds < 60
      ensures loaded.Valid() && fresh(loaded)
      ensures loaded.t.hours == Ticks(t, k).hours <==>
                HoursSince(StartTimestamp(t, now), (now + 60 * k + seconds) % U32) == (t.minutes + k) / 60 ||
                loaded.t.hours == Zeros(24)
      ensures loaded.t.hours == Ticks(t, k).hours ==> loaded.t.last24hours == Ticks(t, k).last24hours
      ensures now + 60 * k + seconds < U32 ==> loaded.t.hours == Ticks(t, k).hours
    {
      hide Means, HoursText, Ticks, Loaded, Rotated, HoursSince, Totalled;
      TrackedDay(t);
      var text := HoursToString(now);
      TextMeans(StartTimestamp(t, now), t.hours);
      var parsed := ParseHours(text);
      assert parsed.Some? && parsed.value.0 == StartTimestamp(t, now) && parsed.value.1 == t.hours;
      loaded := new HourlyAllTracking();
      ghost var other := loaded.t;
      CutStamp(StartTimestamp(t, now));
      loaded.SetHours(parsed.value.1, parsed.value.0 % U32, now + 60 * k + seconds);
      LoadExact(t, now, k, seconds, other);
      TicksTotal(t, k);
      SameTotal(loaded.t, Ticks(t, k));
      if now + 60 * k + seconds < U32 {
        LoadIsTicks(t, now, k, seconds, other);
      }
    }

    static lemma TicksTotal(t: Tracker, k: nat)
      requires Totalled(t) && t.minutes < 60
      ensures Totalled(Ticks(t, k))
    {
      TicksShift(t, k);
      ShiftedTimesTotal(t, (t.minutes + k) / 60);
    }

    static lemma SameTotal(a: Tracker, b: Tracker)
      requires Totalled(a) && Totalled(b)
      ensures a.hours == b.hours ==> a.last24hours == b.last24hours
    {
    }
  }
}
