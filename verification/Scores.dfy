/** How the engine scores a possible transfer. Scores are unsigned 16 bit numbers. */
module Scores {
  import opened Base
  import opened ScoreBoardElements

  const MAX_POINTS_FILE_SIZE: nat := 2000
  const MAX_POINTS_AVG_SPEED: nat := 3000
  const MAX_POINTS_PRIORITY: nat := 2500
  const MAX_POINTS_PERCENTAGE_OWNED: nat := 2000
  const MAX_POINTS_LOW_PROGRESS: nat := 2000
  const MAX_POINTS_RACE_TOTAL: nat := 9500
  const TOP_SCORE: nat := 65535
  const NFO_PRIO_AFTER_SEC: nat := 15

  datatype SitePriority = VERY_LOW | LOW | MEDIUM | HIGH | VERY_HIGH

  /** The things a score depends on besides the kind of file. */
  datatype Factors = Factors(
    timespent: nat,
    filesize: nat,
    maxfilesize: nat,
    avgspeed: int,
    maxavgspeed: int,
    racemode: bool,
    priority: SitePriority,
    ownedpercentage: int,
    uploadedfiles: int,
    maxprogress: nat)

  function U16(x: int): (r: nat)
    ensures r < USHORT_MAX
  {
    x % USHORT_MAX
  }

  /** A product of an unsigned 64 bit number with an int that is converted first. */
  function Scaled(points: nat, factor: int, divisor: nat): nat
    requires divisor > 0
  {
    ((points * (factor % U64)) % U64) / divisor
  }

  function FileSizePoints(f: Factors): nat {
    var maxsize := if f.filesize > f.maxfilesize then f.filesize else f.maxfilesize;
    if maxsize == 0 then 0 else Scaled(MAX_POINTS_FILE_SIZE, f.filesize, maxsize)
  }

  function SpeedPoints(avgspeed: int, maxavgspeed: int): nat
    requires maxavgspeed >= 0
  {
    if maxavgspeed == 0 then 0 else Scaled(MAX_POINTS_AVG_SPEED, avgspeed, maxavgspeed)
  }

  function PriorityPoints(p: SitePriority): nat {
    match p
    case VERY_LOW => 0
    case LOW => 500
    case MEDIUM => 1000
    case HIGH => 1500
    case VERY_HIGH => MAX_POINTS_PRIORITY
  }

  function OwnershipPoints(f: Factors): nat {
    if f.priority == VERY_HIGH then MAX_POINTS_PERCENTAGE_OWNED
    else Scaled(MAX_POINTS_PERCENTAGE_OWNED, 100 - f.ownedpercentage, 100)
  }

  function ProgressPoints(f: Factors): nat {
    if f.priority == VERY_HIGH then MAX_POINTS_LOW_PROGRESS
    else if f.maxprogress == 0 then 0
    else Scaled(MAX_POINTS_LOW_PROGRESS, f.uploadedfiles, f.maxprogress)
  }

  function CalculateScore(prio: PrioType, f: Factors): (score: nat)
    requires f.maxavgspeed >= 0
    ensures score < USHORT_MAX
  {
    if prio == PRIO || (prio == PRIO_LATER && f.timespent > NFO_PRIO_AFTER_SEC) then TOP_SCORE
    else
      var avgspeed := if f.avgspeed > f.maxavgspeed then f.maxavgspeed else f.avgspeed;
      var p1 := U16(FileSizePoints(f));
      var p2 := U16(p1 + SpeedPoints(avgspeed, f.maxavgspeed));
      var p3 := U16(p2 + if f.racemode then OwnershipPoints(f) else ProgressPoints(f));
      U16(p3 + PriorityPoints(f.priority))
  }

  // ----- bounds -----

  /** A factor between zero and the divisor never yields more than the full points,
      even when the product wraps around 64 bits. */
  lemma ScaledAtMost(points: nat, factor: int, divisor: nat)
    requires 0 <= factor <= divisor && divisor > 0
    ensures Scaled(points, factor, divisor) <= points
  {
    var f := factor % U64;
    var product := points * f;
    TimesMonotone(f, divisor, points);
    assert product % U64 <= product <= points * divisor;
    DivAtMost(product % U64, divisor, points);
  }

  /** What the callers see to: the share of own files is a percentage, speeds are not
      negative, and no list is ahead of the best progress of its race. */
  predicate Sane(f: Factors) {
    && 0 <= f.avgspeed && 1024 <= f.maxavgspeed
    && (f.racemode ==> 0 <= f.ownedpercentage <= 100)
    && (!f.racemode ==> 0 <= f.uploadedfiles <= f.maxprogress || f.maxprogress == 0)
  }

  /** A sum that fits into 16 bits is not changed. */
  lemma Fits(x: nat)
    requires x < USHORT_MAX
    ensures U16(x) == x
  {
  }

  lemma SpeedAtMost(avgspeed: int, maxavgspeed: int)
    requires 0 <= avgspeed <= maxavgspeed
    ensures SpeedPoints(avgspeed, maxavgspeed) <= MAX_POINTS_AVG_SPEED
  {
    hide Scaled;
    if maxavgspeed > 0 {
      ScaledAtMost(MAX_POINTS_AVG_SPEED, avgspeed, maxavgspeed);
    }
  }

  lemma PointsAtMost(f: Factors)
    requires Sane(f)
    ensures FileSizePoints(f) <= MAX_POINTS_FILE_SIZE
    ensures f.racemode ==> OwnershipPoints(f) <= MAX_POINTS_PERCENTAGE_OWNED
    ensures !f.racemode ==> ProgressPoints(f) <= MAX_POINTS_LOW_PROGRESS
    ensures PriorityPoints(f.priority) <= MAX_POINTS_PRIORITY
  {
    hide Scaled;
    var maxsize := if f.filesize > f.maxfilesize then f.filesize else f.maxfilesize;
    if maxsize > 0 {
      ScaledAtMost(MAX_POINTS_FILE_SIZE, f.filesize, maxsize);
    }
    if f.racemode {
      ScaledAtMost(MAX_POINTS_PERCENTAGE_OWNED, 100 - f.ownedpercentage, 100);
    } else if f.maxprogress > 0 {
      ScaledAtMost(MAX_POINTS_LOW_PROGRESS, f.uploadedfiles, f.maxprogress);
    }
  }

  /** A file without priority never scores above the sum of the maximum points, so no
      addition wraps around 16 bits. */
  lemma ScoreBound(prio: PrioType, f: Factors)
    requires Sane(f)
    requires prio == NORMAL || (prio == PRIO_LATER && f.timespent <= NFO_PRIO_AFTER_SEC)
    ensures CalculateScore(prio, f) <= MAX_POINTS_RACE_TOTAL < TOP_SCORE
    ensures var avgspeed := if f.avgspeed > f.maxavgspeed then f.maxavgspeed else f.avgspeed;
            CalculateScore(prio, f) ==
            FileSizePoints(f) + SpeedPoints(avgspeed, f.maxavgspeed) +
            (if f.racemode then OwnershipPoints(f) else ProgressPoints(f)) + PriorityPoints(f.priority)
  {
    hide FileSizePoints, SpeedPoints, OwnershipPoints, ProgressPoints, PriorityPoints, U16;
    var avgspeed := if f.avgspeed > f.maxavgspeed then f.maxavgspeed else f.avgspeed;
    SpeedAtMost(avgspeed, f.maxavgspeed);
    PointsAtMost(f);
    var p1, p2 := FileSizePoints(f), SpeedPoints(avgspeed, f.maxavgspeed);
    var p3, p4 := if f.racemode then OwnershipPoints(f) else ProgressPoints(f), PriorityPoints(f.priority);
    Fits(p1);
    Fits(p1 + p2);
    Fits(p1 + p2 + p3);
    Fits(p1 + p2 + p3 + p4);
  }

  /** A file of one byte for a site of the highest priority, over a slow and a fast line. */
  lemma SlowAndFast(f: Factors)
    requires f.filesize == 1 && f.maxfilesize == 0 && f.maxavgspeed == 1024 && f.racemode && f.priority == VERY_HIGH
    ensures CalculateScore(NORMAL, f.(avgspeed := 0)) == 6500 && CalculateScore(NORMAL, f.(avgspeed := 1024)) == 9500
  {
    hide FileSizePoints, SpeedPoints, U16;
    assert FileSizePoints(f) == 2000 && SpeedPoints(0, 1024) == 0 && SpeedPoints(1024, 1024) == 3000 by { OneByte(f); }
    assert U16(2000) == 2000 && U16(5000) == 5000 && U16(4000) == 4000 && U16(7000) == 7000 && U16(6500) == 6500 &&
           U16(9500) == 9500 by { SmallSums(); }
    assert FileSizePoints(f.(avgspeed := 0)) == 2000 && FileSizePoints(f.(avgspeed := 1024)) == 2000 by {
      OneByte(f.(avgspeed := 0));
      OneByte(f.(avgspeed := 1024));
    }
  }

  lemma OneByte(f: Factors)
    requires f.filesize == 1 && f.maxfilesize == 0
    ensures FileSizePoints(f) == 2000 && SpeedPoints(0, 1024) == 0 && SpeedPoints(1024, 1024) == 3000
  {
  }

  lemma SmallSums()
    ensures forall x: nat :: x < USHORT_MAX ==> U16(x) == x
  {
  }

  // ----- what a score means -----

  function Level(p: SitePriority): nat {
    match p
    case VERY_LOW => 0
    case LOW => 1
    case MEDIUM => 2
    case HIGH => 3
    case VERY_HIGH => 4
  }

  /** Every level is worth a fifth of the points, and the last one two. */
  lemma PrioritySteps(p: SitePriority)
    ensures PriorityPoints(p) == MAX_POINTS_PRIORITY * (if Level(p) == 4 then 5 else Level(p)) / 5
  {
  }

  lemma PriorityOrder(p: SitePriority, q: SitePriority)
    ensures PriorityPoints(p) < PriorityPoints(q) <==> Level(p) < Level(q)
  {
  }

  lemma DivMonotone(a: nat, b: nat, c: nat, d: nat)
    requires a <= b && 0 < d <= c
    ensures a / c <= b / d
  {
    var q := a / c;
    assert a == q * c + a % c;
    TimesMonotone(d, c, q);
    assert q * d <= b;
    DivExact(b, d, q);
    if b / d < q {
      DivExact(b, d, q - 1);
    }
  }

  /** More of what is counted, out of less, never yields fewer points. */
  lemma ScaledMonotone(points: nat, a: nat, b: nat, c: nat, d: nat)
    requires 0 < points && a <= b && points * b < U64 && 0 < d <= c
    ensures Scaled(points, a, c) <= Scaled(points, b, d)
  {
    TimesMonotone(a, b, points);
    TimesMonotone(1, points, b);
    assert b % U64 == b && a % U64 == a;
    assert (points * a) % U64 == points * a && (points * b) % U64 == points * b;
    DivMonotone(points * a, points * b, c, d);
  }

  lemma WholeScaled(points: nat, x: nat)
    requires 0 < points && 0 < x && points * x < U64
    ensures Scaled(points, x, x) == points
  {
    TimesMonotone(1, points, x);
    assert x % U64 == x && (points * x) % U64 == points * x;
    DivExact(points * x, x, points);
    DivExact(points * x, x, points - 1);
  }

  /** g is as good as f in everything that a score depends on: no smaller file, no larger file
      at the source, no slower line, no lower priority, no larger share of own files at the
      destination, and no less of the progress there. */
  predicate AsGood(f: Factors, g: Factors) {
    && f.filesize <= g.filesize && g.maxfilesize <= f.maxfilesize && f.avgspeed <= g.avgspeed
    && Level(f.priority) <= Level(g.priority) && g.ownedpercentage <= f.ownedpercentage
    && f.uploadedfiles <= g.uploadedfiles
    && g.maxavgspeed == f.maxavgspeed && g.racemode == f.racemode && g.maxprogress == f.maxprogress
  }

  /** No product wraps around 64 bits. */
  predicate Small(f: Factors) {
    2000 * f.filesize < U64 && 3000 * f.maxavgspeed < U64 && 2000 * f.uploadedfiles < U64
  }

  lemma BetterSize(f: Factors, g: Factors)
    requires AsGood(f, g) && Small(g)
    ensures FileSizePoints(f) <= FileSizePoints(g)
  {
    hide Scaled;
    var a := if f.filesize > f.maxfilesize then f.filesize else f.maxfilesize;
    var b := if g.filesize > g.maxfilesize then g.filesize else g.maxfilesize;
    if a > 0 && b > 0 {
      if b == g.filesize {
        WholeScaled(MAX_POINTS_FILE_SIZE, b);
        ScaledAtMost(MAX_POINTS_FILE_SIZE, f.filesize, a);
      } else {
        ScaledMonotone(MAX_POINTS_FILE_SIZE, f.filesize, g.filesize, a, b);
      }
    } else if a > 0 {
      ScaledNothing(MAX_POINTS_FILE_SIZE, a);
    }
  }

  /** The largest file has the full points for its size if and only if the product stays below
      64 bits. */
  lemma FullSizeExact(f: Factors)
    requires 0 < f.filesize && f.maxfilesize <= f.filesize < U64
    ensures FileSizePoints(f) == MAX_POINTS_FILE_SIZE <==> MAX_POINTS_FILE_SIZE * f.filesize < U64
  {
    hide Scaled;
    if MAX_POINTS_FILE_SIZE * f.filesize < U64 {
      WholeScaled(MAX_POINTS_FILE_SIZE, f.filesize);
    } else {
      WrappedScaled(MAX_POINTS_FILE_SIZE, f.filesize);
    }
  }

  lemma WrappedScaled(points: nat, x: nat)
    requires 0 < points && 0 < x < U64 <= points * x
    ensures Scaled(points, x, x) < points
  {
    var r := (points * x) % U64;
    assert r < points * x;
    assert x % U64 == x;
    DivExact(r, x, points - 1);
  }

  /** A file of somewhat more than nine petabytes has no points for its size, and a smaller one
      has all. */
  lemma HugeFileScoresNothing()
    ensures var f := Factors(0, 9223372036854776, 0, 0, 1024, true, LOW, 0, 0, 0);
            FileSizePoints(f) == 0 && FileSizePoints(f.(filesize := 1)) == 2000
  {
    assert 2000 * 9223372036854776 == U64 + 384;
  }

  lemma ScaledNothing(points: nat, divisor: nat)
    requires divisor > 0
    ensures Scaled(points, 0, divisor) == 0
  {
  }

  lemma BetterSpeed(a: int, b: int, maxavgspeed: int)
    requires 0 <= a <= b <= maxavgspeed && 3000 * maxavgspeed < U64
    ensures SpeedPoints(a, maxavgspeed) <= SpeedPoints(b, maxavgspeed)
  {
    hide Scaled;
    if maxavgspeed > 0 {
      ScaledMonotone(MAX_POINTS_AVG_SPEED, a, b, maxavgspeed, maxavgspeed);
    }
  }

  lemma BetterDestination(f: Factors, g: Factors)
    requires AsGood(f, g) && Small(g) && Sane(f) && Sane(g)
    ensures f.racemode ==> OwnershipPoints(f) <= OwnershipPoints(g)
    ensures !f.racemode ==> ProgressPoints(f) <= ProgressPoints(g)
  {
    hide Scaled;
    PointsAtMost(f);
    if g.priority != VERY_HIGH {
      if f.racemode {
        ScaledMonotone(MAX_POINTS_PERCENTAGE_OWNED, 100 - f.ownedpercentage, 100 - g.ownedpercentage, 100, 100);
      } else if f.maxprogress > 0 {
        ScaledMonotone(MAX_POINTS_LOW_PROGRESS, f.uploadedfiles, g.uploadedfiles, f.maxprogress, g.maxprogress);
      }
    }
  }

  /** A transfer that is as good in everything never scores less, and one to a site of higher
      priority scores more. */
  lemma BetterScores(f: Factors, g: Factors)
    requires AsGood(f, g) && Small(g) && Sane(f) && Sane(g)
    ensures CalculateScore(NORMAL, f) <= CalculateScore(NORMAL, g)
    ensures Level(f.priority) < Level(g.priority) ==> CalculateScore(NORMAL, f) < CalculateScore(NORMAL, g)
  {
    hide CalculateScore, FileSizePoints, SpeedPoints, OwnershipPoints, ProgressPoints, PriorityPoints, Small;
    ScoreBound(NORMAL, f);
    ScoreBound(NORMAL, g);
    BetterSize(f, g);
    assert 3000 * g.maxavgspeed < U64 by { SmallSpeed(g); }
    BetterSpeed(if f.avgspeed > f.maxavgspeed then f.maxavgspeed else f.avgspeed,
                if g.avgspeed > g.maxavgspeed then g.maxavgspeed else g.avgspeed, g.maxavgspeed);
    BetterDestination(f, g);
    PriorityOrder(f.priority, g.priority);
    PriorityOrder(g.priority, f.priority);
  }

  lemma SmallSpeed(f: Factors)
    requires Small(f)
    ensures 3000 * f.maxavgspeed < U64
  {
  }

  // ----- readings out of range -----

  predicate IsInt32(x: int) {
    -(U32 as int) / 2 <= x < U32 / 2
  }

  lemma DivExact(a: nat, b: nat, k: nat)
    requires b > 0
    ensures a / b <= k <==> a < (k + 1) * b
  {
    var q := a / b;
    assert a == q * b + a % b;
    if q > k {
      TimesMonotone(k + 1, q, b);
    } else {
      TimesMonotone(q, k, b);
    }
  }

  /** A factor that is negative, or too large, yields more than the full points. */
  lemma ScaledExact(points: nat, factor: int, divisor: nat)
    requires 0 < points <= 2000 && IsInt32(factor) && 0 < divisor < U32
    ensures Scaled(points, factor, divisor) <= points <==> 0 <= factor && points * factor < (points + 1) * divisor
  {
    DivExact((points * (factor % U64)) % U64, divisor, points);
    if factor < 0 {
      NegativeProduct(points, factor);
      SmallProduct(points + 1, divisor);
    } else {
      assert factor % U64 == factor;
      SmallProduct(points, factor);
      assert (points * factor) % U64 == points * factor;
    }
  }

  lemma SmallProduct(points: nat, factor: nat)
    requires points <= 2001 && factor < U32
    ensures points * factor <= 2001 * U32
  {
    TimesMonotone(points, 2001, factor);
  }

  /** The product with a converted negative number is short of a multiple of 64 bits. */
  lemma NegativeProduct(points: nat, factor: int)
    requires 0 < points <= 2000 && IsInt32(factor) && factor < 0
    ensures (points * (factor % U64)) % U64 >= U64 - 2000 * U32
  {
    var d := -factor;
    NegativeWraps(factor);
    SmallProduct(points, d);
    TimesMonotone(1, points, d);
    var r := points * d;
    Spread(points, d);
    TimesAtMost(points, d);
    ModShift(U64 - r, points - 1);
  }

  lemma NegativeWraps(factor: int)
    requires 0 < -factor <= U32
    ensures factor % U64 == U64 + factor
  {
  }

  lemma Spread(points: nat, d: nat)
    requires points > 0
    ensures points * (U64 - d) == U64 - points * d + (points - 1) * U64
  {
  }

  lemma TimesAtMost(points: nat, d: nat)
    requires points <= 2000 && d <= U32
    ensures points * d <= 2000 * U32
  {
    TimesMonotone(points, 2000, d);
  }

  lemma ModShift(x: nat, k: nat)
    requires x < U64
    ensures (x + k * U64) % U64 == x
  {
    var q := (x + k * U64) / U64;
    assert x + k * U64 == q * U64 + (x + k * U64) % U64;
  }

  /** Own files count for at most the full points if and only if their share is a
      percentage. */
  lemma OwnershipExact(f: Factors)
    requires f.priority != VERY_HIGH && IsInt32(f.ownedpercentage) && IsInt32(100 - f.ownedpercentage)
    ensures OwnershipPoints(f) <= MAX_POINTS_PERCENTAGE_OWNED <==> 0 <= f.ownedpercentage <= 100
  {
    hide Scaled;
    ScaledExact(MAX_POINTS_PERCENTAGE_OWNED, 100 - f.ownedpercentage, 100);
  }

  /** Progress counts for at most the full points if and only if the list is not ahead of
      the best progress by more than one part in 2000. */
  lemma ProgressExact(f: Factors)
    requires f.priority != VERY_HIGH && IsInt32(f.uploadedfiles) && 0 < f.maxprogress < U32
    ensures ProgressPoints(f) <= MAX_POINTS_LOW_PROGRESS <==>
            0 <= f.uploadedfiles && 2000 * (f.uploadedfiles - f.maxprogress) < f.maxprogress
  {
    hide Scaled;
    ScaledExact(MAX_POINTS_LOW_PROGRESS, f.uploadedfiles, f.maxprogress);
  }

  /** A share of own files of 200 makes the difference to 100 negative, and the conversion
      to unsigned turns it into a score far above the maximum. */
  lemma OvershareBreaksBound()
    ensures var f := Factors(0, 1, 1, 0, 1024, true, VERY_LOW, 200, 0, 0);
            CalculateScore(NORMAL, f) == 36700 > MAX_POINTS_RACE_TOTAL
  {
    hide FileSizePoints, SpeedPoints, OwnershipPoints, U16;
    var f := Factors(0, 1, 1, 0, 1024, true, VERY_LOW, 200, 0, 0);
    ZeroSpeed(f);
    NegativeShare(f);
    assert U16(184467440737095516) == 36700 by { Wraps(); }
    Fits(2000);
    Fits(36700);
  }

  lemma ZeroSpeed(f: Factors)
    requires f.filesize == f.maxfilesize == 1
    ensures FileSizePoints(f) == 2000 && SpeedPoints(0, 1024) == 0
  {
  }

  lemma NegativeShare(f: Factors)
    requires f.ownedpercentage == 200 && f.priority == VERY_LOW
    ensures OwnershipPoints(f) == 184467440737093516
  {
    assert (-100) % U64 == 18446744073709551516;
    assert (2000 * 18446744073709551516) % U64 == 18446744073709351616;
    assert 18446744073709351616 / 100 == 184467440737093516;
  }

  lemma Wraps()
    ensures U16(184467440737095516) == 36700
  {
  }

  /** Outside race mode a list ahead of the recorded best progress has the same effect. */
  lemma ProgressBreaksBound()
    ensures var f := Factors(0, 1, 1, 0, 1024, false, VERY_LOW, 0, 20, 1);
            CalculateScore(NORMAL, f) == 42000 > MAX_POINTS_RACE_TOTAL
  {
    hide FileSizePoints, SpeedPoints, U16;
    var f := Factors(0, 1, 1, 0, 1024, false, VERY_LOW, 0, 20, 1);
    ZeroSpeed(f);
    assert ProgressPoints(f) == 40000;
    Fits(2000);
    Fits(42000);
  }
}
