/** The lists that spread jobs move between, and what holds of them over every run. A job
    is known by its number. */
module JobLists {
  import opened Base

  /** The list without one job. */
  function Minus(s: seq<nat>, id: nat): (r: seq<nat>)
    ensures forall x :: x in r <==> x in s && x != id
    ensures id !in s ==> r == s
  {
    if s == [] then []
    else if s[|s| - 1] == id then Minus(s[..|s| - 1], id)
    else Minus(s[..|s| - 1], id) + [s[|s| - 1]]
  }

  lemma {:induction false} MinusDistinct(s: seq<nat>, id: nat)
    requires Distinct(s)
    ensures Distinct(Minus(s, id))
    ensures |Minus(s, id)| == if id in s then |s| - 1 else |s|
  {
    if s != [] {
      var init := s[..|s| - 1];
      MinusDistinct(init, id);
      assert s[|s| - 1] !in init;
    }
  }

  lemma {:induction false} MinusFirst(s: seq<nat>, k: nat)
    requires Distinct(s) && k < |s|
    ensures Minus(s, s[k]) == s[..k] + s[k + 1..]
  {
    var init := s[..|s| - 1];
    if k == |s| - 1 {
      assert s[k] !in init;
    } else {
      MinusFirst(init, k);
      assert s[k + 1..] == init[k + 1..] + [s[|s| - 1]];
    }
  }

  /** The list without some jobs. */
  function MinusAll(s: seq<nat>, ids: seq<nat>): (r: seq<nat>)
    ensures forall x :: x in r <==> x in s && x !in ids
  {
    if ids == [] then s else Minus(MinusAll(s, ids[..|ids| - 1]), ids[|ids| - 1])
  }

  lemma {:induction false} MinusAllSize(s: seq<nat>, ids: seq<nat>)
    requires Distinct(s) && Distinct(ids) && forall x :: x in ids ==> x in s
    ensures Distinct(MinusAll(s, ids)) && |MinusAll(s, ids)| == |s| - |ids|
  {
    if ids != [] {
      var init := ids[..|ids| - 1];
      MinusAllSize(s, init);
      MinusDistinct(MinusAll(s, init), ids[|ids| - 1]);
      assert ids[|ids| - 1] !in init;
    }
  }

  function Members(s: seq<nat>): set<nat> {
    set x | x in s
  }

  /** The jobs of a list that are among some others, in the order of the list. */
  function Kept(s: seq<nat>, ids: set<nat>): seq<nat> {
    if s == [] then []
    else if s[|s| - 1] in ids then Kept(s[..|s| - 1], ids) + [s[|s| - 1]]
    else Kept(s[..|s| - 1], ids)
  }

  lemma {:induction false} MinusKept(s: seq<nat>, ids: set<nat>, id: nat)
    ensures Minus(Kept(s, ids), id) == Kept(s, ids - {id})
  {
    if s != [] {
      MinusKept(s[..|s| - 1], ids, id);
      var r, last := Kept(s[..|s| - 1], ids), s[|s| - 1];
      assert (r + [last])[..|r|] == r;
    }
  }

  lemma {:induction false} KeptSame(s: seq<nat>, a: set<nat>, b: set<nat>)
    requires forall x :: x in s ==> (x in a <==> x in b)
    ensures Kept(s, a) == Kept(s, b)
  {
    if s != [] {
      KeptSame(s[..|s| - 1], a, b);
    }
  }

  lemma {:induction false} KeptAll(s: seq<nat>)
    ensures Kept(s, Members(s)) == s
  {
    if s != [] {
      KeptAll(s[..|s| - 1]);
      KeptSame(s[..|s| - 1], Members(s[..|s| - 1]), Members(s));
    }
  }

  /** What is left keeps its order. */
  lemma {:induction false} MinusAllKept(s: seq<nat>, ids: seq<nat>)
    ensures MinusAll(s, ids) == Kept(s, Members(s) - Members(ids))
  {
    if ids == [] {
      KeptAll(s);
      assert Members(s) - Members(ids) == Members(s);
    } else {
      var init, last := ids[..|ids| - 1], ids[|ids| - 1];
      MinusAllKept(s, init);
      MinusKept(s, Members(s) - Members(init), last);
      assert Members(s) - Members(init) - {last} == Members(s) - Members(ids);
    }
  }

  // ----- the state -----

  datatype Title = Title(release: string, section: string)

  datatype Jobs = Jobs(
    all: seq<nat>,
    current: seq<nat>,
    finished: seq<nat>,
    done: set<nat>,
    titles: map<nat, Title>,
    nextid: nat,
    maxhistory: int)

  /** Every job is either current or finished, a finished job is done, and numbers are not
      used twice. */
  ghost predicate Partition(j: Jobs) {
    && Distinct(j.all) && Distinct(j.current) && Distinct(j.finished)
    && (forall x :: x in j.all <==> x in j.current || x in j.finished)
    && (forall x :: x in j.current ==> x !in j.finished)
    && (forall x :: x in j.finished ==> x in j.done)
    && (forall x :: x in j.all || x in j.done ==> x < j.nextid)
    && (forall x :: x in j.all ==> x in j.titles)
    && (forall x, y :: x in j.all && y in j.all && x != y ==> j.titles[x] != j.titles[y])
  }

  /** The number of jobs to keep, converted to unsigned. */
  function Limit(maxhistory: int): nat {
    maxhistory % U32
  }

  /** How many finished jobs have to go. */
  function Excess(j: Jobs): (n: nat)
    ensures n <= |j.finished|
  {
    if j.maxhistory == -1 || |j.all| <= Limit(j.maxhistory) then 0
    else if |j.all| - Limit(j.maxhistory) <= |j.finished| then |j.all| - Limit(j.maxhistory)
    else |j.finished|
  }

  /** The jobs that finished first go first. */
  function Rotated(j: Jobs): Jobs {
    var n := Excess(j);
    j.(finished := j.finished[n..], all := MinusAll(j.all, j.finished[..n]))
  }

  predicate Bounded(j: Jobs) {
    j.maxhistory != -1 ==> |j.all| <= (if Limit(j.maxhistory) > |j.current| then Limit(j.maxhistory) else |j.current|)
  }

  // ----- steps -----

  /** A number is given out and not used, or used for something else. */
  function Skipped(j: Jobs): Jobs {
    j.(nextid := j.nextid + 1)
  }

  predicate IsNew(j: Jobs, t: Title) {
    forall x :: x in j.all && x in j.titles ==> j.titles[x] != t
  }

  function Started(j: Jobs, t: Title): Jobs {
    Rotated(j.(all := j.all + [j.nextid], current := j.current + [j.nextid],
               titles := j.titles[j.nextid := t], nextid := j.nextid + 1))
  }

  /** A job that is not current any more becomes current again. */
  function Reactivated(j: Jobs, id: nat): Jobs {
    j.(done := j.done - {id},
       current := if id in j.current then j.current else j.current + [id],
       finished := if id in j.current then j.finished else Minus(j.finished, id))
  }

  function MovedToFinished(j: Jobs, id: nat): Jobs {
    j.(current := Minus(j.current, id), finished := j.finished + [id])
  }

  function Aborted(j: Jobs, id: nat): Jobs {
    if id in j.done then j else Rotated(MovedToFinished(j.(done := j.done + {id}), id))
  }

  function AllSitesDone(j: Jobs, id: nat): Jobs {
    j.(done := j.done + {id})
  }

  /** The end of a job is told to all sites, and the history is rotated. */
  function Completed(j: Jobs, id: nat): Jobs {
    Rotated(if id in j.current then MovedToFinished(j, id) else j)
  }

  function TimedOut(j: Jobs, id: nat): Jobs {
    Rotated(MovedToFinished(j.(done := j.done + {id}), id))
  }

  function WithLimit(j: Jobs, maxhistory: int): Jobs {
    Rotated(j.(maxhistory := maxhistory))
  }

  // ----- each step keeps the partition -----

  lemma RotatedKeeps(j: Jobs)
    requires Partition(j)
    ensures Partition(Rotated(j)) && Bounded(Rotated(j))
    ensures Rotated(j).current == j.current
    ensures |Rotated(j).all| == |j.all| - Excess(j)
  {
    hide Minus, MinusAll;
    var n := Excess(j);
    CutOff(j.finished, n);
    MinusAllSize(j.all, j.finished[..n]);
    Sizes(j);
  }

  /** The jobs that are evicted finished before all that are kept, no more of them go than
      have to, and all jobs that are kept stay in their order. */
  predicate OldestGone(j: Jobs, r: Jobs) {
    && |r.finished| <= |j.finished|
    && r.finished == j.finished[|j.finished| - |r.finished|..]
    && r.all == Kept(j.all, Members(j.current) + Members(r.finished))
    && (r.finished != j.finished ==> j.maxhistory != -1 && |r.all| >= Limit(j.maxhistory))
  }

  lemma RotatedOldest(j: Jobs)
    requires Partition(j)
    ensures OldestGone(j, Rotated(j))
  {
    hide Kept, Minus, MinusAll;
    var n, r := Excess(j), Rotated(j);
    CutOff(j.finished, n);
    RotatedKeeps(j);
    MinusAllKept(j.all, j.finished[..n]);
    KeptSame(j.all, Members(j.all) - Members(j.finished[..n]), Members(j.current) + Members(r.finished));
  }

  /** A job that has just ended is kept if and only if there is no limit, or the limit leaves
      room besides the current jobs. It is then the last to go. */
  lemma JustEnded(j: Jobs, id: nat)
    requires Partition(j) && id in j.current && id in j.done
    ensures var r := Rotated(MovedToFinished(j, id));
            && (id in r.finished <==> j.maxhistory == -1 || Limit(j.maxhistory) > |j.current| - 1)
            && (id in r.finished ==> r.finished[|r.finished| - 1] == id)
  {
    hide Minus, MinusAll;
    var m := MovedToFinished(j, id);
    MovedKeeps(j, id);
    MinusDistinct(j.current, id);
    Sizes(m);
    assert m.finished[|m.finished| - 1] == id;
  }

  lemma CutOff(s: seq<nat>, n: nat)
    requires Distinct(s) && n <= |s|
    ensures Distinct(s[..n]) && Distinct(s[n..])
    ensures forall x :: x in s <==> x in s[..n] || x in s[n..]
    ensures forall x :: x in s[n..] ==> x !in s[..n]
  {
    assert s == s[..n] + s[n..];
  }

  /** The sizes of the lists add up. */
  lemma Sizes(j: Jobs)
    requires Partition(j)
    ensures |j.all| == |j.current| + |j.finished|
  {
    var s := j.current + j.finished;
    forall i, k | 0 <= i < k < |s|
      ensures s[i] != s[k]
    {
      assert i < |j.current| ==> s[i] in j.current;
      assert k >= |j.current| ==> s[k] in j.finished;
    }
    SameSize(j.all, s);
  }

  lemma {:induction false} SameSize(a: seq<nat>, b: seq<nat>)
    requires Distinct(a) && Distinct(b) && forall x :: x in a <==> x in b
    ensures |a| == |b|
    decreases |a| + |b|
  {
    if a == [] && b == [] {
    } else {
      var id := if a != [] then a[|a| - 1] else b[|b| - 1];
      assert id in a && id in b;
      MinusDistinct(a, id);
      MinusDistinct(b, id);
      SameSize(Minus(a, id), Minus(b, id));
    }
  }

  /** Every job that a step is about is, after it, where the step wants it, unless it was
      evicted from all lists. */
  predicate Ended(j: Jobs, id: nat) {
    && id in j.done && id !in j.current
    && (id in j.all ==> id in j.finished)
  }

  lemma StartedKeeps(j: Jobs, t: Title)
    requires Partition(j) && IsNew(j, t)
    ensures Partition(Started(j, t)) && Bounded(Started(j, t))
    ensures j.nextid !in j.all && j.nextid !in j.done && Started(j, t).nextid > j.nextid
    ensures Started(j, t).current == j.current + [j.nextid] && j.nextid in Started(j, t).all
    ensures j.nextid !in Started(j, t).done && Started(j, t).titles[j.nextid] == t
  {
    hide Rotated, Bounded;
    var s := j.(all := j.all + [j.nextid], current := j.current + [j.nextid],
                titles := j.titles[j.nextid := t], nextid := j.nextid + 1);
    DistinctAppend(j.all, j.nextid);
    DistinctAppend(j.current, j.nextid);
    RotatedKeeps(s);
    RotatedRest(s);
    assert j.nextid in s.current;
  }

  lemma RotatedRest(j: Jobs)
    ensures var r := Rotated(j);
            && r.done == j.done && r.titles == j.titles && r.nextid == j.nextid && r.maxhistory == j.maxhistory
            && r.current == j.current && forall x :: x in r.finished ==> x in j.finished
  {
  }

  lemma ReactivatedKeeps(j: Jobs, id: nat)
    requires Partition(j) && id in j.all
    ensures Partition(Reactivated(j, id))
    ensures Bounded(j) ==> Bounded(Reactivated(j, id))
    ensures var r := Reactivated(j, id);
            id in r.all && id in r.current && id !in r.finished && id !in r.done
  {
    MinusDistinct(j.finished, id);
  }

  lemma MovedKeeps(j: Jobs, id: nat)
    requires Partition(j) && id in j.current && id in j.done
    ensures Partition(MovedToFinished(j, id)) && Ended(MovedToFinished(j, id), id)
  {
    MinusDistinct(j.current, id);
  }

  /** What moved to the finished jobs and may have been evicted at once. */
  lemma EndedKeeps(j: Jobs, id: nat)
    requires Partition(j) && id in j.current && id in j.done
    ensures var r := Rotated(MovedToFinished(j, id));
            Partition(r) && Bounded(r) && Ended(r, id)
  {
    hide Rotated, MovedToFinished, Bounded;
    var m := MovedToFinished(j, id);
    MovedKeeps(j, id);
    RotatedKeeps(m);
    RotatedRest(m);
  }

  lemma AbortedKeeps(j: Jobs, id: nat)
    requires Partition(j) && id in j.all
    ensures Partition(Aborted(j, id))
    ensures id !in j.done ==> Ended(Aborted(j, id), id)
    ensures id !in j.done || Bounded(j) ==> Bounded(Aborted(j, id))
    ensures id in j.current && id !in j.done ==>
              (id in Aborted(j, id).finished <==> j.maxhistory == -1 || Limit(j.maxhistory) > |j.current| - 1)
  {
    hide Rotated, MovedToFinished, Bounded;
    if id !in j.done {
      if id in j.current {
        JustEnded(j.(done := j.done + {id}), id);
      }
      EndedKeeps(j.(done := j.done + {id}), id);
    }
  }

  lemma CompletedKeeps(j: Jobs, id: nat)
    requires Partition(j) && id in j.done
    ensures Partition(Completed(j, id)) && Bounded(Completed(j, id)) && Ended(Completed(j, id), id)
    ensures id in j.current ==>
              (id in Completed(j, id).finished <==> j.maxhistory == -1 || Limit(j.maxhistory) > |j.current| - 1)
  {
    hide Rotated, MovedToFinished, Bounded;
    if id in j.current {
      JustEnded(j, id);
      EndedKeeps(j, id);
    } else {
      RotatedKeeps(j);
      RotatedRest(j);
    }
  }

  lemma TimedOutKeeps(j: Jobs, id: nat)
    requires Partition(j) && id in j.current
    ensures Partition(TimedOut(j, id)) && Bounded(TimedOut(j, id)) && Ended(TimedOut(j, id), id)
    ensures id in TimedOut(j, id).finished <==> j.maxhistory == -1 || Limit(j.maxhistory) > |j.current| - 1
  {
    hide Rotated, MovedToFinished, Bounded;
    JustEnded(j.(done := j.done + {id}), id);
    EndedKeeps(j.(done := j.done + {id}), id);
  }

  /** A job that was evicted while someone still holds it: resetting it makes a current
      job that is not among all jobs. */
  lemma ResetOfEvicted(j: Jobs, id: nat)
    requires Partition(j) && id !in j.all
    ensures !Partition(Reactivated(j, id))
  {
    var r := Reactivated(j, id);
    assert r.current[|r.current| - 1] == id;
  }

  // ----- runs -----

  datatype Event =
    | Skip
    | Start(title: Title)
    | Reset(id: nat)
    | Abort(id: nat)
    | SitesDone(id: nat)
    | Complete(id: nat)
    | Timeout(id: nat)
    | SetLimit(maxhistory: int)

  predicate Enabled(j: Jobs, e: Event) {
    match e
    case Skip => true
    case Start(t) => IsNew(j, t)
    case Reset(id) => id in j.all
    case Abort(id) => id in j.all
    case SitesDone(id) => id in j.current
    case Complete(id) => id in j.done
    case Timeout(id) => id in j.current
    case SetLimit(n) => true
  }

  function Do(j: Jobs, e: Event): Jobs {
    match e
    case Skip => Skipped(j)
    case Start(t) => Started(j, t)
    case Reset(id) => Reactivated(j, id)
    case Abort(id) => Aborted(j, id)
    case SitesDone(id) => AllSitesDone(j, id)
    case Complete(id) => Completed(j, id)
    case Timeout(id) => TimedOut(j, id)
    case SetLimit(n) => WithLimit(j, n)
  }

  lemma DoKeeps(j: Jobs, e: Event)
    requires Partition(j) && Bounded(j) && Enabled(j, e)
    ensures Partition(Do(j, e)) && Bounded(Do(j, e))
  {
    hide Started, Aborted, Rotated, Completed, TimedOut, Reactivated;
    match e
    case Skip =>
    case Start(t) => StartedKeeps(j, t);
    case Reset(id) => ReactivatedKeeps(j, id);
    case Abort(id) => AbortedKeeps(j, id);
    case SitesDone(id) =>
    case Complete(id) => CompletedKeeps(j, id);
    case Timeout(id) => TimedOutKeeps(j, id);
    case SetLimit(n) => RotatedKeeps(j.(maxhistory := n));
  }

  ghost predicate Follows(states: seq<Jobs>, events: seq<Event>, i: nat)
    requires i < |events| && |states| == |events| + 1
  {
    Enabled(states[i], events[i]) && states[i + 1] == Do(states[i], events[i])
  }

  ghost predicate IsRun(states: seq<Jobs>, events: seq<Event>) {
    && |states| == |events| + 1
    && states[0] == Jobs([], [], [], {}, map[], 1, 100)
    && forall i :: 0 <= i < |events| ==> Follows(states, events, i)
  }

  /** In every state of every run the current and the finished jobs are a partition of all
      jobs, and no more jobs are kept than the limit or the current ones. */
  lemma {:induction false} RunPartition(states: seq<Jobs>, events: seq<Event>, i: nat)
    requires IsRun(states, events) && i < |states|
    ensures Partition(states[i]) && Bounded(states[i])
  {
    if i > 0 {
      hide Partition, Enabled, Do, Bounded;
      RunPartition(states, events, i - 1);
      assert Follows(states, events, i - 1);
      DoKeeps(states[i - 1], events[i - 1]);
    }
  }
}
