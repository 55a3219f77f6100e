/** The engine's lists of spread jobs. */
module SpreadJobs {
  import opened Base
  import opened JobLists

  /** A list with an index by job number. An entry of the index leads to the one list node
      that carries its number. */
  class JobList {
    var items: seq<nat>
    var index: set<nat>

    ghost predicate Valid()
      reads this
    {
      Distinct(items) && forall id :: id in index <==> id in items
    }

    constructor ()
      ensures Valid() && items == []
    {
      items, index := [], {};
    }

    /** Asserts that the number was not in the index. */
    method PushBack(id: nat)
      requires Valid() && id !in items
      modifies this
      ensures Valid() && items == old(items) + [id]
    {
      assert id !in index;
      items := items + [id];
      index := index + {id};
    }

    predicate Holds(id: nat)
      reads this
    {
      id in index
    }

    method Erase(id: nat)
      requires Valid()
      modifies this
      ensures Valid() && items == Minus(old(items), id)
    {
      MinusDistinct(items, id);
      if id in index {
        var k := Position(id);
        MinusFirst(items, k);
        items := items[..k] + items[k + 1..];
        index := index - {id};
      }
    }

    method Position(id: nat) returns (k: nat)
      requires Valid() && id in items
      ensures k < |items| && items[k] == id
    {
      k := 0;
      while items[k] != id
        invariant k < |items| && id in items[k..]
        decreases |items| - k
      {
        assert items[k..] == [items[k]] + items[k + 1..];
        k := k + 1;
      }
    }
  }

  class SpreadJobList {
    const allraces: JobList
    const currentraces: JobList
    const finishedraces: JobList
    /** Which jobs are done, what they are called, and the numbers given out so far. */
    var done: set<nat>
    var titles: map<nat, Title>
    var nextid: nat
    var maxspreadjobshistory: int

    ghost predicate Valid()
      reads this, allraces, currentraces, finishedraces
    {
      && allraces != currentraces && allraces != finishedraces && currentraces != finishedraces
      && allraces.Valid() && currentraces.Valid() && finishedraces.Valid()
      && Partition(View())
    }

    ghost function View(): Jobs
      reads this, allraces, currentraces, finishedraces
    {
      Jobs(allraces.items, currentraces.items, finishedraces.items, done, titles, nextid, maxspreadjobshistory)
    }

    constructor ()
      ensures Valid() && fresh(allraces) && fresh(currentraces) && fresh(finishedraces)
      ensures View() == Jobs([], [], [], {}, map[], 1, 100)
    {
      allraces := new JobList();
      currentraces := new JobList();
      finishedraces := new JobList();
      done, titles, nextid, maxspreadjobshistory := {}, map[], 1, 100;
    }

    /** Drops the jobs that finished first, until as many as wanted are left or no
        finished ones. */
    method RotateSpreadJobsHistory()
      requires Valid()
      modifies allraces, finishedraces
      ensures Valid() && View() == Rotated(old(View())) && Bounded(View())
      ensures OldestGone(old(View()), View())
    {
      hide Partition, Distinct, Bounded, OldestGone;
      ghost var was := View();
      RotatedKeeps(was);
      RotatedOldest(was);
      var limit := Limit(maxspreadjobshistory);
      assert was.finished[..0] == [];
      if maxspreadjobshistory == -1 || |allraces.items| <= limit {
        return;
      }
      ghost var n: nat := 0;
      while |finishedraces.items| > 0 && |allraces.items| > limit
        invariant allraces.Valid() && finishedraces.Valid()
        invariant n <= |was.finished| && finishedraces.items == was.finished[n..]
        invariant allraces.items == MinusAll(was.all, was.finished[..n])
        invariant |allraces.items| == |was.all| - n && n <= |was.all| - limit
        decreases |finishedraces.items|
      {
        var id := finishedraces.items[0];
        EvictOne(was, n);
        finishedraces.Erase(id);
        allraces.Erase(id);
        n := n + 1;
      }
      assert n == Excess(was);
    }

    static lemma EvictOne(j: Jobs, n: nat)
      requires Partition(j) && n < |j.finished|
      ensures var id := j.finished[n];
              && Minus(j.finished[n..], id) == j.finished[n + 1..]
              && Minus(MinusAll(j.all, j.finished[..n]), id) == MinusAll(j.all, j.finished[..n + 1])
              && |MinusAll(j.all, j.finished[..n + 1])| == |MinusAll(j.all, j.finished[..n])| - 1
    {
      hide Partition, Minus, MinusAll;
      FinishedDistinct(j);
      EvictFirst(j.finished, n);
      FinishedPart(j, n);
      FinishedPart(j, n + 1);
      MinusAllSize(j.all, j.finished[..n]);
      MinusAllSize(j.all, j.finished[..n + 1]);
      MinusAllMore(j.all, j.finished, n);
    }

    static lemma FinishedDistinct(j: Jobs)
      requires Partition(j)
      ensures Distinct(j.all) && Distinct(j.finished) && forall x :: x in j.finished ==> x in j.all
    {
    }

    static lemma FinishedPart(j: Jobs, n: nat)
      requires Distinct(j.finished) && n <= |j.finished| && forall x :: x in j.finished ==> x in j.all
      ensures Distinct(j.finished[..n]) && forall x :: x in j.finished[..n] ==> x in j.all
    {
    }

    static lemma EvictFirst(finished: seq<nat>, n: nat)
      requires Distinct(finished) && n < |finished|
      ensures Minus(finished[n..], finished[n]) == finished[n + 1..]
    {
      hide Minus;
      var rest := finished[n..];
      assert rest[0] == finished[n] && rest[1..] == finished[n + 1..];
      MinusFirst(rest, 0);
      assert rest[..0] + rest[1..] == rest[1..];
    }

    static lemma MinusAllMore(all: seq<nat>, ids: seq<nat>, n: nat)
      requires n < |ids|
      ensures MinusAll(all, ids[..n + 1]) == Minus(MinusAll(all, ids[..n]), ids[n])
    {
      hide Minus;
      assert ids[..n + 1][..n] == ids[..n];
    }

    // ----- starting -----

    /** A job for a release that no job in the list is about. */
    method StartJob(t: Title) returns (id: nat)
      requires Valid() && IsNew(View(), t)
      modifies this, allraces, currentraces, finishedraces
      ensures Valid() && View() == Started(old(View()), t) && Bounded(View())
      ensures id == old(nextid)
    {
      hide Partition, Rotated, Distinct, Bounded;
      ghost var was := View();
      NumberIsNew(was, t);
      id := nextid;
      nextid := nextid + 1;
      titles := titles[id := t];
      currentraces.PushBack(id);
      allraces.PushBack(id);
      RotateSpreadJobsHistory();
    }

    static lemma NumberIsNew(j: Jobs, t: Title)
      requires Partition(j) && IsNew(j, t)
      ensures j.nextid !in j.all && j.nextid !in j.current && j.nextid !in j.finished
      ensures Partition(j.(all := j.all + [j.nextid], current := j.current + [j.nextid],
                           titles := j.titles[j.nextid := t], nextid := j.nextid + 1))
    {
      DistinctAppend(j.all, j.nextid);
      DistinctAppend(j.current, j.nextid);
    }

    /** The job about a release, if there is one. */
    method FindJob(t: Title) returns (r: Option<nat>)
      requires Valid()
      ensures r.Some? ==> r.value in allraces.items && r.value in titles && titles[r.value] == t
      ensures r.None? <==> IsNew(View(), t)
    {
      for i := 0 to |allraces.items|
        invariant forall k :: 0 <= k < i && allraces.items[k] in titles ==> titles[allraces.items[k]] != t
      {
        var id := allraces.items[i];
        if id in titles && titles[id] == t {
          return Some(id);
        }
      }
      return None;
    }

    /** The job becomes current, and is not done. */
    method MakeCurrent(id: nat)
      requires Valid() && id in allraces.items
      modifies this`done, currentraces, finishedraces
      ensures Valid() && View() == Reactivated(old(View()), id)
    {
      hide Partition, Distinct;
      ReactivatedKeeps(View(), id);
      done := done - {id};
      if !currentraces.Holds(id) {
        currentraces.PushBack(id);
        finishedraces.Erase(id);
      }
    }

    method ResetRace(id: nat)
      requires Valid() && id in allraces.items
      modifies this`done, currentraces, finishedraces
      ensures Valid() && View() == Reactivated(old(View()), id)
    {
      MakeCurrent(id);
    }

    /** A release that there is a job about already makes that job current again. */
    method NewSpreadJob(t: Title, reset: bool) returns (id: nat)
      requires Valid()
      modifies this, allraces, currentraces, finishedraces
      ensures Valid()
      ensures IsNew(old(View()), t) ==> View() == Started(old(View()), t) && id == old(nextid)
      ensures !IsNew(old(View()), t) ==>
                id in old(allraces.items) && id in old(titles) && old(titles)[id] == t &&
                View() == if reset || id !in old(currentraces.items) then Reactivated(old(View()), id) else old(View())
    {
      hide Partition, Rotated, Distinct, Bounded;
      var race := FindJob(t);
      if race.None? {
        id := StartJob(t);
        return;
      }
      id := race.value;
      if reset {
        ResetRace(id);
      } else if !currentraces.Holds(id) {
        MakeCurrent(id);
      }
    }

    // ----- ending -----

    method MoveToFinished(id: nat)
      requires Valid() && id in currentraces.items && id in done
      modifies currentraces, finishedraces
      ensures Valid() && View() == MovedToFinished(old(View()), id)
    {
      hide Partition, Distinct;
      MovedKeeps(View(), id);
      CurrentNotFinished(View(), id);
      currentraces.Erase(id);
      finishedraces.PushBack(id);
    }

    static lemma CurrentNotFinished(j: Jobs, id: nat)
      requires Partition(j)
      ensures id in j.current ==> id !in j.finished
      ensures id in j.all && id !in j.done ==> id in j.current
    {
    }

    method AbortRace(id: nat)
      requires Valid() && id in allraces.items
      modifies this`done, allraces, currentraces, finishedraces
      ensures Valid() && View() == Aborted(old(View()), id)
    {
      hide Partition, Rotated, MovedToFinished, Distinct, Bounded;
      ghost var was := View();
      if id !in done {
        CurrentNotFinished(was, id);
        DoneInPlace(was, id);
        done := done + {id};
        MoveToFinished(id);
        RotateSpreadJobsHistory();
      }
    }

    static lemma DoneInPlace(j: Jobs, id: nat)
      requires Partition(j) && id in j.current
      ensures Partition(j.(done := j.done + {id}))
    {
    }

    method RaceComplete(id: nat)
      requires Valid() && id in done
      modifies allraces, currentraces, finishedraces
      ensures Valid() && View() == Completed(old(View()), id) && Bounded(View())
    {
      hide Partition, Rotated, MovedToFinished, Distinct, Bounded;
      if currentraces.Holds(id) {
        MoveToFinished(id);
      }
      RotateSpreadJobsHistory();
    }

    method TimeOutRace(id: nat)
      requires Valid() && id in currentraces.items
      modifies this`done, allraces, currentraces, finishedraces
      ensures Valid() && View() == TimedOut(old(View()), id) && Bounded(View())
    {
      hide Partition, Rotated, MovedToFinished, Distinct, Bounded;
      DoneInPlace(View(), id);
      done := done + {id};
      MoveToFinished(id);
      RotateSpreadJobsHistory();
    }

    /** What became of a current job by the time the clock ticks. */
    static function Ticked(j: Jobs, timedout: set<nat>, sitesdone: set<nat>, ids: seq<nat>): Jobs {
      if ids == [] then j
      else TickedOne(Ticked(j, timedout, sitesdone, ids[..|ids| - 1]), timedout, sitesdone, ids[|ids| - 1])
    }

    static function TickedOne(j: Jobs, timedout: set<nat>, sitesdone: set<nat>, id: nat): Jobs {
      if id in timedout then TimedOut(j, id)
      else
        var k := if id in sitesdone then AllSitesDone(j, id) else j;
        if id in k.done then Completed(k, id) else k
    }

    method CheckIfAllSemiDone(id: nat, sitesdone: set<nat>)
      requires Valid() && id in currentraces.items
      modifies this`done
      ensures Valid() && View() == if id in sitesdone then AllSitesDone(old(View()), id) else old(View())
    {
      hide Partition;
      DoneInPlace(View(), id);
      if id in sitesdone {
        done := done + {id};
      }
    }

    /** Goes through the current jobs: those that time out or are done leave the list while
        it is being walked, and each time the history is rotated. */
    method TickRaces(timedout: set<nat>, sitesdone: set<nat>)
      requires Valid()
      modifies this`done, allraces, currentraces, finishedraces
      ensures Valid()
      ensures View() == Ticked(old(View()), timedout, sitesdone, old(currentraces.items))
      ensures old(Bounded(View())) ==> Bounded(View())
    {
      hide Partition, MovedToFinished, Distinct, Minus, TimedOut, Completed, Bounded, TickedOne;
      ghost var was := View();
      var i := 0;
      ghost var n: nat := 0;
      while i < |currentraces.items|
        invariant Valid() && i <= |currentraces.items| && n <= |was.current|
        invariant currentraces.items[i..] == was.current[n..]
        invariant View() == Ticked(was, timedout, sitesdone, was.current[..n])
        invariant Bounded(was) ==> Bounded(View())
        decreases |was.current| - n
      {
        var id := currentraces.items[i];
        assert id == was.current[n] && was.current[..n + 1][..n] == was.current[..n];
        RemovedAt(View(), i, timedout, sitesdone);
        if id in timedout {
          TimeOutRace(id);
        } else {
          CheckIfAllSemiDone(id, sitesdone);
          if id in done {
            RaceComplete(id);
          } else {
            i := i + 1;
          }
        }
        n := n + 1;
      }
      assert was.current[..n] == was.current;
    }

    /** A job that ends is taken out of the middle, which leaves what comes after it. */
    static lemma RemovedAt(j: Jobs, i: nat, timedout: set<nat>, sitesdone: set<nat>)
      requires Partition(j) && i < |j.current|
      ensures var id := j.current[i];
              var k := TickedOne(j, timedout, sitesdone, id);
              && k == (if id in timedout then TimedOut(j, id)
                       else if id in sitesdone then Completed(AllSitesDone(j, id), id)
                       else if id in j.done then Completed(j, id)
                       else j)
              && (id in timedout + sitesdone + j.done ==> i <= |k.current| && k.current[i..] == j.current[i + 1..])
              && (Bounded(j) ==> Bounded(k))
    {
      hide Bounded, Rotated, Partition;
      var id := j.current[i];
      CurrentDistinct(j);
      MinusFirst(j.current, i);
      DoneInPlace(j, id);
      if id in timedout {
        TimedOutKeeps(j, id);
        RotatedRest(MovedToFinished(j.(done := j.done + {id}), id));
      } else if id in sitesdone {
        CompletedKeeps(AllSitesDone(j, id), id);
        RotatedRest(MovedToFinished(AllSitesDone(j, id), id));
      } else if id in j.done {
        CompletedKeeps(j, id);
        RotatedRest(MovedToFinished(j, id));
      }
    }

    static lemma CurrentDistinct(j: Jobs)
      requires Partition(j)
      ensures Distinct(j.current)
    {
    }

    method SetMaxSpreadJobsHistory(jobs: int)
      requires Valid()
      modifies this`maxspreadjobshistory, allraces, finishedraces
      ensures Valid() && View() == WithLimit(old(View()), jobs) && Bounded(View())
    {
      hide Rotated, Distinct, Bounded;
      maxspreadjobshistory := jobs;
      RotateSpreadJobsHistory();
    }
  }
}
