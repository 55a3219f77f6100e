/** The engine's upkeep of the two boards. */
module Engines {
  import opened Base
  import opened FileListContent
  import opened FileListLaws
  import opened FileListRuns
  import opened ScoreBoardElements
  import opened ScoreBoardIndex
  import opened ScoreBoards
  import opened Scores
  import opened BoardSync
  import opened BoardEvolution
  import opened BoardRows
  import opened BoardRuns
  import opened TransferAttempts

  class Engine {
    /** Changes only when a race is reset. */
    var env: Env
    const scoreboard: ScoreBoard
    const failboard: ScoreBoard
    const attempts: Attempts
    /** The content of every file list, by the list's identity. */
    var lists: Lists
    var spreadjobfilelistschanged: set<ListId>
    var inscoreboard: set<ListId>
    /** The races that have ended. */
    ghost var over: set<nat>

    ghost predicate Boards()
      reads this, scoreboard, failboard, attempts
    {
      && scoreboard != failboard
      && scoreboard.Valid() && failboard.Valid() && attempts.Valid()
      && PriosOk(scoreboard.Rows) && PriosOk(failboard.Rows)
    }

    /** Every list belongs to a site that takes part in its race. */
    ghost predicate Enrolled()
      reads this
    {
      && (forall l :: l in lists ==> l.race in env.sites && l.site in env.sites[l.race])
      && spreadjobfilelistschanged <= lists.Keys
    }

    ghost predicate Valid()
      reads this, scoreboard, failboard, attempts
    {
      Boards() && Enrolled()
    }

    ghost function View(): World
      reads this, scoreboard, failboard, attempts
    {
      World(lists, scoreboard.Rows.Keys, failboard.Rows.Keys, spreadjobfilelistschanged, inscoreboard, over,
            attempts.History)
    }

    /** All scores are in range: see BoardRows.ScoreOk. */
    ghost predicate InRange()
      reads scoreboard, failboard
    {
      ScoresOk(scoreboard.Rows) && ScoresOk(failboard.Rows)
    }

    constructor (env: Env)
      ensures Valid() && fresh(scoreboard) && fresh(failboard) && fresh(attempts) && this.env == env
      ensures View() == World(map[], {}, {}, {}, {}, {}, []) && InRange()
    {
      this.env := env;
      scoreboard := new ScoreBoard();
      failboard := new ScoreBoard();
      attempts := new Attempts();
      lists, spreadjobfilelistschanged, inscoreboard, over := map[], {}, {}, {};
    }

    ghost function OnScore(): Key -> bool
      reads attempts
    {
      var history := attempts.History;
      (k: Key) => !GivenUp(history, k)
    }

    ghost function OnFail(): Key -> bool
      reads attempts
    {
      var history := attempts.History;
      (k: Key) => GivenUp(history, k)
    }

    /** Both boards went the way acts says. */
    twostate predicate Went(acts: Acts, newrow: (Key, Row) -> bool)
      reads this, scoreboard, failboard, attempts
    {
      && Evolved(old(scoreboard.Rows), scoreboard.Rows, acts, OnScore(), newrow)
      && Evolved(old(failboard.Rows), failboard.Rows, acts, OnFail(), newrow)
    }

    // ----- single keys -----

    /** Adds the key to the board it belongs on. */
    method PutOn(k: Key, score: nat, filesize: nat, ghost newrow: (Key, Row) -> bool)
      requires Boards() && score < USHORT_MAX && newrow(k, NewRow(score, filesize, PrioOf(k.name)))
      modifies scoreboard, failboard
      ensures Boards() && Went(Only(k, Put), newrow)
    {
      hide BoardOk, Evolved, PrioOf, GivenUp;
      var failed := attempts.HasFailedTransfer(k);
      if failed {
        PutRow(failboard.Rows, k, score, filesize, OnFail(), newrow);
        EvolvedElsewhere(scoreboard.Rows, k, OnScore(), newrow);
        failboard.Update(k, score, filesize, PrioOf(k.name));
      } else {
        PutRow(scoreboard.Rows, k, score, filesize, OnScore(), newrow);
        EvolvedElsewhere(failboard.Rows, k, OnFail(), newrow);
        scoreboard.Update(k, score, filesize, PrioOf(k.name));
      }
    }

    /** Takes the key off one board. */
    method TakeOff(board: ScoreBoard, k: Key, ghost here: Key -> bool, ghost newrow: (Key, Row) -> bool)
      returns (removed: bool)
      requires board.Valid() && PriosOk(board.Rows)
      modifies board
      ensures board.Valid() && PriosOk(board.Rows)
      ensures Evolved(old(board.Rows), board.Rows, Only(k, Drop), here, newrow)
    {
      hide BoardOk, Evolved, PrioOf;
      ghost var was := board.Rows;
      board.BoardBounds();
      removed := board.Remove(k);
      if removed {
        ghost var moved := old(board.pool[board.elements[board.showsize - 1]].id);
        EvolvedRemove(was, k, moved, here, newrow);
      } else {
        EvolvedAbsent(was, k, here, newrow);
      }
    }

    // ----- one changed name -----

    /** Two steps of one board are one step. */
    static lemma Then(r0: map<Key, Row>, r1: map<Key, Row>, r2: map<Key, Row>, first: Acts, second: Acts, both: Acts,
                      here: Key -> bool, newrow: (Key, Row) -> bool)
      requires Evolved(r0, r1, first, here, newrow)
      requires Evolved(r1, r2, second, here, newrow) || (second == Nothing() && r1 == r2)
      requires Together(first, second, both)
      ensures Evolved(r0, r2, both, here, newrow)
    {
      hide Evolved, Together;
      if second == Nothing() && r1 == r2 {
        EvolvedNot(r1, r2, here, newrow);
      }
      EvolvedThen(r0, r1, r2, first, second, both, here, newrow);
    }

    /** A changed name that l no longer has, against the list c of another site. avgspeed
        is the speed that the loop over the names carries along. */
    method UpdateLost(l: ListId, c: ListId, name: string, sc: Scoring, avgspeed: int, ghost was: Lists,
                      ghost newrow: (Key, Row) -> bool)
      returns (nextspeed: int)
      requires Boards() && Grown(env, was, lists) && l in was && c in was && GetFile(was[l], name).None?
      requires forall row ::
                 PutsBack(env, was, l, c, name) && RowIs(sc, was, Key(name, c, l), sc.speed(c.site, l.site), row) ==>
                   newrow(Key(name, c, l), row)
      modifies scoreboard, failboard
      ensures Boards() && Went(NameActs(env, was, l, c, name), newrow)
      ensures nextspeed == if PutsBack(env, was, l, c, name) then sc.speed(c.site, l.site) else avgspeed
    {
      hide BoardOk, Evolved, Together, PrioOf, CalculateScore, GetFile, Contains, Grown, PriosOk, RowOf, NameActs,
        RowIs, GivenUp;
      nextspeed := avgspeed;
      GrownView(env, was, lists, l);
      GrownView(env, was, lists, c);
      LostName(env, was, l, c, name);
      ContainsIsLookup(lists[l], name);
      var gone, put := Key(name, l, c), Key(name, c, l);
      var inscore := TakeOff(scoreboard, gone, OnScore(), newrow);
      var infail := TakeOff(failboard, gone, OnFail(), newrow);
      ghost var s1, f1 := scoreboard.Rows, failboard.Rows;
      var f := GetFile(lists[c], name);
      if lists[c].state != FAILED && TransferPossible(env, c, l) && f.Some? && !Contains(lists[l], name) &&
         !f.value.directory && f.value.size != 0 {
        nextspeed := sc.speed(c.site, l.site);
        RowReady(env, sc, was, lists, put, nextspeed);
        var row := RowOf(sc, lists, put, nextspeed);
        PutOn(put, row.score, row.filesize, newrow);
      }
      ghost var act := if PutsBack(env, was, l, c, name) then Only(put, Put) else Nothing();
      Then(old(scoreboard.Rows), s1, scoreboard.Rows, Only(gone, Drop), act, NameActs(env, was, l, c, name), OnScore(),
           newrow);
      Then(old(failboard.Rows), f1, failboard.Rows, Only(gone, Drop), act, NameActs(env, was, l, c, name), OnFail(),
           newrow);
    }

    /** A changed name that l has, against the list c of another site. */
    method UpdateFound(l: ListId, c: ListId, name: string, sc: Scoring, avgspeed: int, ghost was: Lists,
                       ghost newrow: (Key, Row) -> bool)
      requires Boards() && Grown(env, was, lists) && l in was && c in was && GetFile(was[l], name).Some?
      requires forall row :: RowIs(sc, was, Key(name, l, c), avgspeed, row) ==> newrow(Key(name, l, c), row)
      modifies scoreboard, failboard
      ensures Boards() && Went(NameActs(env, was, l, c, name), newrow)
    {
      hide BoardOk, Evolved, Together, PrioOf, CalculateScore, GetFile, Contains, Grown, PriosOk, RowOf, NameActs,
        RowIs, GivenUp;
      GrownView(env, was, lists, l);
      GrownView(env, was, lists, c);
      FoundName(env, was, l, c, name);
      var gone, put := Key(name, c, l), Key(name, l, c);
      var inscore := TakeOff(scoreboard, gone, OnScore(), newrow);
      if inscore {
        UncheckedEvolved(old(scoreboard.Rows), scoreboard.Rows, l, Only(gone, Drop), OnScore(), newrow);
        scoreboard.ResetSkipChecked(l);
      }
      var infail := TakeOff(failboard, gone, OnFail(), newrow);
      ghost var s1, f1 := scoreboard.Rows, failboard.Rows;
      var f := GetFile(lists[l], name).value;
      if lists[c].state != FAILED && !Contains(lists[c], name) && TransferPossible(env, l, c) && !f.directory &&
        f.size != 0 {
        RowReady(env, sc, was, lists, put, avgspeed);
        var row := RowOf(sc, lists, put, avgspeed);
        PutOn(put, row.score, row.filesize, newrow);
      }
      ghost var act := if Sends(env, was, l, c, name) then Only(put, Put) else Nothing();
      Then(old(scoreboard.Rows), s1, scoreboard.Rows, Only(gone, Drop), act, NameActs(env, was, l, c, name), OnScore(),
           newrow);
      Then(old(failboard.Rows), f1, failboard.Rows, Only(gone, Drop), act, NameActs(env, was, l, c, name), OnFail(),
           newrow);
    }

    // ----- one changed list -----

    /** The order that a set of names is gone through in, which may be any. */
    static method OrderOf(names: set<string>) returns (order: seq<string>)
      ensures Distinct(order) && NameSet(order) == names
    {
      order := [];
      var rest := names;
      while rest != {}
        invariant Distinct(order) && NameSet(order) !! rest && NameSet(order) + rest == names
      {
        var name :| name in rest;
        assert name !in order by { assert name !in NameSet(order); }
        DistinctAppend(order, name);
        assert NameSet(order + [name]) == NameSet(order) + {name};
        order, rest := order + [name], rest - {name};
      }
    }

    static lemma PairRowAt(env: Env, sc: Scoring, was: Lists, l: ListId, c: ListId, order: seq<string>, i: nat, k: Key,
                           row: Row)
      requires l in was && c in was && i < |order| && order[i] == k.name
      requires RowIs(sc, was, k, if k.src == l then CarriedSpeed(env, sc, was, l, c, order[..i])
                     else sc.speed(c.site, l.site), row)
      ensures PairRows(env, sc, was, l, c, order)(k, row)
    {
      hide RowIs, CarriedSpeed;
    }

    /** One changed name of l. */
    method UpdateName(l: ListId, c: ListId, ghost order: seq<string>, ghost i: nat, name: string, sc: Scoring,
                      avgspeed: int, ghost was: Lists)
      returns (nextspeed: int)
      requires Boards() && Grown(env, was, lists) && l in was && c in was && i < |order| && order[i] == name
      requires avgspeed == CarriedSpeed(env, sc, was, l, c, order[..i])
      modifies scoreboard, failboard
      ensures Boards() && Went(NameActs(env, was, l, c, name), PairRows(env, sc, was, l, c, order))
      ensures nextspeed == CarriedSpeed(env, sc, was, l, c, order[..i + 1])
    {
      hide BoardOk, Evolved, Together, GetFile, Grown, PriosOk, NameActs, PairRows, RowIs, GivenUp;
      ghost var newrow := PairRows(env, sc, was, l, c, order);
      GrownView(env, was, lists, l);
      assert order[..i + 1][..i] == order[..i];
      if GetFile(lists[l], name).None? {
        forall row | PutsBack(env, was, l, c, name) && RowIs(sc, was, Key(name, c, l), sc.speed(c.site, l.site), row)
          ensures newrow(Key(name, c, l), row)
        {
          PairRowAt(env, sc, was, l, c, order, i, Key(name, c, l), row);
        }
        nextspeed := UpdateLost(l, c, name, sc, avgspeed, was, newrow);
      } else {
        forall row | RowIs(sc, was, Key(name, l, c), avgspeed, row)
          ensures newrow(Key(name, l, c), row)
        {
          PairRowAt(env, sc, was, l, c, order, i, Key(name, l, c), row);
        }
        UpdateFound(l, c, name, sc, avgspeed, was, newrow);
        nextspeed := avgspeed;
      }
    }

    /** The changed names of l against the list c of another site, in some order. */
    method UpdatePair(l: ListId, c: ListId, order: seq<string>, sc: Scoring, ghost was: Lists)
      requires Boards() && Grown(env, was, lists) && l in was && c in was
      requires Distinct(order) && NameSet(order) == was[l].changed
      modifies scoreboard, failboard
      ensures Boards() && Went(PairActs(env, was, l, c, was[l].changed), PairRows(env, sc, was, l, c, order))
    {
      hide BoardOk, Evolved, Together, Grown, PriosOk, NameActs, PairActs, PairRows, NameSet, Distinct, GivenUp;
      ghost var newrow := PairRows(env, sc, was, l, c, order);
      var avgspeed := sc.speed(l.site, c.site);
      NoNamesYet(env, was, l, c, scoreboard.Rows, OnScore(), newrow);
      NoNamesYet(env, was, l, c, failboard.Rows, OnFail(), newrow);
      NoName(order, was[l].changed);
      for i := 0 to |order|
        invariant Boards() && Went(PairActs(env, was, l, c, NameSet(order[..i])), newrow)
        invariant avgspeed == CarriedSpeed(env, sc, was, l, c, order[..i])
        modifies scoreboard, failboard
      {
        ghost var s1, f1, done, name := scoreboard.Rows, failboard.Rows, NameSet(order[..i]), order[i];
        avgspeed := UpdateName(l, c, order, i, order[i], sc, avgspeed, was);
        NewName(order, i);
        NextName(env, was, l, c, done, name);
        ghost var both := PairActs(env, was, l, c, done + {name});
        Then(old(scoreboard.Rows), s1, scoreboard.Rows, PairActs(env, was, l, c, done), NameActs(env, was, l, c, name),
             both, OnScore(), newrow);
        Then(old(failboard.Rows), f1, failboard.Rows, PairActs(env, was, l, c, done), NameActs(env, was, l, c, name),
             both, OnFail(), newrow);
      }
      assert order[..|order|] == order;
    }

    static lemma NoName(order: seq<string>, names: set<string>)
      ensures NameSet(order[..0]) == names - names
    {
    }

    static lemma NewName(order: seq<string>, i: nat)
      requires Distinct(order) && i < |order|
      ensures order[i] !in NameSet(order[..i]) && NameSet(order[..i + 1]) == NameSet(order[..i]) + {order[i]}
    {
      NextNameSet(order, i);
    }

    /** A site of the race gets the sub path as well. */
    method AddSubDirectory(c: ListId)
      requires Enrolled() && c !in lists && c.race in env.sites && c.site in env.sites[c.race]
      modifies this`lists
      ensures Enrolled() && lists == old(lists)[c := InitialContent(env.user(c.site), UNKNOWN)]
    {
      lists := lists[c := InitialContent(env.user(c.site), UNKNOWN)];
    }

    /** l against the list of one site of its race. */
    method UpdateSite(l: ListId, site: nat, sc: Scoring, ghost was: Lists)
      requires Boards() && Enrolled() && Grown(env, was, lists)
      requires l in was && lists[l] == was[l] && l.race in env.sites && site in env.sites[l.race]
      modifies this`lists, scoreboard, failboard
      ensures Boards() && Enrolled() && Grown(env, was, lists)
      ensures lists.Keys >= old(lists.Keys) && forall m :: m in old(lists) ==> lists[m] == old(lists)[m]
      ensures Went(SiteStep(env, was, l, site), DrainRows(env, sc, was))
    {
      hide BoardOk, Evolved, GetFile, Grown, PriosOk, PairActs, DrainRows, InitialContent;
      ghost var newrow := DrainRows(env, sc, was);
      GrownMember(env, was, lists, Peer(env, l, site));
      EvolvedNot(scoreboard.Rows, scoreboard.Rows, OnScore(), newrow);
      EvolvedNot(failboard.Rows, failboard.Rows, OnFail(), newrow);
      var c := Peer(env, l, site);
      if c !in lists {
        GrownMore(env, was, lists, site, l);
        AddSubDirectory(c);
        return;
      }
      if lists[c].state == UNKNOWN {
        return;
      }
      ghost var s0, f0 := scoreboard.Rows, failboard.Rows;
      GrownView(env, was, lists, l);
      var order := OrderOf(lists[l].changed);
      UpdatePair(l, c, order, sc, was);
      PairLooser(env, sc, was, l, c, order, s0, scoreboard.Rows, OnScore());
      PairLooser(env, sc, was, l, c, order, f0, failboard.Rows, OnFail());
    }

    static lemma PairLooser(env: Env, sc: Scoring, was: Lists, l: ListId, c: ListId, order: seq<string>,
                            r0: map<Key, Row>, r1: map<Key, Row>, here: Key -> bool)
      requires l in was && c in was && NameSet(order) == was[l].changed
      requires Evolved(r0, r1, PairActs(env, was, l, c, was[l].changed), here, PairRows(env, sc, was, l, c, order))
      ensures Evolved(r0, r1, PairActs(env, was, l, c, was[l].changed), here, DrainRows(env, sc, was))
    {
      hide Evolved, PairActs, PairRow, DrainRow;
      forall k, row | PairActs(env, was, l, c, was[l].changed)(k) == Put && PairRows(env, sc, was, l, c, order)(k, row)
        ensures DrainRows(env, sc, was)(k, row)
      {
        InNameSet(order);
        PairIsDrain(env, sc, was, l, c, order, k, row);
      }
      EvolvedLooser(r0, r1, PairActs(env, was, l, c, was[l].changed), here, PairRows(env, sc, was, l, c, order),
                    DrainRows(env, sc, was));
    }

    static lemma InNameSet(order: seq<string>)
      ensures forall n :: n in order ==> n in NameSet(order)
    {
    }

    /** Every changed name of l against every other list of its race and sub path. */
    method UpdateSites(l: ListId, sc: Scoring, ghost was: Lists)
      requires Boards() && Enrolled() && Grown(env, was, lists)
      requires l in was && lists[l] == was[l] && was[l].state != FAILED
      requires l.race in env.sites
      modifies this`lists, scoreboard, failboard
      ensures Boards() && Enrolled() && Grown(env, was, lists)
      ensures Went(SiteActs(env, was, l, env.sites[l.race]), DrainRows(env, sc, was))
      ensures lists.Keys >= old(lists.Keys) && forall m :: m in old(lists) ==> lists[m] == old(lists)[m]
    {
      hide BoardOk, Evolved, Together, GetFile, Grown, PriosOk, DrainRows, InitialContent, SiteActs, PairActs;
      ghost var newrow := DrainRows(env, sc, was);
      var rest := env.sites[l.race];
      NoSitesYet(env, was, l, scoreboard.Rows, OnScore(), newrow);
      NoSitesYet(env, was, l, failboard.Rows, OnFail(), newrow);
      assert env.sites[l.race] - rest == {};
      GrownMember(env, was, lists, l);
      while rest != {}
        invariant Boards() && Enrolled() && rest <= env.sites[l.race]
        invariant Grown(env, was, lists) && l in old(lists) && lists.Keys >= old(lists.Keys)
        invariant forall m :: m in old(lists) ==> lists[m] == old(lists)[m]
        invariant Went(SiteActs(env, was, l, env.sites[l.race] - rest), newrow)
        modifies this`lists, scoreboard, failboard
      {
        var site :| site in rest;
        ghost var s1, f1, done := scoreboard.Rows, failboard.Rows, env.sites[l.race] - rest;
        UpdateSite(l, site, sc, was);
        rest := rest - {site};
        NextSite(env, was, l, done, site);
        assert env.sites[l.race] - rest == done + {site};
        ghost var step := SiteStep(env, was, l, site);
        Then(old(scoreboard.Rows), s1, scoreboard.Rows, SiteActs(env, was, l, done), step,
             SiteActs(env, was, l, done + {site}), OnScore(), newrow);
        Then(old(failboard.Rows), f1, failboard.Rows, SiteActs(env, was, l, done), step,
             SiteActs(env, was, l, done + {site}), OnFail(), newrow);
      }
      assert env.sites[l.race] - rest == env.sites[l.race];
    }

    /** A failed list leaves both boards. */
    method WipeList(l: ListId, sc: Scoring, ghost was: Lists)
      requires Boards() && l in was && was[l].state == FAILED
      modifies scoreboard, failboard
      ensures Boards() && Went(ListActs(env, was, l), DrainRows(env, sc, was))
    {
      hide BoardOk, Evolved, ListActs, PriosOk, DrainRows;
      scoreboard.Wipe(l);
      failboard.Wipe(l);
      WipeActs(env, was, l, old(scoreboard.Rows), scoreboard.Rows, OnScore(), DrainRows(env, sc, was));
      WipeActs(env, was, l, old(failboard.Rows), failboard.Rows, OnFail(), DrainRows(env, sc, was));
      PriosKept(old(scoreboard.Rows), scoreboard.Rows, ListActs(env, was, l), OnScore(), env, sc, was);
      PriosKept(old(failboard.Rows), failboard.Rows, ListActs(env, was, l), OnFail(), env, sc, was);
    }

    /** One list of the changed ones. */
    method UpdateList(l: ListId, sc: Scoring, ghost was: Lists)
      requires Boards() && Enrolled() && Grown(env, was, lists)
      requires l in was && lists[l] == was[l]
      modifies this`lists, this`inscoreboard, scoreboard, failboard
      ensures Boards() && Enrolled() && Grown(env, was, lists)
      ensures Went(ListActs(env, was, l), DrainRows(env, sc, was))
      ensures lists.Keys >= old(lists.Keys) && lists[l] == Cleared(was[l])
      ensures forall m :: m in old(lists) && m != l ==> lists[m] == old(lists)[m]
      ensures inscoreboard == old(inscoreboard) - if was[l].state == FAILED then {l} else {}
    {
      hide BoardOk, Evolved, GetFile, Grown, PriosOk, DrainRows, InitialContent, ListActs, SiteActs;
      GrownMember(env, was, lists, l);
      if lists[l].state == FAILED {
        WipeList(l, sc, was);
        inscoreboard := inscoreboard - {l};
        return;
      }
      UpdateSites(l, sc, was);
      WholeList(env, was, lists, l, env.sites[l.race]);
      EvolvedSame(old(scoreboard.Rows), scoreboard.Rows, SiteActs(env, was, l, env.sites[l.race]),
                  ListActs(env, was, l), OnScore(), DrainRows(env, sc, was));
      EvolvedSame(old(failboard.Rows), failboard.Rows, SiteActs(env, was, l, env.sites[l.race]), ListActs(env, was, l),
                  OnFail(), DrainRows(env, sc, was));
      GrownCleared(env, was, lists, l);
      lists := lists[l := Cleared(lists[l])];
    }

    /** Best transfers first, equal ones in random order. */
    method SortBoard()
      requires Boards()
      modifies scoreboard
      ensures Boards() && scoreboard.Rows == old(scoreboard.Rows)
      ensures Descending(scoreboard.Scores())
    {
      hide BoardOk, PriosOk, Descending, LiveScores, Permutes;
      scoreboard.Sort();
      scoreboard.ShuffleEquals();
    }

    /** Lists processed so far are cleared, the rest are as they were, and some that were
        missing have been added. */
    ghost predicate Underway(was: Lists, done: set<ListId>)
      reads this
    {
      && Enrolled() && Grown(env, was, lists) && done <= was.Keys
      && (forall l :: l in was ==> l in lists && lists[l] == if l in done then Cleared(was[l]) else was[l])
    }

    /** Every change of every list that has one. */
    method UpdateLists(sc: Scoring)
      requires Valid()
      modifies this`lists, this`inscoreboard, scoreboard, failboard
      ensures Boards() && Underway(old(lists), spreadjobfilelistschanged)
      ensures Went(DrainActs(env, old(lists), spreadjobfilelistschanged), DrainRows(env, sc, old(lists)))
      ensures forall l :: l in inscoreboard <==>
                l in old(inscoreboard) && !(l in spreadjobfilelistschanged && old(lists)[l].state == FAILED)
    {
      hide BoardOk, Evolved, Together, PriosOk, DrainRows, ListActs, DrainActs, Grown, Cleared;
      ghost var was, newrow, pending := lists, DrainRows(env, sc, lists), spreadjobfilelistschanged;
      GrownNot(env, lists);
      NoListsYet(env, was, scoreboard.Rows, OnScore(), newrow);
      NoListsYet(env, was, failboard.Rows, OnFail(), newrow);
      var rest := spreadjobfilelistschanged;
      assert pending - rest == {};
      while rest != {}
        invariant Boards() && rest <= pending <= was.Keys && Underway(was, pending - rest)
        invariant Went(DrainActs(env, was, pending - rest), newrow)
        invariant forall l :: l in inscoreboard <==>
                    l in old(inscoreboard) && !(l in pending - rest && was[l].state == FAILED)
        modifies this`lists, this`inscoreboard, scoreboard, failboard
      {
        var l :| l in rest;
        ghost var done := pending - rest;
        UpdateNext(l, sc, was, done, old(scoreboard.Rows), old(failboard.Rows));
        rest := rest - {l};
        assert pending - rest == done + {l};
      }
      assert pending - rest == pending;
    }

    /** One more list, after those in done. */
    method UpdateNext(l: ListId, sc: Scoring, ghost was: Lists, ghost done: set<ListId>, ghost s0: map<Key, Row>,
                      ghost f0: map<Key, Row>)
      requires Boards() && Underway(was, done) && l in was && l !in done
      requires Evolved(s0, scoreboard.Rows, DrainActs(env, was, done), OnScore(), DrainRows(env, sc, was))
      requires Evolved(f0, failboard.Rows, DrainActs(env, was, done), OnFail(), DrainRows(env, sc, was))
      modifies this`lists, this`inscoreboard, scoreboard, failboard
      ensures Boards() && Underway(was, done + {l})
      ensures Evolved(s0, scoreboard.Rows, DrainActs(env, was, done + {l}), OnScore(), DrainRows(env, sc, was))
      ensures Evolved(f0, failboard.Rows, DrainActs(env, was, done + {l}), OnFail(), DrainRows(env, sc, was))
      ensures inscoreboard == old(inscoreboard) - if was[l].state == FAILED then {l} else {}
    {
      hide BoardOk, Evolved, Together, PriosOk, DrainRows, ListActs, DrainActs, Grown, Cleared;
      ghost var s1, f1, newrow, both := scoreboard.Rows, failboard.Rows, DrainRows(env, sc, was),
        DrainActs(env, was, done + {l});
      UpdateList(l, sc, was);
      NextList(env, was, done, l);
      Then(s0, s1, scoreboard.Rows, DrainActs(env, was, done), ListActs(env, was, l), both, OnScore(), newrow);
      Then(f0, f1, failboard.Rows, DrainActs(env, was, done), ListActs(env, was, l), both, OnFail(), newrow);
    }

    /** Brings the boards up to date with the changed lists, whatever order they come in,
        and sorts the board that transfers are taken from. */
    method UpdateScoreBoard(sc: Scoring)
      requires Valid()
      modifies this`lists, this`inscoreboard, this`spreadjobfilelistschanged, scoreboard, failboard
      ensures Valid() && Drained(env, old(View()), View())
      ensures Went(DrainActs(env, old(lists), old(spreadjobfilelistschanged)), DrainRows(env, sc, old(lists)))
      ensures Descending(scoreboard.Scores())
      ensures old(InRange()) && Measured(sc, old(lists)) ==> InRange() && SortedFirst()
    {
      hide BoardOk, PriosOk, DrainRows, DrainActs, Descending, LiveScores, Cleared, Evolved, Drained, ScoresOk,
        Measured, SortedFirst, GivenUp;
      ghost var w, pending := View(), spreadjobfilelistschanged;
      UpdateLists(sc);
      spreadjobfilelistschanged := {};
      SortBoard();
      DrainedWorld(env, w, View(), old(scoreboard.Rows), scoreboard.Rows, old(failboard.Rows), failboard.Rows,
                   OnScore(), OnFail(), DrainRows(env, sc, old(lists)));
      if old(InRange()) && Measured(sc, old(lists)) {
        DrainInRange(env, sc, w.lists, pending, old(scoreboard.Rows), scoreboard.Rows, OnScore());
        DrainInRange(env, sc, w.lists, pending, old(failboard.Rows), failboard.Rows, OnFail());
        PriorityFilesFirst();
      }
    }

    static lemma DrainInRange(env: Env, sc: Scoring, lists: Lists, pending: set<ListId>, r0: map<Key, Row>,
                              r1: map<Key, Row>, here: Key -> bool)
      requires pending <= lists.Keys && ScoresOk(r0) && Measured(sc, lists)
      requires Evolved(r0, r1, DrainActs(env, lists, pending), here, DrainRows(env, sc, lists))
      ensures ScoresOk(r1)
    {
      hide Evolved, DrainActs, ScoresOk, Measured, DrainRow;
      forall k | DrainActs(env, lists, pending)(k) == Put
        ensures k.src.race == k.dst.race
      {
        DrainPlaced(env, lists, pending, k);
      }
      ScoresKept(r0, r1, DrainActs(env, lists, pending), here, DrainRows(env, sc, lists), env, sc, lists);
    }

    /** On the board that transfers are taken from, every priority file comes before every
        file without priority. */
    ghost predicate SortedFirst()
      requires scoreboard.Valid()
      reads this, scoreboard
    {
      scoreboard.BoardBounds();
      PriorityFirst(scoreboard.pool, scoreboard.elements, scoreboard.showsize)
    }

    lemma PriorityFilesFirst()
      requires scoreboard.Valid() && ScoresOk(scoreboard.Rows) && Descending(scoreboard.Scores())
      ensures SortedFirst()
    {
      hide BoardOk, ScoresOk, Descending;
      scoreboard.BoardBounds();
      forall i | 0 <= i < scoreboard.showsize
        ensures scoreboard.elements[i] < |scoreboard.pool|
        ensures var e := scoreboard.pool[scoreboard.elements[i]];
                e.id in scoreboard.Rows && scoreboard.Rows[e.id] == e.row
      {
        scoreboard.ElementScore(i);
      }
      SortedByPriority(scoreboard.pool, scoreboard.elements, scoreboard.showsize, scoreboard.Rows);
    }

    // ----- a list that is added -----

    ghost function Anywhere(): Key -> bool {
      (k: Key) => true
    }

    /** Every file that s has and d lacks goes on the board. */
    method AddToScoreBoardForPair(s: ListId, d: ListId, sc: Scoring, ghost was: Lists)
      requires Boards() && s in was && d in was && Sound(was[s])
      requires s in lists && d in lists && lists[s] == was[s] && lists[d] == was[d]
      modifies scoreboard
      ensures Boards()
      ensures Evolved(old(scoreboard.Rows), scoreboard.Rows, PairPuts(was, s, d, was[s].files.Keys), Anywhere(),
                      AddRows(sc, was))
    {
      hide BoardOk, Evolved, Together, PriosOk, PrioOf, CalculateScore, RowOf, RowIs, Contains, PairPuts, Distinct;
      ghost var newrow := AddRows(sc, was);
      if lists[d].state == UNKNOWN || lists[d].state == PRE_FAIL || lists[d].state == FAILED {
        NoPutsYet(was, s, d, was[s].files.Keys, scoreboard.Rows, Anywhere(), newrow);
        return;
      }
      var order := lists[s].order;
      NoPutsYet(was, s, d, {}, scoreboard.Rows, Anywhere(), newrow);
      assert NameSet(order[..0]) == {};
      for i := 0 to |order|
        invariant Boards()
        invariant Evolved(old(scoreboard.Rows), scoreboard.Rows, PairPuts(was, s, d, NameSet(order[..i])), Anywhere(),
                          newrow)
        modifies scoreboard
      {
        var name := order[i];
        ghost var s1, done := scoreboard.Rows, NameSet(order[..i]);
        AddName(Key(name, s, d), sc, was);
        NextPut(was, s, d, done, name);
        NextNameSet(order, i);
        ghost var k := Key(name, s, d);
        ghost var act := if Usable(was[d].state) && SourceHas(was, k) && !Contains(was[d], name) then Only(k, Put)
          else Nothing();
        Then(old(scoreboard.Rows), s1, scoreboard.Rows, PairPuts(was, s, d, done), act,
             PairPuts(was, s, d, done + {name}), Anywhere(), newrow);
      }
      assert order[..|order|] == order && NameSet(order) == was[s].files.Keys;
    }

    /** One file of the pair. */
    method AddName(k: Key, sc: Scoring, ghost was: Lists)
      requires Boards() && k.src in was && k.dst in was && k.name in was[k.src].files && Usable(was[k.dst].state)
      requires k.src in lists && k.dst in lists && lists[k.src] == was[k.src] && lists[k.dst] == was[k.dst]
      modifies scoreboard
      ensures Boards()
      ensures if SourceHas(was, k) && !Contains(was[k.dst], k.name)
              then Evolved(old(scoreboard.Rows), scoreboard.Rows, Only(k, Put), Anywhere(), AddRows(sc, was))
              else scoreboard.Rows == old(scoreboard.Rows)
    {
      hide BoardOk, Evolved, PriosOk, PrioOf, CalculateScore, RowOf, RowIs, Contains;
      var f := lists[k.src].files[k.name];
      if Contains(lists[k.dst], k.name) || f.directory || f.size == 0 {
        return;
      }
      AddReady(sc, lists, was, k);
      var row := RowOf(sc, lists, k, sc.speed(k.src.site, k.dst.site));
      PutRow(scoreboard.Rows, k, row.score, row.filesize, Anywhere(), AddRows(sc, was));
      scoreboard.Update(k, row.score, row.filesize, PrioOf(k.name));
    }

    /** l and the list c of another site, in both directions. */
    method AddToScoreBoardForSite(l: ListId, c: ListId, sc: Scoring, ghost was: Lists, ghost done: set<nat>)
      requires Boards() && l in was && c in was && lists.Keys >= was.Keys && ListsSound(was) && UploadsCounted(was[l])
      requires lists[l] == was[l] && lists[c] == was[c] && c == Peer(env, l, c.site) && Current(env, l)
      modifies scoreboard
      ensures Boards()
      ensures forall r0 ::
                Evolved(r0, old(scoreboard.Rows), SitePuts(env, was, l, done), Anywhere(), AddRows(sc, was)) ==>
                Evolved(r0, scoreboard.Rows, SitePuts(env, was, l, done + {c.site}), Anywhere(), AddRows(sc, was))
    {
      hide BoardOk, Evolved, Together, PriosOk, RowIs, Contains, PairPuts, Sound, UploadsCounted;
      ghost var newrow := AddRows(sc, was);
      ghost var s0 := scoreboard.Rows;
      EvolvedNot(s0, s0, Anywhere(), newrow);
      if TransferPossible(env, c, l) {
        AddToScoreBoardForPair(c, l, sc, was);
      }
      ghost var s1 := scoreboard.Rows;
      EvolvedNot(s1, s1, Anywhere(), newrow);
      if lists[l].uploadedfiles != 0 {
        if TransferPossible(env, l, c) {
          AddToScoreBoardForPair(l, c, sc, was);
        }
      } else {
        NothingToSend(env, was, l, c, s1, Anywhere(), newrow);
      }
      NextSitePuts(env, was, l, done, c.site);
      forall r0 | Evolved(r0, s0, SitePuts(env, was, l, done), Anywhere(), newrow)
        ensures Evolved(r0, scoreboard.Rows, SitePuts(env, was, l, done + {c.site}), Anywhere(), newrow)
      {
        Then(r0, s0, s1, SitePuts(env, was, l, done), InPuts(env, was, l, c), HalfPuts(env, was, l, done, c),
             Anywhere(), newrow);
        Then(r0, s1, scoreboard.Rows, HalfPuts(env, was, l, done, c), OutPuts(env, was, l, c),
             SitePuts(env, was, l, done + {c.site}), Anywhere(), newrow);
      }
    }

    /** The lists of was, and those that are still empty of sites in done. */
    ghost predicate Widened(was: Lists, l: ListId, done: set<nat>)
      reads this
    {
      && Enrolled() && Extended(env, was, lists)
      && (forall m :: m in was ==> m in lists && lists[m] == was[m])
      && (forall m :: m in lists && m !in was && SamePlace(m, l) ==> m.site in done)
    }

    /** The next site: its list takes part, or starts out empty. */
    method AddSite(l: ListId, site: nat, sc: Scoring, ghost was: Lists, ghost done: set<nat>)
      requires Boards() && Widened(was, l, done) && site !in done
      requires l in was && l.race in env.sites && site in env.sites[l.race]
      requires ListsSound(was) && UploadsCounted(was[l]) && Current(env, l)
      modifies this`lists, scoreboard
      ensures Boards() && Widened(was, l, done + {site})
      ensures forall r0 ::
                Evolved(r0, old(scoreboard.Rows), SitePuts(env, was, l, done), Anywhere(), AddRows(sc, was)) ==>
                Evolved(r0, scoreboard.Rows, SitePuts(env, was, l, done + {site}), Anywhere(), AddRows(sc, was))
    {
      hide BoardOk, Evolved, PriosOk, AddRows, SitePuts, ListsSound, UploadsCounted, InitialContent, Generation;
      var c := Peer(env, l, site);
      if c in lists {
        AddToScoreBoardForSite(l, c, sc, was, done);
      } else {
        AddSubDirectory(c);
        MissingSitePuts(env, was, l, done, site);
        forall r0 | Evolved(r0, old(scoreboard.Rows), SitePuts(env, was, l, done), Anywhere(), AddRows(sc, was))
          ensures Evolved(r0, scoreboard.Rows, SitePuts(env, was, l, done + {site}), Anywhere(), AddRows(sc, was))
        {
          EvolvedSame(r0, scoreboard.Rows, SitePuts(env, was, l, done), SitePuts(env, was, l, done + {site}),
                      Anywhere(), AddRows(sc, was));
        }
      }
    }

    method AddToScoreBoardForSites(l: ListId, sc: Scoring)
      requires Valid() && l in lists && ListsSound(lists) && UploadsCounted(lists[l]) && Current(env, l)
      modifies this`lists, scoreboard
      ensures Boards() && Widened(old(lists), l, env.sites[l.race])
      ensures Evolved(old(scoreboard.Rows), scoreboard.Rows, SitePuts(env, old(lists), l, env.sites[l.race]),
                      Anywhere(), AddRows(sc, old(lists)))
    {
      hide BoardOk, Evolved, PriosOk, AddRows, SitePuts, ListsSound, UploadsCounted, InitialContent;
      ghost var was, newrow, sites := lists, AddRows(sc, lists), env.sites[l.race];
      NoSitePutsYet(env, was, l, scoreboard.Rows, Anywhere(), newrow);
      var rest := env.sites[l.race];
      assert sites - rest == {};
      while rest != {}
        invariant Boards() && rest <= sites && Widened(was, l, sites - rest)
        invariant Evolved(old(scoreboard.Rows), scoreboard.Rows, SitePuts(env, was, l, sites - rest), Anywhere(),
                          newrow)
        modifies this`lists, scoreboard
      {
        var site :| site in rest;
        ghost var done := sites - rest;
        rest := rest - {site};
        assert sites - rest == done + {site};
        AddSite(l, site, sc, was, done);
      }
      assert sites - rest == sites;
    }

    /** Every possible transfer between l and the lists of its place goes on the board. */
    method AddToScoreBoard(l: ListId, sc: Scoring)
      requires Valid() && l in lists && lists[l].state != FAILED && Current(env, l)
      requires ListsSound(lists) && UploadsCounted(lists[l])
      modifies this`lists, this`inscoreboard, scoreboard
      ensures Valid() && Added(env, old(View()), l, View())
      ensures Evolved(old(scoreboard.Rows), scoreboard.Rows, SitePuts(env, old(lists), l, env.sites[l.race]),
                      Anywhere(), AddRows(sc, old(lists)))
      ensures old(InRange()) && Measured(sc, old(lists)) ==> InRange()
    {
      hide BoardOk, Evolved, PriosOk, AddRows, SitePuts, ListsSound, UploadsCounted, Extended, Added, ScoresOk,
        Measured;
      ghost var w := View();
      AddToScoreBoardForSites(l, sc);
      inscoreboard := inscoreboard + {l};
      AddedWorld(env, w, l, View(), old(scoreboard.Rows), scoreboard.Rows, Anywhere(), AddRows(sc, w.lists),
                 env.sites[l.race]);
      if old(InRange()) && Measured(sc, old(lists)) {
        AddInRange(env, sc, w.lists, l, env.sites[l.race], old(scoreboard.Rows), scoreboard.Rows, Anywhere());
      }
    }

    static lemma AddInRange(env: Env, sc: Scoring, lists: Lists, l: ListId, sites: set<nat>, r0: map<Key, Row>,
                            r1: map<Key, Row>, here: Key -> bool)
      requires ScoresOk(r0) && Measured(sc, lists)
      requires Evolved(r0, r1, SitePuts(env, lists, l, sites), here, AddRows(sc, lists))
      ensures ScoresOk(r1)
    {
      hide Evolved, ScoresOk, Measured, RowIs, SpeedTurns, Contains;
      ScoresKept(r0, r1, SitePuts(env, lists, l, sites), here, AddRows(sc, lists), env, sc, lists);
    }

    // ----- transfers that fail -----

    /** Takes a row over from another board. */
    method TakeOver(board: ScoreBoard, k: Key, row: Row)
      requires board.Valid() && PriosOk(board.Rows) && row.score < USHORT_MAX && row.prio == PrioOf(k.name)
      modifies board
      ensures board.Valid() && PriosOk(board.Rows)
      ensures board.Rows.Keys == old(board.Rows.Keys) + {k} && SameData(board.Rows[k], row)
      ensures forall q :: q in old(board.Rows) && q != k ==> SameData(board.Rows[q], old(board.Rows)[q])
    {
      hide BoardOk, PrioOf;
      board.Update(k, row.score, row.filesize, row.prio);
    }

    method Discard(board: ScoreBoard, k: Key)
      requires board.Valid() && PriosOk(board.Rows)
      modifies board
      ensures board.Valid() && PriosOk(board.Rows)
      ensures board.Rows.Keys == old(board.Rows.Keys) - {k}
      ensures forall q :: q in board.Rows ==> SameData(board.Rows[q], old(board.Rows)[q])
    {
      hide BoardOk, PrioOf;
      board.BoardBounds();
      var removed := board.Remove(k);
    }

    /** The element of a key that is on the board. */
    method ReadRow(board: ScoreBoard, k: Key) returns (row: Option<Row>)
      requires board.Valid() && PriosOk(board.Rows)
      ensures row.Some? <==> k in board.Rows
      ensures row.Some? ==>
                row.value == board.Rows[k] && row.value.score < USHORT_MAX && row.value.prio == PrioOf(k.name)
    {
      hide BoardOk, PrioOf;
      var sbe := board.Find(k);
      if sbe.None? {
        return None;
      }
      board.HeldId(k);
      return Some(board.pool[sbe.value].row);
    }

    /** A transfer of a race has ended, well or not. */
    method TransferAttempted(k: Key)
      requires Valid() && k.src.race == k.dst.race
      modifies attempts
      ensures Valid() && Tried(old(View()), k, View())
    {
      hide BoardOk, PriosOk;
      attempts.AddTransferAttempt(k);
    }

    /** A transfer that has been given up moves to the other board, with its score. */
    method TransferFailed(k: Key)
      requires Valid()
      modifies scoreboard, failboard
      ensures Valid() && View() == Failed(old(View()), k)
      ensures View() != old(View()) ==>
                Handed(old(scoreboard.Rows), old(failboard.Rows), scoreboard.Rows, failboard.Rows, {k}) &&
                Descending(scoreboard.Scores())
      ensures old(InRange()) ==> InRange()
    {
      hide BoardOk, PriosOk, PrioOf, Descending, LiveScores, GivenUp, ScoresOk, SameData;
      var failed := attempts.HasFailedTransfer(k);
      if failed {
        var row := ReadRow(scoreboard, k);
        if row.Some? {
          TakeOver(failboard, k, row.value);
          Discard(scoreboard, k);
          SortBoard();
          assert Handed(old(scoreboard.Rows), old(failboard.Rows), scoreboard.Rows, failboard.Rows, {k});
          if old(InRange()) {
            HandedScores(old(scoreboard.Rows), old(failboard.Rows), scoreboard.Rows, failboard.Rows, {k});
          }
        }
      }
    }

    /** The failed transfers of a race go back to the board that transfers are taken from. */
    method RestoreFromFailed(race: nat)
      requires Valid()
      modifies scoreboard, failboard
      ensures Valid()
      ensures var w, back := old(View()), FailedOf(old(View()), race);
              && View() == w.(score := w.score + back, fail := w.fail - back)
              && Handed(old(failboard.Rows), old(scoreboard.Rows), failboard.Rows, scoreboard.Rows, back)
      ensures Descending(scoreboard.Scores())
      ensures old(InRange()) ==> InRange()
    {
      hide BoardOk, PrioOf, Descending, LiveScores, PriosOk, ScoresOk, SameData;
      ghost var back, f0 := FailedOf(View(), race), failboard.Rows;
      var removelist := CopyBack(race);
      DiscardAll(failboard, removelist);
      BackKeys(removelist, f0, race);
      SortBoard();
      if old(InRange()) {
        HandedScores(old(failboard.Rows), old(scoreboard.Rows), failboard.Rows, scoreboard.Rows, back);
      }
    }

    static lemma BackKeys(removelist: seq<Key>, rows: map<Key, Row>, race: nat)
      requires forall k :: k in removelist <==> k in rows && k.src.race == race
      ensures NameKeys(removelist) == set k | k in rows.Keys && k.src.race == race
    {
    }

    method DiscardAll(board: ScoreBoard, keys: seq<Key>)
      requires board.Valid() && PriosOk(board.Rows)
      modifies board
      ensures board.Valid() && PriosOk(board.Rows)
      ensures board.Rows.Keys == old(board.Rows.Keys) - NameKeys(keys)
      ensures forall k :: k in board.Rows ==> SameData(board.Rows[k], old(board.Rows)[k])
    {
      hide BoardOk, PrioOf, PriosOk, SameData;
      SameItself(board.Rows);
      for i := 0 to |keys|
        invariant board.Valid() && PriosOk(board.Rows)
        invariant board.Rows.Keys == old(board.Rows.Keys) - NameKeys(keys[..i])
        invariant forall k :: k in board.Rows ==> SameData(board.Rows[k], old(board.Rows)[k])
        modifies board
      {
        ghost var was := board.Rows;
        Discard(board, keys[i]);
        SameThrough(old(board.Rows), was, board.Rows);
        assert keys[..i + 1] == keys[..i] + [keys[i]];
      }
      assert keys[..|keys|] == keys;
    }

    static lemma SameThrough(a: map<Key, Row>, b: map<Key, Row>, c: map<Key, Row>)
      requires c.Keys <= b.Keys <= a.Keys
      requires forall k :: k in b ==> SameData(b[k], a[k])
      requires forall k :: k in c ==> SameData(c[k], b[k])
      ensures forall k :: k in c ==> SameData(c[k], a[k])
    {
    }

    static function NameKeys(keys: seq<Key>): set<Key> {
      set k | k in keys
    }

    /** What the board has after some rows were copied to it. */
    static ghost predicate Copied(from: map<Key, Row>, to0: map<Key, Row>, to1: map<Key, Row>, keys: set<Key>) {
      && keys <= from.Keys && to1.Keys == to0.Keys + keys
      && forall k :: k in to1 ==> SameData(to1[k], if k in keys then from[k] else to0[k])
    }

    static lemma CopiedMore(from: map<Key, Row>, to0: map<Key, Row>, to1: map<Key, Row>, to2: map<Key, Row>,
                            keys: set<Key>, k: Key)
      requires Copied(from, to0, to1, keys) && k in from && k !in keys
      requires to2.Keys == to1.Keys + {k} && SameData(to2[k], from[k])
      requires forall q :: q in to1 && q != k ==> SameData(to2[q], to1[q])
      ensures Copied(from, to0, to2, keys + {k})
    {
    }

    /** Copies the failed transfers of a race, and says which they are. */
    method CopyBack(race: nat) returns (removelist: seq<Key>)
      requires Boards()
      modifies scoreboard
      ensures Boards()
      ensures forall k :: k in removelist <==> k in failboard.Rows && k.src.race == race
      ensures Copied(failboard.Rows, old(scoreboard.Rows), scoreboard.Rows, NameKeys(removelist))
    {
      hide BoardOk, PrioOf, SameData;
      removelist := [];
      SameItself(scoreboard.Rows);
      for i := 0 to failboard.showsize
        invariant Boards()
        invariant forall k :: k in removelist <==> k in failboard.Rows && k.src.race == race && failboard.Place(k) < i
        invariant Copied(failboard.Rows, old(scoreboard.Rows), scoreboard.Rows, NameKeys(removelist))
        modifies scoreboard
      {
        failboard.PlaceIs(i);
        failboard.ElementScore(i);
        var sbe := failboard.pool[failboard.elements[i]];
        if sbe.id.src.race == race {
          failboard.HeldId(sbe.id);
          ghost var was := scoreboard.Rows;
          TakeOver(scoreboard, sbe.id, sbe.row);
          CopiedMore(failboard.Rows, old(scoreboard.Rows), was, scoreboard.Rows, NameKeys(removelist), sbe.id);
          assert NameKeys(removelist + [sbe.id]) == NameKeys(removelist) + {sbe.id};
          removelist := removelist + [sbe.id];
        }
      }
    }

    static lemma SameItself(rows: map<Key, Row>)
      ensures forall k :: k in rows ==> SameData(rows[k], rows[k])
    {
    }

    /** Whatever a race gave up may be tried again. A race without attempts has given up
        nothing. */
    method RetryFailed(race: nat)
      requires Valid() && Inv(env, View()) && FailsGivenUp(View())
      modifies attempts, scoreboard, failboard
      ensures Valid() && View() == Retried(old(View()), race)
      ensures old(InRange()) ==> InRange()
    {
      hide BoardOk, PriosOk, Inv, GivenUp, ScoresOk, Forget, Descending, LiveScores;
      ghost var w := View();
      var any := attempts.ClearTransferAttempts(race, true);
      if any {
        RestoreFromFailed(race);
      } else {
        NothingGivenUp(env, w, race);
      }
    }

    static lemma NothingGivenUp(env: Env, w: World, race: nat)
      requires Inv(env, w) && FailsGivenUp(w) && forall k :: k in w.tries ==> k.dst.race != race
      ensures FailedOf(w, race) == {}
    {
      hide Inv, Tries;
      forall k | k in w.fail
        ensures k.src.race != race
      {
        BoardRace(env, w, k);
        TriedOnce(w.tries, AttemptKey(k.name, None, k.dst));
        TriedOnce(w.tries, AttemptKey(k.name, Some(k.src), k.dst));
      }
    }

    // ----- the end of a race -----

    /** Takes a list off one board. */
    method WipeFrom(board: ScoreBoard, l: ListId)
      requires board.Valid() && PriosOk(board.Rows)
      modifies board
      ensures board.Valid() && PriosOk(board.Rows)
      ensures board.Rows.Keys == set k | k in old(board.Rows) && !Mentions(k, l)
      ensures forall k :: k in board.Rows ==> SameData(board.Rows[k], old(board.Rows)[k])
    {
      hide BoardOk, PrioOf;
      board.Wipe(l);
    }

    method WipeLists(board: ScoreBoard, gone: set<ListId>)
      requires board.Valid() && PriosOk(board.Rows)
      modifies board
      ensures board.Valid() && PriosOk(board.Rows) && Wiped(old(board.Rows), board.Rows, gone)
    {
      hide BoardOk, PriosOk, Wiped, SameData, Mentions;
      var rest := gone;
      WipedNot(board.Rows);
      assert gone - rest == {};
      while rest != {}
        invariant board.Valid() && PriosOk(board.Rows) && rest <= gone &&
                  Wiped(old(board.Rows), board.Rows, gone - rest)
        modifies board
      {
        var l :| l in rest;
        ghost var was, done := board.Rows, gone - rest;
        WipeFrom(board, l);
        rest := rest - {l};
        assert gone - rest == done + {l};
        WipedMore(old(board.Rows), was, board.Rows, done, l);
      }
      assert gone - rest == gone;
    }

    /** Every list of a race that is over leaves the boards. */
    method RaceEnds(race: nat)
      requires Valid() && Inv(env, View())
      modifies this`over, scoreboard, failboard
      ensures Valid() && View() == Ended(old(View()), race)
      ensures old(InRange()) ==> InRange()
    {
      hide BoardOk, PriosOk, Inv, ScoresOk, WithoutRace;
      WipeFromScoreBoard(race);
      over := over + {race};
    }

    /** Every list that the race has leaves the boards, which are rid of the race then. */
    method WipeFromScoreBoard(race: nat)
      requires Valid() && Inv(env, View())
      modifies scoreboard, failboard
      ensures Valid()
      ensures View() == old(View()).(score := WithoutRace(old(View()).score, race),
                                     fail := WithoutRace(old(View()).fail, race))
      ensures old(InRange()) ==> InRange()
    {
      hide BoardOk, PriosOk, Inv, ScoresOk, Wiped, WithoutRace;
      ghost var w := View();
      var all := set l | l in lists && l.race == race && Current(env, l);
      WipeLists(scoreboard, all);
      WipeLists(failboard, all);
      WipedRace(env, w, race, all, scoreboard.Rows, failboard.Rows, old(scoreboard.Rows), old(failboard.Rows));
    }

    /** A race starts again: nothing of it is on the boards or has been tried, and it has
        other lists from now on. Marks of the old lists stay. */
    method ResetRace(race: nat)
      requires Valid() && Inv(env, View())
      modifies this`env, this`over, attempts, scoreboard, failboard
      ensures Valid() && View() == RaceReset(old(View()), race) && env == Renewed(old(env), race)
      ensures Inv(env, View())
      ensures old(InRange()) ==> InRange()
    {
      hide BoardOk, PriosOk, Inv, ScoresOk, Forget, WithoutRace, Renewed;
      ghost var w := View();
      RaceResetKeeps(env, w, race);
      RenewedSites(env, race);
      WipeFromScoreBoard(race);
      var any := attempts.ClearTransferAttempts(race, false);
      env := Renewed(env, race);
      over := over - {race};
    }

    static lemma RenewedSites(env: Env, race: nat)
      ensures Renewed(env, race).sites == env.sites
    {
    }

    static lemma WipedNot(rows: map<Key, Row>)
      ensures Wiped(rows, rows, {})
    {
    }

    static ghost predicate Wiped(r0: map<Key, Row>, r1: map<Key, Row>, gone: set<ListId>) {
      && (forall k :: k in r1 <==> k in r0 && k.src !in gone && k.dst !in gone)
      && (forall k :: k in r1 ==> SameData(r1[k], r0[k]))
    }

    static lemma WipedMore(r0: map<Key, Row>, r1: map<Key, Row>, r2: map<Key, Row>, gone: set<ListId>, l: ListId)
      requires Wiped(r0, r1, gone) && r2.Keys == (set k | k in r1 && !Mentions(k, l))
      requires forall k :: k in r2 ==> SameData(r2[k], r1[k])
      ensures Wiped(r0, r2, gone + {l})
    {
      forall k
        ensures k in r2 <==> k in r1 && k.src != l && k.dst != l
      {
        assert k in r2 <==> k in r2.Keys;
      }
    }

    static lemma WipedRace(env: Env, w: World, race: nat, all: set<ListId>, s: map<Key, Row>, f: map<Key, Row>,
                           s0: map<Key, Row>, f0: map<Key, Row>)
      requires Inv(env, w) && all == (set l | l in w.lists && l.race == race && Current(env, l))
      requires w.score == s0.Keys && w.fail == f0.Keys && Wiped(s0, s, all) && Wiped(f0, f, all)
      ensures s.Keys == WithoutRace(w.score, race) && f.Keys == WithoutRace(w.fail, race)
      ensures ScoresOk(s0) && ScoresOk(f0) ==> ScoresOk(s) && ScoresOk(f)
    {
      hide Inv, ScoreOk, SameData, Current;
      forall k | OnBoard(w, k)
        ensures k.src in all || k.dst in all <==> k.src.race == race || k.dst.race == race
      {
        BoardLists(env, w, k);
      }
      if ScoresOk(s0) && ScoresOk(f0) {
        forall k | k in s
          ensures ScoreOk(k, s[k])
        {
          SameScore(k, s[k], s0[k]);
        }
        forall k | k in f
          ensures ScoreOk(k, f[k])
        {
          SameScore(k, f[k], f0[k]);
        }
      }
    }

    static lemma BoardLists(env: Env, w: World, k: Key)
      requires Inv(env, w) && OnBoard(w, k)
      ensures Attached(env, w.lists, k)
    {
    }

    // ----- a list was refreshed -----

    /** A list of the race on that site that belongs on the boards and is not there yet. */
    predicate Joins(fl: ListId, l: ListId)
      reads this
    {
      && l in lists && l.race == fl.race && l.site == fl.site && Current(env, l)
      && l !in inscoreboard && lists[l].state != FAILED && (l == fl || lists[l].state == NONEXISTENT)
    }

    method AddList(l: ListId, sc: Scoring, ghost pending: set<ListId>)
      requires Valid() && Inv(env, View()) && l in lists && Usable(lists[l].state) && Current(env, l)
      requires UploadsCounted(lists[l])
      modifies this`lists, this`inscoreboard, scoreboard
      ensures Valid() && Inv(env, View()) && NoWorse(old(View()), View(), pending)
      ensures forall m :: m in old(lists) ==> m in lists && lists[m] == old(lists)[m]
      ensures inscoreboard == old(inscoreboard) + {l}
      ensures old(InRange()) && Measured(sc, old(lists)) ==> InRange() && Measured(sc, lists)
    {
      hide BoardOk, NoWorse, PriosOk, CaseClean, Calm, NothingStray, NothingMissing, NothingLost, NothingAhead, Sound,
        UploadsCounted, ScoresOk, Measured, Evolved;
      ghost var w := View();
      AddToScoreBoard(l, sc);
      AddedLeaves(env, w, l, View(), pending);
      MeasuredMore(env, sc, w.lists, lists);
    }

    /** A list that is still empty is in range. */
    static lemma MeasuredMore(env: Env, sc: Scoring, lists: Lists, more: Lists)
      requires Measured(sc, lists) ==> Extended(env, lists, more) && forall l :: l in lists ==> more[l] == lists[l]
      ensures Measured(sc, lists) ==> Measured(sc, more)
    {
    }

    /** The lists that join count their uploads right. */
    ghost predicate JoiningCounted(fl: ListId)
      requires ListsSound(lists)
      reads this
    {
      forall l :: Joins(fl, l) ==> UploadsCounted(lists[l])
    }

    method AddIfJoins(fl: ListId, l: ListId, sc: Scoring, ghost pending: set<ListId>)
      requires Valid() && Inv(env, View()) && l in lists && (l == fl ==> Usable(lists[l].state))
      requires ListsSound(lists) && (Joins(fl, l) ==> UploadsCounted(lists[l]))
      modifies this`lists, this`inscoreboard, scoreboard
      ensures Valid() && Inv(env, View()) && NoWorse(old(View()), View(), pending)
      ensures forall m :: m in old(lists) ==> m in lists && lists[m] == old(lists)[m]
      ensures inscoreboard == old(inscoreboard) + if old(Joins(fl, l)) then {l} else {}
      ensures old(InRange()) && Measured(sc, old(lists)) ==> InRange() && Measured(sc, lists)
    {
      hide BoardOk, Inv, AllPending, PriosOk, ScoresOk, Measured, UploadsCounted, Sound, Current;
      if Joins(fl, l) {
        AddList(l, sc, pending);
      }
    }

    /** The lists that join the boards are those that Joins says. */
    method AddLists(fl: ListId, sc: Scoring, ghost pending: set<ListId>)
      requires Valid() && Inv(env, View()) && fl in lists && Usable(lists[fl].state) && JoiningCounted(fl)
      modifies this`lists, this`inscoreboard, scoreboard
      ensures Valid() && Inv(env, View()) && NoWorse(old(View()), View(), pending)
      ensures forall m :: m in old(lists) ==> m in lists && lists[m] == old(lists)[m]
      ensures forall l :: l in inscoreboard <==> l in old(inscoreboard) || old(Joins(fl, l))
      ensures old(InRange()) && Measured(sc, old(lists)) ==> InRange() && Measured(sc, lists)
    {
      hide BoardOk, Inv, NoWorse, PriosOk, ScoresOk, Measured, UploadsCounted, Sound, Current, ListsSound, Valid,
        InRange, Generation, Usable;
      SoundLists(env, View());
      ghost var w := View();
      NoWorseSame(w, pending);
      ghost var joining := set l | l in lists && Joins(fl, l);
      var rest := set l | l in lists && l.race == fl.race && l.site == fl.site && Current(env, l);
      ghost var all := rest;
      while rest != {}
        invariant Valid() && Inv(env, View()) && NoWorse(w, View(), pending) && rest <= all
        invariant forall m :: m in old(lists) ==> m in lists && lists[m] == old(lists)[m]
        invariant inscoreboard == old(inscoreboard) + joining * (all - rest)
        invariant old(InRange()) && Measured(sc, old(lists)) ==> InRange() && Measured(sc, lists)
        modifies this`lists, this`inscoreboard, scoreboard
      {
        var l :| l in rest;
        rest := rest - {l};
        ghost var was := View();
        SoundLists(env, was);
        assert Joins(fl, l) <==> l in joining;
        AddIfJoins(fl, l, sc, pending);
        NoWorseThen(w, was, View(), pending);
      }
    }

    static lemma SoundLists(env: Env, w: World)
      requires Inv(env, w)
      ensures ListsSound(w.lists)
    {
    }

    method MarkChanged(fl: ListId)
      requires Valid() && Inv(env, View()) && fl in lists
      modifies this`spreadjobfilelistschanged
      ensures Valid() && Inv(env, View())
      ensures View() == old(View()).(pending := old(WithChanged(fl)))
    {
      hide BoardOk, Inv, PriosOk;
      ghost var w := View();
      if lists[fl].boardstate == CHANGED {
        spreadjobfilelistschanged := spreadjobfilelistschanged + {fl};
        MarkedKeeps(env, w, fl, View());
      }
    }

    /** The pending lists once fl was read again. */
    function WithChanged(fl: ListId): set<ListId>
      requires fl in lists
      reads this
    {
      spreadjobfilelistschanged + if lists[fl].boardstate == CHANGED then {fl} else {}
    }

    method WorkIn(overload: bool, sc: Scoring)
      requires Valid() && Inv(env, View())
      modifies this`lists, this`inscoreboard, this`spreadjobfilelistschanged, scoreboard, failboard
      ensures Valid() && Inv(env, View()) && inscoreboard == old(inscoreboard)
      ensures !overload && AllPending(old(View())) ==>
                && InSyncButHollow(env, View()) && (forall k :: Hollow(View(), k) <==> old(Hollow(View(), k)))
                && (InSync(env, View()) <==>
                    (forall k :: !old(Hollow(View(), k))) && (forall k :: !old(Leftover(env, View(), k))))
      ensures Descending(scoreboard.Scores())
      ensures old(InRange()) && Measured(sc, old(lists)) ==> InRange() && SortedFirst()
    {
      hide BoardOk, AllPending, PriosOk, Inv, InSyncButHollow, InSync, Hollow, Leftover, Drained, ScoresOk, Descending,
        Evolved, Measured, SortedFirst;
      if !overload {
        ghost var w := View();
        UpdateScoreBoard(sc);
        DrainedReady(env, w, View());
      } else {
        SortBoard();
        if old(InRange()) {
          PriorityFilesFirst();
        }
      }
    }

    /** A list was read again: it joins the boards if it was not on them and its race still
        has it, with the lists of its site that are known to be missing, and unless the
        engine is too busy all pending changes are worked in. */
    method JobFileListRefreshed(fl: ListId, overload: bool, sc: Scoring)
      requires Valid() && Inv(env, View()) && fl in lists && Usable(lists[fl].state) && JoiningCounted(fl)
      modifies this`lists, this`inscoreboard, this`spreadjobfilelistschanged, scoreboard, failboard
      ensures Valid() && Inv(env, View())
      ensures Current(env, fl) ==> fl in inscoreboard
      ensures forall l :: l in inscoreboard <==> l in old(inscoreboard) || old(Joins(fl, l))
      ensures forall l :: l in old(lists) && l.race == fl.race && l.site == fl.site && Current(env, l) ==>
                old(lists)[l].state == NONEXISTENT ==> l in inscoreboard
      ensures !overload && old(AllPending(View().(pending := WithChanged(fl)))) ==> InSyncButHollow(env, View())
      ensures Descending(scoreboard.Scores())
      ensures old(InRange()) && Measured(sc, old(lists)) ==> InRange() && SortedFirst()
    {
      hide BoardOk, AllPending, PriosOk, Inv, InSyncButHollow, InSync, ScoresOk, Measured, SortedFirst, Hollow,
        Leftover, JoiningCounted, Descending, LiveScores;
      ghost var pending := WithChanged(fl);
      AddLists(fl, sc, pending);
      MarkChanged(fl);
      WorkIn(overload, sc);
    }

    // ----- the clock -----

    /** Every transfer is scored again, by the readings of now. */
    method RefreshScoreBoard(sc: Scoring)
      requires Valid() && Inv(env, View())
      modifies scoreboard
      ensures Valid() && View() == old(View())
      ensures forall k :: k in scoreboard.Rows ==>
                k.dst in lists && scoreboard.Rows[k] == Rescored(sc, lists, k, old(scoreboard.Rows)[k])
      ensures Descending(scoreboard.Scores())
      ensures Measured(sc, lists) ==> ScoresOk(scoreboard.Rows) && SortedFirst()
    {
      hide BoardOk, PriosOk, Inv, ScoresOk, Measured, SortedFirst, Descending, LiveScores, Rescored;
      RescoreAll(sc);
      SortBoard();
      if Measured(sc, lists) {
        RescoredRows(env, sc, old(View()), old(scoreboard.Rows), scoreboard.Rows);
        PriorityFilesFirst();
      }
    }

    /** What is scored again after the first i places. */
    ghost predicate RescoredTo(sc: Scoring, r0: map<Key, Row>, i: nat)
      requires scoreboard.Valid()
      reads this, scoreboard
    {
      && scoreboard.Rows.Keys == r0.Keys
      && forall k :: k in scoreboard.Rows ==>
           k.dst in lists && scoreboard.Rows[k] == if scoreboard.Place(k) < i then Rescored(sc, lists, k, r0[k])
             else r0[k]
    }

    method RescoreAt(i: nat, sc: Scoring, ghost r0: map<Key, Row>)
      requires Boards() && i < scoreboard.showsize && RescoredTo(sc, r0, i)
      modifies scoreboard`pool, scoreboard`Rows
      ensures Boards() && RescoredTo(sc, r0, i + 1)
    {
      hide BoardOk, Rescored, PriosOk;
      scoreboard.PlaceIs(i);
      scoreboard.HeldPlace(i);
      var sbe := scoreboard.elements[i];
      var k := scoreboard.pool[sbe].id;
      scoreboard.HeldId(k);
      RescoredFits(sc, lists, k, scoreboard.pool[sbe].row);
      PriosSet(scoreboard.Rows, k, Rescored(sc, lists, k, scoreboard.pool[sbe].row));
      scoreboard.SetRow(sbe, k, Rescored(sc, lists, k, scoreboard.pool[sbe].row));
    }

    static lemma PriosSet(rows: map<Key, Row>, k: Key, row: Row)
      requires PriosOk(rows) && k in rows && row.prio == rows[k].prio
      ensures PriosOk(rows[k := row])
    {
      hide PrioOf;
    }

    static lemma RescoredFits(sc: Scoring, lists: Lists, k: Key, row: Row)
      requires k.dst in lists
      ensures Rescored(sc, lists, k, row).score < USHORT_MAX && Rescored(sc, lists, k, row).prio == row.prio
    {
      hide CalculateScore;
    }

    method RescoreAll(sc: Scoring)
      requires Boards() && Inv(env, View())
      modifies scoreboard
      ensures Boards() && scoreboard.Rows.Keys == old(scoreboard.Rows).Keys
      ensures forall k :: k in scoreboard.Rows ==>
                k.dst in lists && scoreboard.Rows[k] == Rescored(sc, lists, k, old(scoreboard.Rows)[k])
    {
      hide BoardOk, Inv, Rescored, PriosOk;
      KeysListed(env, View());
      for i := 0 to scoreboard.showsize
        invariant Boards() && RescoredTo(sc, old(scoreboard.Rows), i)
        modifies scoreboard`pool, scoreboard`Rows
      {
        RescoreAt(i, sc, old(scoreboard.Rows));
      }
    }

    static lemma KeysListed(env: Env, w: World)
      requires Inv(env, w)
      ensures forall k :: k in w.score ==> k.src in w.lists && k.dst in w.lists && k.src.race == k.dst.race
    {
      hide Inv;
      forall k | k in w.score
        ensures k.src in w.lists && k.dst in w.lists && k.src.race == k.dst.race
      {
        BoardLists(env, w, k);
      }
    }

    static lemma RescoredRows(env: Env, sc: Scoring, w: World, r0: map<Key, Row>, r1: map<Key, Row>)
      requires Inv(env, w) && w.score == r0.Keys == r1.Keys && Measured(sc, w.lists) && PriosOk(r0)
      requires forall k :: k in r1 ==> k.dst in w.lists && r1[k] == Rescored(sc, w.lists, k, r0[k])
      ensures ScoresOk(r1)
    {
      hide Inv, Measured, Rescored, ScoreOk, PrioOf;
      KeysListed(env, w);
      forall k | k in r1
        ensures ScoreOk(k, r1[k])
      {
        RescoredOk(sc, w.lists, k, r0[k]);
      }
    }
  }
}
