/** The boards over whole runs of the engine: file lists change in any way they can,
    lists and races come and go, and maintenance happens at any time. */
module BoardRuns {
  import opened Base
  import opened FileListContent
  import opened FileListRuns
  import opened BoardSync
  import opened TransferAttempts

  // ----- steps -----

  /** Any operations on one list, after which it is known. */
  ghost predicate Edited(env: Env, w: World, l: ListId, c: Content, w': World) {
    && l in w.lists && Sound(c) && Tracks(w.lists[l], c) && Alerts(w.lists[l], c) && Usable(c.state)
    && w' == w.(lists := w.lists[l := c])
    && CaseClean(w'.lists)
  }

  /** Any run of the operations of a list is such an edit. */
  lemma RunIsEdit(env: Env, w: World, l: ListId, ops: seq<ListOp>)
    requires l in w.lists && Sound(w.lists[l]) && Usable(Run(w.lists[l], ops).state)
    requires CaseClean(w.lists[l := Run(w.lists[l], ops)])
    ensures Edited(env, w, l, Run(w.lists[l], ops), w.(lists := w.lists[l := Run(w.lists[l], ops)]))
  {
    hide Run, Sound, CaseClean, Tracks, Alerts;
    RunTracks(w.lists[l], ops);
    RunAlerts(w.lists[l], ops);
  }

  ghost predicate NewList(env: Env, w: World, l: ListId, w': World) {
    && l !in w.lists && Current(env, l)
    && w' == w.(lists := w.lists[l := InitialContent(env.user(l.site), UNKNOWN)])
  }

  ghost predicate MarkedPending(w: World, l: ListId, w': World) {
    l in w.lists && w' == w.(pending := w.pending + {l})
  }

  /** One more transfer of a race was tried. */
  ghost predicate Tried(w: World, k: Key, w': World) {
    k.src.race == k.dst.race && w' == w.(tries := w.tries + [k])
  }

  /** A transfer that was given up changes boards. */
  function Failed(w: World, k: Key): World {
    if GivenUp(w.tries, k) && k in w.score then w.(score := w.score - {k}, fail := w.fail + {k}) else w
  }

  function FailedOf(w: World, race: nat): set<Key> {
    set k | k in w.fail && k.src.race == race
  }

  /** The transfers of a race that were given up may be tried again. */
  function Retried(w: World, race: nat): World {
    w.(tries := Forget(w.tries, race), score := w.score + FailedOf(w, race), fail := w.fail - FailedOf(w, race))
  }

  function WithoutRace(keys: set<Key>, race: nat): set<Key> {
    set k | k in keys && k.src.race != race && k.dst.race != race
  }

  /** A race is over: every key that mentions one of its lists is gone from the boards. Its
      lists stay, and so do their marks. */
  function Ended(w: World, race: nat): World {
    w.(score := WithoutRace(w.score, race), fail := WithoutRace(w.fail, race), over := w.over + {race})
  }

  /** A race starts again, with nothing tried. From now on it has other lists; the old ones
      and their marks stay. */
  function RaceReset(w: World, race: nat): World {
    w.(score := WithoutRace(w.score, race), fail := WithoutRace(w.fail, race), over := w.over - {race},
       tries := Forget(w.tries, race))
  }

  datatype Event =
    | Edit(list: ListId, content: Content)
    | Discover(list: ListId)
    | Mark(list: ListId)
    | AddList(list: ListId)
    | Drain
    | Attempt(key: Key)
    | Fail(key: Key)
    | Retry(race: nat)
    | EndRace(race: nat)
    | ResetRace(race: nat)

  function NextEnv(env: Env, e: Event): Env {
    if e.ResetRace? then Renewed(env, e.race) else env
  }

  ghost predicate Step(env: Env, w: World, e: Event, w': World) {
    match e
    case Edit(l, c) => Edited(env, w, l, c, w')
    case Discover(l) => NewList(env, w, l, w')
    case Mark(l) => MarkedPending(w, l, w')
    case AddList(l) => l in w.lists && Current(env, l) && Usable(w.lists[l].state) && Added(env, w, l, w')
    case Drain => Drained(env, w, w')
    case Attempt(k) => Tried(w, k, w')
    case Fail(k) => w' == Failed(w, k)
    case Retry(r) => w' == Retried(w, r)
    case EndRace(r) => w' == Ended(w, r)
    case ResetRace(r) => w' == RaceReset(w, r)
  }

  // ----- each step keeps the agreement -----

  lemma EditedObserve(env: Env, w: World, l: ListId, c: Content, w': World, k: Key)
    requires Edited(env, w, l, c, w') && ListsSound(w.lists) && CaseClean(w.lists)
    requires k.src in w.lists && k.dst in w.lists && !Dirty(w'.lists, k)
    ensures !Dirty(w.lists, k)
    ensures SourceHas(w'.lists, k) <==> SourceHas(w.lists, k)
    ensures k.name in w'.lists[k.dst].files <==> k.name in w.lists[k.dst].files
  {
    hide CaseClean, ToLower, Sound;
    NameSettled(w.lists[l], c, k.name);
  }

  /** A name that is not unsettled was not before, and is as it was. */
  lemma NameSettled(c: Content, d: Content, name: string)
    requires Tracks(c, d) && Alerts(c, d)
    ensures !Unsettled(d, name) ==> !Unsettled(c, name) && Outline(c.files, name) == Outline(d.files, name)
    ensures name in Names(c) ==> name in Names(d)
  {
    assert Observe(c.files, name) == Observe(d.files, name) || name in d.changed;
  }

  lemma EditedStands(env: Env, w: World, l: ListId, c: Content, w': World, k: Key)
    requires Inv(env, w) && Edited(env, w, l, c, w') && OnBoard(w, k) && !Replaced(env, k)
    ensures Stands(env, w'.lists, k)
  {
    hide ToLower, CaseClean, NothingMissing, Sound, Tracks, Alerts, Names;
    assert Stands(env, w.lists, k);
    assert ListsSound(w'.lists);
    NameSettled(w.lists[l], c, k.name);
    NamesOf(w.lists[k.src], k.name);
    LookupIsExact(w'.lists, k.dst, k.src, k.name);
    LookupIsExact(w.lists, k.dst, k.src, k.name);
  }

  lemma NamesOf(c: Content, name: string)
    ensures name in c.files || Unsettled(c, name) ==> name in Names(c)
  {
  }

  lemma EditedWanted(env: Env, w: World, l: ListId, c: Content, w': World, k: Key)
    requires Inv(env, w) && Edited(env, w, l, c, w')
    requires Wanted(env, w'.lists, k) && Boarded(w, k) && !Dirty(w'.lists, k)
    ensures OnBoard(w, k)
  {
    hide ToLower, CaseClean, Sound, NothingStray, Tracks, Alerts;
    EditedObserve(env, w, l, c, w', k);
    assert ListsSound(w'.lists);
    LookupIsExact(w'.lists, k.dst, k.src, k.name);
    LookupIsExact(w.lists, k.dst, k.src, k.name);
  }

  lemma EditedLists(env: Env, w: World, l: ListId, c: Content, w': World)
    requires ListsSound(w.lists) && Calm(w) && Edited(env, w, l, c, w')
    ensures ListsSound(w'.lists) && CaseClean(w'.lists) && Calm(w')
  {
    hide CaseClean, Sound, Tracks, Alerts;
  }

  lemma EditedKeeps(env: Env, w: World, l: ListId, c: Content, w': World)
    requires Inv(env, w) && Edited(env, w, l, c, w')
    ensures Inv(env, w')
  {
    hide Stands, Wanted, Dirty, ListsSound, CaseClean, Calm, Edited, Replaced, Attached, NothingLost, NothingAhead;
    EditedLists(env, w, l, c, w');
    EditedBoards(env, w, l, c, w');
    StillAttached(env, w, w');
    forall k | OnBoard(w', k) && !Replaced(env, k)
      ensures Stands(env, w'.lists, k)
    {
      EditedStands(env, w, l, c, w', k);
    }
    forall k | Wanted(env, w'.lists, k) && Boarded(w', k) && !Dirty(w'.lists, k)
      ensures OnBoard(w', k)
    {
      EditedWanted(env, w, l, c, w', k);
    }
  }

  lemma EditedBoards(env: Env, w: World, l: ListId, c: Content, w': World)
    requires Edited(env, w, l, c, w')
    ensures w'.score == w.score && w'.fail == w.fail && w'.inscoreboard == w.inscoreboard && w'.over == w.over
    ensures forall m :: m in w'.lists <==> m in w.lists
  {
  }

  /** More lists and no new keys. */
  lemma StillAttached(env: Env, w: World, w': World)
    requires NothingLost(env, w) && NothingAhead(env, w.lists)
    requires forall l :: l in w.lists ==> l in w'.lists
    requires forall l :: l in w'.lists && l !in w.lists ==> Current(env, l)
    requires forall k :: OnBoard(w', k) ==> OnBoard(w, k) || Attached(env, w.lists, k)
    ensures NothingLost(env, w') && NothingAhead(env, w'.lists)
  {
    hide Current, OnBoard;
    forall k | OnBoard(w', k)
      ensures Attached(env, w'.lists, k)
    {
      assert Attached(env, w.lists, k);
    }
    forall l | l in w'.lists
      ensures l.generation <= Generation(env, l.race)
    {
      if l !in w.lists {
        CurrentNow(env, l);
      }
    }
  }

  lemma CurrentNow(env: Env, l: ListId)
    requires Current(env, l)
    ensures l.generation == Generation(env, l.race)
  {
  }

  /** The lists got company of lists that are still empty, and nothing else. */
  lemma ExtendedLists(env: Env, w: World, more: Lists)
    requires ListsSound(w.lists) && CaseClean(w.lists) && Calm(w) && Extended(env, w.lists, more)
    requires forall l :: l in w.lists ==> more[l] == w.lists[l]
    ensures ListsSound(more) && CaseClean(more)
    ensures forall l :: l in more && l !in w.lists ==>
              more[l].state == UNKNOWN && more[l].files == map[] && more[l].changed == {}
  {
    hide CaseClean, Names;
    NoNames(env);
    FewerNames(w.lists, more);
  }

  lemma NoNames(env: Env)
    ensures forall site :: Names(InitialContent(env.user(site), UNKNOWN)) == {}
  {
  }

  lemma ExtendedStands(env: Env, lists: Lists, more: Lists, k: Key)
    requires lists.Keys <= more.Keys && forall l :: l in lists ==> more[l] == lists[l]
    ensures Stands(env, lists, k) ==> Stands(env, more, k)
    ensures k.src in lists && k.dst in lists ==>
              (Wanted(env, more, k) <==> Wanted(env, lists, k)) && (Dirty(more, k) <==> Dirty(lists, k))
  {
    hide ToLower;
  }

  lemma NewListKeeps(env: Env, w: World, l: ListId, w': World)
    requires Inv(env, w) && NewList(env, w, l, w')
    ensures Inv(env, w')
  {
    hide Stands, Wanted, Dirty, ListsSound, CaseClean, Replaced, Attached, NothingLost, NothingAhead, Current;
    ExtendedLists(env, w, w'.lists);
    StillAttached(env, w, w');
    forall k
      ensures Stands(env, w.lists, k) ==> Stands(env, w'.lists, k)
      ensures k.src in w.lists && k.dst in w.lists ==>
                (Wanted(env, w'.lists, k) <==> Wanted(env, w.lists, k)) && (Dirty(w'.lists, k) <==> Dirty(w.lists, k))
    {
      ExtendedStands(env, w.lists, w'.lists, k);
    }
  }

  lemma WantedStands(env: Env, w: World, k: Key)
    requires Calm(w) && Wanted(env, w.lists, k) && Usable(w.lists[k.dst].state)
    ensures Stands(env, w.lists, k)
  {
    hide ToLower;
  }

  lemma AddedKeeps(env: Env, w: World, l: ListId, w': World)
    requires Inv(env, w) && Added(env, w, l, w') && Usable(w.lists[l].state)
    ensures Inv(env, w')
  {
    hide Stands, Wanted, Dirty, ListsSound, CaseClean, Replaced, Attached, NothingLost, NothingAhead, Current;
    ExtendedLists(env, w, w'.lists);
    forall k
      ensures Stands(env, w.lists, k) ==> Stands(env, w'.lists, k)
      ensures k.src in w.lists && k.dst in w.lists ==>
                (Wanted(env, w'.lists, k) <==> Wanted(env, w.lists, k)) && (Dirty(w'.lists, k) <==> Dirty(w.lists, k))
    {
      ExtendedStands(env, w.lists, w'.lists, k);
    }
    forall k | AddedBy(env, w.lists, l, k)
      ensures Stands(env, w.lists, k) && Attached(env, w.lists, k)
    {
      WantedStands(env, w, k);
      WantedPlaced(env, w.lists, k);
    }
    StillAttached(env, w, w');
  }

  lemma MarkedKeeps(env: Env, w: World, l: ListId, w': World)
    requires Inv(env, w) && MarkedPending(w, l, w')
    ensures Inv(env, w')
  {
    hide Stands, Wanted, Dirty, ListsSound, CaseClean;
  }

  /** Neither the attempts nor which of the boards a key is on matter to the agreement. */
  lemma SameKeysKeep(env: Env, w: World, w': World)
    requires Inv(env, w) && w' == w.(score := w'.score, fail := w'.fail, tries := w'.tries)
    requires forall k :: OnBoard(w', k) <==> OnBoard(w, k)
    ensures Inv(env, w')
  {
    hide Stands, Wanted, Dirty, ListsSound, CaseClean, OnBoard;
    forall k
      ensures Boarded(w', k) <==> Boarded(w, k)
    {
    }
  }

  lemma FailedKeeps(env: Env, w: World, k: Key)
    requires Inv(env, w)
    ensures Inv(env, Failed(w, k))
  {
    hide Inv, GivenUp;
    SameKeysKeep(env, w, Failed(w, k));
  }

  lemma RetriedKeeps(env: Env, w: World, race: nat)
    requires Inv(env, w)
    ensures Inv(env, Retried(w, race))
  {
    hide Inv;
    SameKeysKeep(env, w, Retried(w, race));
  }

  lemma WithoutRaceOn(w: World, w': World, race: nat, k: Key)
    requires w'.score == WithoutRace(w.score, race) && w'.fail == WithoutRace(w.fail, race)
    ensures OnBoard(w', k) <==> OnBoard(w, k) && k.src.race != race && k.dst.race != race
  {
  }

  lemma EndedKeeps(env: Env, w: World, race: nat)
    requires Inv(env, w)
    ensures Inv(env, Ended(w, race))
  {
    hide Stands, Wanted, Dirty, ListsSound, CaseClean, OnBoard, WithoutRace;
    var w' := Ended(w, race);
    forall k
      ensures OnBoard(w', k) <==> OnBoard(w, k) && k.src.race != race && k.dst.race != race
      ensures Boarded(w', k) && Wanted(env, w.lists, k) ==> Boarded(w, k) && k.src.race != race && k.dst.race != race
    {
      WithoutRaceOn(w, w', race, k);
      if Wanted(env, w.lists, k) {
        WantedPlaced(env, w.lists, k);
      }
    }
  }

  /** What holds between lists of other races, or of one that is not reset, is not touched. */
  lemma OtherRace(env: Env, w: World, race: nat, k: Key)
    requires k.src.race != race && k.dst.race != race
    ensures var next := Renewed(env, race);
            && (Replaced(next, k) <==> Replaced(env, k))
            && (Stands(next, w.lists, k) <==> Stands(env, w.lists, k))
            && (Wanted(next, w.lists, k) <==> Wanted(env, w.lists, k))
            && (Attached(next, w.lists, k) <==> Attached(env, w.lists, k))
  {
    hide ToLower;
  }

  /** The race has no list yet that is of its new generation. */
  lemma NothingWanted(env: Env, w: World, race: nat, k: Key)
    requires NothingAhead(env, w.lists) && Wanted(Renewed(env, race), w.lists, k)
    ensures k.src.race != race && k.dst.race != race
  {
    hide Contains;
  }

  lemma RaceResetKeeps(env: Env, w: World, race: nat)
    requires Inv(env, w)
    ensures Inv(Renewed(env, race), RaceReset(w, race))
  {
    hide Stands, Wanted, Dirty, CaseClean, ListsSound, OnBoard, WithoutRace, Forget, Replaced, Attached;
    var next, w' := Renewed(env, race), RaceReset(w, race);
    forall k
      ensures OnBoard(w', k) <==> OnBoard(w, k) && k.src.race != race && k.dst.race != race
      ensures Wanted(next, w.lists, k) ==> k.src.race != race && k.dst.race != race
    {
      WithoutRaceOn(w, w', race, k);
      if Wanted(next, w.lists, k) {
        NothingWanted(env, w, race, k);
      }
    }
    forall k: Key | k.src.race != race && k.dst.race != race
      ensures Replaced(next, k) <==> Replaced(env, k)
      ensures Stands(next, w.lists, k) <==> Stands(env, w.lists, k)
      ensures Wanted(next, w.lists, k) <==> Wanted(env, w.lists, k)
      ensures Attached(next, w.lists, k) <==> Attached(env, w.lists, k)
    {
      OtherRace(env, w, race, k);
    }
  }

  lemma WantedPlaced(env: Env, lists: Lists, k: Key)
    requires Wanted(env, lists, k)
    ensures Attached(env, lists, k) && Current(env, k.src) && Current(env, k.dst)
  {
    hide Contains;
  }

  lemma StepKeeps(env: Env, w: World, e: Event, w': World)
    requires Inv(env, w) && Step(env, w, e, w')
    ensures Inv(NextEnv(env, e), w')
  {
    hide Inv, Edited, NewList, MarkedPending, Added, Drained, Failed, Retried, Ended, RaceReset;
    match e
    case Edit(l, c) => EditedKeeps(env, w, l, c, w');
    case Discover(l) => NewListKeeps(env, w, l, w');
    case Mark(l) => MarkedKeeps(env, w, l, w');
    case AddList(l) => AddedKeeps(env, w, l, w');
    case Drain => DrainKeeps(env, w, w');
    case Attempt(k) => SameKeysKeep(env, w, w');
    case Fail(k) => FailedKeeps(env, w, k);
    case Retry(r) => RetriedKeeps(env, w, r);
    case EndRace(r) => EndedKeeps(env, w, r);
    case ResetRace(r) => RaceResetKeeps(env, w, r);
  }

  // ----- the fail board -----

  /** Every key on the fail board is of a transfer that was given up. */
  ghost predicate FailsGivenUp(w: World) {
    forall k :: k in w.fail ==> GivenUp(w.tries, k)
  }

  lemma BoardRace(env: Env, w: World, k: Key)
    requires Inv(env, w) && OnBoard(w, k)
    ensures k.src.race == k.dst.race
  {
    assert Attached(env, w.lists, k);
  }

  /** Attempts of other races are not forgotten. */
  lemma ForgottenFails(env: Env, w: World, race: nat, fail: set<Key>)
    requires Inv(env, w) && FailsGivenUp(w)
    requires forall k :: k in fail ==> k in w.fail && k.src.race != race
    ensures forall k :: k in fail ==> GivenUp(Forget(w.tries, race), k)
  {
    hide Inv, GivenUp, Forget;
    forall k | k in fail
      ensures GivenUp(Forget(w.tries, race), k)
    {
      BoardRace(env, w, k);
      ForgetGivenUp(w.tries, race, k);
    }
  }

  lemma TriedFails(w: World, k: Key, w': World)
    requires FailsGivenUp(w) && Tried(w, k, w')
    ensures FailsGivenUp(w')
  {
    hide GivenUp;
    forall q | q in w'.fail
      ensures GivenUp(w'.tries, q)
    {
      GivenUpStays(w.tries, q, k);
    }
  }

  lemma DrainedFails(env: Env, w: World, w': World)
    requires FailsGivenUp(w) && Drained(env, w, w')
    ensures FailsGivenUp(w')
  {
    hide GivenUp, DrainAct, Extended;
  }

  lemma StepFails(env: Env, w: World, e: Event, w': World)
    requires Inv(env, w) && FailsGivenUp(w) && Step(env, w, e, w')
    ensures FailsGivenUp(w')
  {
    hide Inv, GivenUp, Drained, Tried, Forget, Extended, Tracks, Alerts, Sound, CaseClean;
    match e
    case Drain => DrainedFails(env, w, w');
    case Attempt(k) => TriedFails(w, k, w');
    case Retry(r) => ForgottenFails(env, w, r, w'.fail);
    case ResetRace(r) => ForgottenFails(env, w, r, w'.fail);
    case _ =>
  }

  /** A transfer that failed changes boards if and only if it was given up. */
  lemma FailedMoves(w: World, k: Key)
    ensures var t := Failed(w, k);
            && (k in t.score <==> k in w.score && !GivenUp(w.tries, k))
            && (k in t.fail <==> k in w.fail || (k in w.score && GivenUp(w.tries, k)))
            && (forall q :: q != k ==> (q in t.score <==> q in w.score) && (q in t.fail <==> q in w.fail))
            && t == w.(score := t.score, fail := t.fail)
  {
    hide GivenUp;
  }

  // ----- a refreshed list -----

  /** The second world has no more changes than the first. */
  ghost predicate NoWorse(w: World, w': World, pending: set<ListId>) {
    AllPending(w.(pending := pending)) ==> AllPending(w'.(pending := pending))
  }

  lemma NoWorseSame(w: World, pending: set<ListId>)
    ensures NoWorse(w, w, pending)
  {
  }

  lemma NoWorseThen(a: World, b: World, c: World, pending: set<ListId>)
    requires NoWorse(a, b, pending) && NoWorse(b, c, pending)
    ensures NoWorse(a, c, pending)
  {
    hide AllPending;
  }

  /** What a list that joins the boards leaves as it was. */
  lemma AddedLeaves(env: Env, w: World, l: ListId, w': World, pending: set<ListId>)
    requires Inv(env, w) && Added(env, w, l, w') && Usable(w.lists[l].state)
    ensures Inv(env, w') && NoWorse(w, w', pending)
  {
    hide Inv, Contains, ToLower;
    AddedKeeps(env, w, l, w');
  }

  lemma DrainedReady(env: Env, w: World, w': World)
    requires Inv(env, w) && Drained(env, w, w')
    ensures Inv(env, w') && w.pending <= w.lists.Keys
    ensures AllPending(w) ==> InSyncButHollow(env, w') && forall k :: Hollow(w', k) <==> Hollow(w, k)
    ensures AllPending(w) ==> (InSync(env, w') <==> (forall k :: !Hollow(w, k)) && (forall k :: !Leftover(env, w, k)))
    ensures w'.inscoreboard == w.inscoreboard
  {
    hide Inv, Drained, Hollow, InSyncButHollow, InSync, AllPending, Leftover;
    PendingKnown(env, w);
    DrainKeeps(env, w, w');
    DrainedBoards(env, w, w');
    if AllPending(w) {
      DrainHollow(env, w, w');
      DrainExact(env, w, w');
    }
  }

  lemma DrainedBoards(env: Env, w: World, w': World)
    requires Calm(w) && Drained(env, w, w')
    ensures w'.inscoreboard == w.inscoreboard
  {
    hide BoardsAfter;
  }

  // ----- what the code leaves behind -----

  /** A file of a key that is wanted loses its content: the key is hollow. */
  lemma HollowComes(env: Env, w: World, k: Key)
    requires Inv(env, w) && OnBoard(w, k) && Wanted(env, w.lists, k)
    ensures var c := w.lists[k.src];
            var d := Update(c, k.name, c.files[k.name].(size := 0));
            Hollow(w.(lists := w.lists[k.src := d]), k)
  {
    hide ToLower, Inv, OwnedPercentage, OwnedAfter;
  }

  /** A reset leaves a mark on a list of a sub path. Once the root list of another site is
      known and lacks a file of it, the file is put for that root, and the boards are wrong. */
  lemma LeftoverComes(env: Env, w: World, w': World, k: Key)
    requires Inv(env, w) && Drained(env, w, w') && RootTakes(env, w, k.src, k.dst, k.name) && CanGo(env, w, k)
    ensures OnBoard(w', k) && !Wanted(env, w'.lists, k) && !InSync(env, w')
  {
    hide Inv, Drained, DrainAct, CanGo, OnBoard, Wanted;
    PendingKnown(env, w);
    LeftoverExact(env, w, k);
    UnionAfter(env, w, w', k);
    WantedCurrent(env, w'.lists, k);
  }

  /** After a reset the marks of the race are marks of replaced lists. */
  lemma ResetLeavesMarks(env: Env, w: World, race: nat, l: ListId)
    requires Inv(env, w) && l in w.pending && l.race == race
    ensures l in RaceReset(w, race).pending && !Current(Renewed(env, race), l)
  {
    hide NothingStray, NothingMissing, NothingLost, CaseClean, ListsSound;
  }

  /** The root list of a site, after the race was reset. */
  function RootList(env: Env, race: nat, site: nat): ListId {
    ListId(race, site, "", Generation(env, race))
  }

  function WithList(w: World, l: ListId, c: Content): World {
    w.(lists := w.lists[l := c])
  }

  /** A root list appears, without files, and is found to exist. */
  lemma RootAppears(env: Env, w: World, c: ListId)
    requires CaseClean(w.lists) && c !in w.lists && Current(env, c)
    ensures var unknown, known := InitialContent(env.user(c.site), UNKNOWN), InitialContent(env.user(c.site), EXISTS);
            && NewList(env, w, c, WithList(w, c, unknown))
            && Edited(env, WithList(w, c, unknown), c, known, WithList(w, c, known))
  {
    hide CaseClean;
    FewerNames(w.lists, WithList(w, c, InitialContent(env.user(c.site), EXISTS)).lists);
  }

  /** After the reset no list of the race is one that it has now. */
  lemma RootIsNew(env: Env, w: World, race: nat, site: nat)
    requires NothingAhead(env, w.lists)
    ensures RootList(Renewed(env, race), race, site) !in w.lists
    ensures Current(Renewed(env, race), RootList(Renewed(env, race), race, site))
  {
  }

  lemma RootIsOpen(env: Env, w: World, l: ListId, name: string, site: nat)
    requires Inv(env, w) && l in w.pending && name in w.lists[l].changed
    requires GetFile(w.lists[l], name).Some? && HasContent(GetFile(w.lists[l], name).value)
    requires site != l.site && env.possible(l.race, l.site, site)
    ensures var next := Renewed(env, l.race);
            var c := RootList(next, l.race, site);
            var after := WithList(RaceReset(w, l.race), c, InitialContent(env.user(site), EXISTS));
            RootTakes(next, after, l, c, name) && CanGo(next, after, Key(name, l, c))
  {
    hide ToLower, NothingStray, NothingMissing, NothingLost, NothingAhead, CaseClean, ListsSound, Forget, WithoutRace;
    RootIsNew(env, w, l.race, site);
    ResetLeavesMarks(env, w, l.race, l);
  }

  /** It takes three steps from any mark: the race is reset, the root list of another site is
      there again, and it is found to exist. Then the changed name is put for that root. */
  lemma LeftoverHappens(env: Env, w: World, l: ListId, name: string, site: nat)
    requires Inv(env, w) && l in w.pending && name in w.lists[l].changed
    requires GetFile(w.lists[l], name).Some? && HasContent(GetFile(w.lists[l], name).value)
    requires site != l.site && env.possible(l.race, l.site, site)
    ensures var next, reset := Renewed(env, l.race), RaceReset(w, l.race);
            var c := RootList(next, l.race, site);
            var unknown, known := InitialContent(env.user(site), UNKNOWN), InitialContent(env.user(site), EXISTS);
            && Step(env, w, ResetRace(l.race), reset)
            && Step(next, reset, Discover(c), WithList(reset, c, unknown))
            && Step(next, WithList(reset, c, unknown), Edit(c, known), WithList(reset, c, known))
            && RootTakes(next, WithList(reset, c, known), l, c, name)
            && CanGo(next, WithList(reset, c, known), Key(name, l, c))
  {
    hide RootTakes, CanGo, GetFile, HasContent, NothingStray, NothingMissing, NothingLost, NothingAhead, CaseClean,
      ListsSound, Calm, Forget, WithoutRace, NewList, Edited, Current, InitialContent;
    RootIsNew(env, w, l.race, site);
    RootAppears(Renewed(env, l.race), RaceReset(w, l.race), RootList(Renewed(env, l.race), l.race, site));
    RootIsOpen(env, w, l, name, site);
  }

  // ----- runs -----

  ghost predicate Follows(envs: seq<Env>, states: seq<World>, events: seq<Event>, i: nat)
    requires i < |events| && |states| == |envs| == |events| + 1
  {
    Step(envs[i], states[i], events[i], states[i + 1]) && envs[i + 1] == NextEnv(envs[i], events[i])
  }

  ghost predicate IsRun(envs: seq<Env>, states: seq<World>, events: seq<Event>) {
    && |states| == |envs| == |events| + 1
    && states[0] == World(map[], {}, {}, {}, {}, {}, [])
    && forall i :: 0 <= i < |events| ==> Follows(envs, states, events, i)
  }

  /** In every state of every run the boards agree with the lists but for changes that
      are still to be processed, and the fail board has transfers that were given up. */
  lemma {:induction false} RunKeeps(envs: seq<Env>, states: seq<World>, events: seq<Event>, i: nat)
    requires IsRun(envs, states, events) && i < |states|
    ensures Inv(envs[i], states[i]) && FailsGivenUp(states[i])
  {
    if i == 0 {
    } else {
      hide Inv, Step, FailsGivenUp, NextEnv;
      RunKeeps(envs, states, events, i - 1);
      assert Follows(envs, states, events, i - 1);
      StepKeeps(envs[i - 1], states[i - 1], events[i - 1], states[i]);
      StepFails(envs[i - 1], states[i - 1], events[i - 1], states[i]);
    }
  }

  /** Incremental maintenance equals the definition: whenever all changed lists have
      been processed, the keys on the two boards are exactly the wanted ones, if and only
      if no key was left by a file that lost its content, or by a reset. */
  lemma RunInSync(envs: seq<Env>, states: seq<World>, events: seq<Event>, i: nat)
    requires IsRun(envs, states, events) && i < |events| && events[i] == Drain && AllPending(states[i])
    ensures InSyncButHollow(envs[i], states[i + 1])
    ensures states[i].pending <= states[i].lists.Keys
    ensures InSync(envs[i], states[i + 1]) <==>
            (forall k :: !Hollow(states[i], k)) && (forall k :: !Leftover(envs[i], states[i], k))
  {
    hide Inv, InSync, InSyncButHollow, AllPending, Drained, Hollow, Leftover;
    RunKeeps(envs, states, events, i);
    assert Follows(envs, states, events, i);
    DrainedReady(envs[i], states[i], states[i + 1]);
  }

  /** A race that was never reset leaves nothing behind. */
  lemma RunInSyncPlain(envs: seq<Env>, states: seq<World>, events: seq<Event>, i: nat)
    requires IsRun(envs, states, events) && i < |events| && events[i] == Drain && AllPending(states[i])
    requires forall k :: !Hollow(states[i], k)
    requires forall l :: l in states[i].pending ==> Current(envs[i], l)
    requires forall k :: OnBoard(states[i], k) ==> !Replaced(envs[i], k)
    ensures InSync(envs[i], states[i + 1])
  {
    hide Inv, InSync, InSyncButHollow, AllPending, Drained, Hollow, Leftover, Replaced, OnBoard, Current;
    RunKeeps(envs, states, events, i);
    RunInSync(envs, states, events, i);
    forall k
      ensures !Leftover(envs[i], states[i], k)
    {
      NoLeftovers(envs[i], states[i], k);
    }
  }
}
