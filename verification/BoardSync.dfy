/** The boards as a view of the file lists: what each maintenance step does to one key,
    and why the boards agree with the lists over every run. */
module BoardSync {
  import opened Base
  import opened FileListContent
  import opened FileListRuns
  import opened TransferAttempts

  /** What the engine asks of the rest of the program: the sites of each race, whether a
      race allows a transfer between two of its sites, and how often it was reset. */
  datatype Env = Env(
    sites: map<nat, set<nat>>,
    possible: (nat, nat, nat) -> bool,
    user: nat -> string,
    resets: map<nat, nat>)

  function Generation(env: Env, race: nat): nat {
    if race in env.resets then env.resets[race] else 0
  }

  /** The list is one of those that its race has now. */
  predicate Current(env: Env, l: ListId) {
    l.generation == Generation(env, l.race)
  }

  /** The race is reset: it has other lists from now on. */
  function Renewed(env: Env, race: nat): Env {
    env.(resets := env.resets[race := Generation(env, race) + 1])
  }

  type Lists = map<ListId, Content>

  /** over are the races that have ended, tries the attempts that are counted. */
  datatype World = World(
    lists: Lists,
    score: set<Key>,
    fail: set<Key>,
    pending: set<ListId>,
    inscoreboard: set<ListId>,
    over: set<nat>,
    tries: seq<Key>)

  predicate OnBoard(w: World, k: Key) {
    k in w.score || k in w.fail
  }

  predicate TransferPossible(env: Env, src: ListId, dst: ListId) {
    src.site != dst.site && env.possible(src.race, src.site, dst.site)
  }

  /** Two lists of one race and one sub path. */
  predicate SamePlace(a: ListId, b: ListId) {
    a.race == b.race && a.subpath == b.subpath && a.generation == b.generation
  }

  predicate Placed(lists: Lists, k: Key) {
    k.src in lists && k.dst in lists && SamePlace(k.src, k.dst)
  }

  // ----- the definition the boards must agree with -----

  /** The file has content at the source and is missing at the destination. */
  predicate Wanted(env: Env, lists: Lists, k: Key) {
    && Placed(lists, k) && Current(env, k.src)
    && TransferPossible(env, k.src, k.dst)
    && k.name in lists[k.src].files
    && HasContent(lists[k.src].files[k.name])
    && !Contains(lists[k.dst], k.name)
  }

  /** The list says that it changed, and the name is one that did. A list that does not say
      so has the names, sizes and kinds that it had, whatever its change set holds. */
  predicate Unsettled(c: Content, name: string) {
    c.boardstate == CHANGED && name in c.changed
  }

  predicate Dirty(lists: Lists, k: Key) {
    (k.src in lists && Unsettled(lists[k.src], k.name)) || (k.dst in lists && Unsettled(lists[k.dst], k.name))
  }

  // ----- one pending list -----

  datatype Act = Keep | Drop | Put

  function Both(a: Act, b: Act): Act {
    if a == Drop || b == Drop then Drop
    else if a == Put || b == Put then Put
    else Keep
  }

  /** The file of l changed, and k leads from l to another list. */
  function ForwardAct(env: Env, lists: Lists, k: Key): Act
    requires k.src in lists && k.dst in lists
  {
    var f := GetFile(lists[k.src], k.name);
    if f.None? || k.src == k.dst then Drop
    else if lists[k.dst].state == FAILED || Contains(lists[k.dst], k.name) ||
            !TransferPossible(env, k.src, k.dst) || !HasContent(f.value) then Keep
    else Put
  }

  /** The file of the destination changed. */
  function ReverseAct(env: Env, lists: Lists, k: Key): Act
    requires k.src in lists && k.dst in lists
  {
    if GetFile(lists[k.dst], k.name).Some? then Drop
    else
      var f := GetFile(lists[k.src], k.name);
      if lists[k.src].state == FAILED || !TransferPossible(env, k.src, k.dst) || f.None? ||
        !HasContent(f.value) then Keep
      else Put
  }

  /** The list of a site that the changes of l are compared with. A list that was replaced
      has no sub path any more, and is compared with the root lists. */
  function Peer(env: Env, l: ListId, site: nat): ListId {
    ListId(l.race, site, if Current(env, l) then l.subpath else "", Generation(env, l.race))
  }

  /** What processing the changed names of l does to k. */
  function ListAct(env: Env, lists: Lists, l: ListId, k: Key): Act
    requires l in lists
  {
    if lists[l].state == FAILED then
      if k.src == l || k.dst == l then Drop else Keep
    else if k.src !in lists || k.dst !in lists || k.name !in lists[l].changed then Keep
    else if k.src == l && k.dst == Peer(env, l, k.dst.site) then
      if lists[k.dst].state == UNKNOWN then Keep else ForwardAct(env, lists, k)
    else if k.dst == l && k.src == Peer(env, l, k.src.site) then
      if lists[k.src].state == UNKNOWN then Keep else ReverseAct(env, lists, k)
    else Keep
  }

  /** What processing a set of lists, in any order, does to k. */
  function DrainAct(env: Env, lists: Lists, drained: set<ListId>, k: Key): Act
    requires drained <= lists.Keys
  {
    Both(if k.src in drained then ListAct(env, lists, k.src, k) else Keep,
         if k.dst in drained then ListAct(env, lists, k.dst, k) else Keep)
  }

  /** The two endpoints of a key never ask for opposite things, which is why the order
      does not matter. */
  lemma NoClash(env: Env, lists: Lists, k: Key)
    requires k.src in lists && k.dst in lists
    ensures !(ListAct(env, lists, k.src, k) == Drop && ListAct(env, lists, k.dst, k) == Put)
    ensures !(ListAct(env, lists, k.src, k) == Put && ListAct(env, lists, k.dst, k) == Drop)
  {
    hide ToLower;
  }

  /** Whether k is on a board afterwards, if the board is the one that Put goes to. */
  predicate After(act: Act, was: bool, here: bool) {
    match act
    case Keep => was
    case Drop => false
    case Put => was || here
  }

  /** Both boards after the lists in drained have been processed. */
  ghost predicate BoardsAfter(env: Env, lists: Lists, drained: set<ListId>, w: World, score: set<Key>, fail: set<Key>)
    requires drained <= lists.Keys
  {
    && (forall k :: k in score <==> After(DrainAct(env, lists, drained, k), k in w.score, !GivenUp(w.tries, k)))
    && (forall k :: k in fail <==> After(DrainAct(env, lists, drained, k), k in w.fail, GivenUp(w.tries, k)))
  }

  /** A list of a site that is not known yet starts out empty. */
  ghost predicate Extended(env: Env, lists: Lists, more: Lists) {
    && lists.Keys <= more.Keys
    && (forall l :: l in more && l !in lists ==>
        Current(env, l) && more[l] == InitialContent(env.user(l.site), UNKNOWN))
  }

  function Cleared(c: Content): Content {
    if c.state == FAILED then c else c.(boardstate := NONE, changed := {})
  }

  ghost predicate Drained(env: Env, w: World, w': World) {
    && w.pending <= w.lists.Keys
    && BoardsAfter(env, w.lists, w.pending, w, w'.score, w'.fail)
    && w'.pending == {} && w'.over == w.over && w'.tries == w.tries
    && Extended(env, w.lists, w'.lists)
    && (forall l :: l in w.lists ==>
          w'.lists[l] == if l in w.pending then Cleared(w.lists[l]) else w.lists[l])
    && (forall l :: l in w'.inscoreboard <==> l in w.inscoreboard && !(l in w.pending && w.lists[l].state == FAILED))
  }

  // ----- a new list is added -----

  predicate Usable(s: FileListState) {
    s == NONEXISTENT || s == EXISTS || s == LISTED
  }

  /** Adding a list puts every wanted key between it and the lists of its place, if the
      destination is usable. */
  predicate AddedBy(env: Env, lists: Lists, l: ListId, k: Key) {
    Wanted(env, lists, k) && (k.src == l || k.dst == l) && Usable(lists[k.dst].state)
  }

  ghost predicate Added(env: Env, w: World, l: ListId, w': World) {
    && l in w.lists
    && (forall k :: k in w'.score <==> k in w.score || AddedBy(env, w.lists, l, k))
    && w'.fail == w.fail && w'.pending == w.pending && w'.over == w.over && w'.tries == w.tries
    && Extended(env, w.lists, w'.lists)
    && (forall m :: m in w.lists ==> w'.lists[m] == w.lists[m])
    && w'.inscoreboard == w.inscoreboard + {l}
  }

  // ----- agreement -----

  function Names(c: Content): set<string> {
    c.files.Keys + c.changed
  }

  /** No two names of one place differ only in case. */
  ghost predicate CaseClean(lists: Lists) {
    forall a, b, m, n :: (a in lists && b in lists && SamePlace(a, b) && m in Names(lists[a]) && n in Names(lists[b]) &&
                          ToLower(m) == ToLower(n)) ==> m == n
  }

  ghost predicate ListsSound(lists: Lists) {
    forall l :: l in lists ==> Sound(lists[l])
  }

  /** No list has failed, and every list on the boards is known. */
  ghost predicate Calm(w: World) {
    && w.inscoreboard <= w.lists.Keys
    && w.pending <= w.lists.Keys
    && (forall l :: l in w.lists ==> Usable(w.lists[l].state) || w.lists[l].state == UNKNOWN)
    && (forall l :: l in w.inscoreboard ==> Usable(w.lists[l].state))
    && (forall l :: l in w.lists && w.lists[l].state == UNKNOWN ==>
        w.lists[l].files == map[] && w.lists[l].changed == {})
  }

  predicate SourceHas(lists: Lists, k: Key)
    requires k.src in lists
  {
    k.name in lists[k.src].files && HasContent(lists[k.src].files[k.name])
  }

  /** What holds of a key on a board: the transfer is possible, and each endpoint is as
      it should be or has a change that is still to be processed. */
  predicate Stands(env: Env, lists: Lists, k: Key) {
    && Placed(lists, k) && TransferPossible(env, k.src, k.dst)
    && lists[k.src].state != UNKNOWN && lists[k.dst].state != UNKNOWN
    && (Unsettled(lists[k.src], k.name) || k.name in lists[k.src].files)
    && (Unsettled(lists[k.dst], k.name) || !Contains(lists[k.dst], k.name))
  }

  /** One of the lists was replaced when the race was reset. */
  predicate Replaced(env: Env, k: Key) {
    !(Current(env, k.src) && Current(env, k.dst))
  }

  ghost predicate NothingStray(env: Env, w: World) {
    forall k :: OnBoard(w, k) && !Replaced(env, k) ==> Stands(env, w.lists, k)
  }

  /** A key on a board is of one race, and has an end that the race still has. */
  predicate Attached(env: Env, lists: Lists, k: Key) {
    && k.src in lists && k.dst in lists && k.src.race == k.dst.race
    && (Current(env, k.src) || Current(env, k.dst))
  }

  ghost predicate NothingLost(env: Env, w: World) {
    forall k :: OnBoard(w, k) ==> Attached(env, w.lists, k)
  }

  /** Both lists are on the boards, and their race has not ended. */
  predicate Boarded(w: World, k: Key) {
    k.src in w.inscoreboard && k.dst in w.inscoreboard && k.src.race !in w.over
  }

  /** Whatever is wanted between lists of the boards is on a board, unless a change is
      still to be processed. */
  ghost predicate NothingMissing(env: Env, w: World) {
    forall k :: Wanted(env, w.lists, k) && Boarded(w, k) && !Dirty(w.lists, k) ==> OnBoard(w, k)
  }

  /** No list is there before its race was reset that often. */
  ghost predicate NothingAhead(env: Env, lists: Lists) {
    forall l :: l in lists ==> l.generation <= Generation(env, l.race)
  }

  ghost predicate Inv(env: Env, w: World) {
    && ListsSound(w.lists) && CaseClean(w.lists) && Calm(w)
    && NothingStray(env, w) && NothingMissing(env, w) && NothingLost(env, w)
    && NothingAhead(env, w.lists)
  }

  /** With no two names that differ in case, looking a name up means just that. */
  lemma LookupIsExact(lists: Lists, l: ListId, m: ListId, name: string)
    requires ListsSound(lists) && CaseClean(lists)
    requires l in lists && m in lists && SamePlace(l, m) && name in Names(lists[m])
    ensures GetFile(lists[l], name) == if name in lists[l].files then Some(lists[l].files[name]) else None
    ensures Contains(lists[l], name) <==> name in lists[l].files
  {
    hide ToLower;
    var c := lists[l];
    forall n | n in c.files && ToLower(n) == ToLower(name)
      ensures n == name
    {
      assert n in Names(c);
    }
  }

  /** A key on a board whose source has the file without content, while the destination
      still lacks it. */
  predicate Hollow(w: World, k: Key) {
    OnBoard(w, k) && HollowIn(w.lists, k)
  }

  predicate HollowIn(lists: Lists, k: Key) {
    && Placed(lists, k)
    && k.name in lists[k.src].files && !HasContent(lists[k.src].files[k.name])
    && !Contains(lists[k.dst], k.name)
  }

  /** All lists that say that they changed are about to be processed. */
  ghost predicate AllPending(w: World) {
    forall l :: l in w.lists && w.lists[l].boardstate == CHANGED && w.lists[l].changed != {} ==> l in w.pending
  }

  ghost predicate InSync(env: Env, w: World) {
    && (forall k :: OnBoard(w, k) ==> Wanted(env, w.lists, k))
    && (forall k :: Wanted(env, w.lists, k) && Boarded(w, k) ==> OnBoard(w, k))
  }

  /** Between the lists that races have now the boards hold the wanted keys, and besides them
      only hollow ones. */
  ghost predicate InSyncButHollow(env: Env, w: World) {
    && (forall k :: OnBoard(w, k) && !Replaced(env, k) ==> (Wanted(env, w.lists, k) <==> !Hollow(w, k)))
    && (forall k :: Wanted(env, w.lists, k) && Boarded(w, k) ==> OnBoard(w, k))
  }

  /** A key that is put is wanted if and only if the source has a file of that very name,
      and not only one whose name differs in case. */
  lemma PutExact(env: Env, lists: Lists, drained: set<ListId>, k: Key)
    requires ListsSound(lists) && drained <= lists.Keys && DrainAct(env, lists, drained, k) == Put
    ensures Wanted(env, lists, k) <==> k.name in lists[k.src].files && !Replaced(env, k)
  {
    hide ToLower;
  }

  /** Two names that differ only in case: the destination lost one spelling, the source
      has the other, and a key is put whose name the source does not have. */
  lemma CaseVariantIsPut(env: Env, lists: Lists, k: Key)
    requires Placed(lists, k) && TransferPossible(env, k.src, k.dst) && Current(env, k.dst)
    requires k.name in lists[k.dst].changed && GetFile(lists[k.dst], k.name).None?
    requires k.name !in lists[k.src].files && k.name !in lists[k.src].changed
    requires GetFile(lists[k.src], k.name).Some? && HasContent(GetFile(lists[k.src], k.name).value)
    requires Usable(lists[k.src].state) && Usable(lists[k.dst].state)
    ensures DrainAct(env, lists, {k.dst}, k) == Put && !Wanted(env, lists, k)
  {
    hide ToLower;
  }

  /** A changed list that has failed loses all its keys, and keeps its changes; one that has
      not failed has nothing to tell any more. */
  lemma ListDrained(env: Env, w: World, w': World, l: ListId)
    requires Drained(env, w, w') && l in w.pending
    ensures w.lists[l].state == FAILED ==>
              && w'.lists[l] == w.lists[l] && l !in w'.inscoreboard
              && forall k: Key :: k.src == l || k.dst == l ==> !OnBoard(w', k)
    ensures w.lists[l].state != FAILED ==>
              && w'.lists[l].boardstate == NONE && w'.lists[l].changed == {} && w'.lists[l].files == w.lists[l].files
              && (l in w'.inscoreboard <==> l in w.inscoreboard)
  {
    hide GivenUp, Extended, ForwardAct, ReverseAct;
  }

  /** What is put goes to the fail board if and only if it was given up. */
  lemma PutWhere(env: Env, w: World, w': World, k: Key)
    requires Drained(env, w, w')
    ensures k in w'.score && k !in w.score ==> !GivenUp(w.tries, k)
    ensures k in w'.fail && k !in w.fail ==> GivenUp(w.tries, k)
  {
    hide DrainAct, Extended, GivenUp;
  }

  // ----- one key through a drain -----

  lemma UnionAfter(env: Env, w: World, w': World, k: Key)
    requires Drained(env, w, w')
    ensures OnBoard(w', k) <==>
            match DrainAct(env, w.lists, w.pending, k)
            case Keep => OnBoard(w, k)
            case Drop => false
            case Put => true
  {
    hide DrainAct, Extended, GivenUp;
  }

  /** A key that is put is as it should be at both ends. */
  lemma PutSettles(env: Env, w: World, k: Key)
    requires Inv(env, w) && DrainAct(env, w.lists, w.pending, k) == Put && !Replaced(env, k)
    ensures Placed(w.lists, k) && TransferPossible(env, k.src, k.dst)
    ensures w.lists[k.src].state != UNKNOWN && w.lists[k.dst].state != UNKNOWN
    ensures k.name in w.lists[k.src].files && !Contains(w.lists[k.dst], k.name)
  {
    hide ToLower, NothingStray, NothingMissing, CaseClean, ListsSound;
    var m := if k.src in w.pending && k.name in w.lists[k.src].changed then k.src else k.dst;
    LookupIsExact(w.lists, k.src, m, k.name);
    LookupIsExact(w.lists, k.dst, m, k.name);
  }

  /** A key that is left on its board is as it should be where a change was processed. */
  lemma KeepSettles(env: Env, w: World, k: Key)
    requires Inv(env, w) && OnBoard(w, k) && DrainAct(env, w.lists, w.pending, k) == Keep && !Replaced(env, k)
    ensures Stands(env, w.lists, k)
    ensures k.src in w.pending && k.name in w.lists[k.src].changed ==> k.name in w.lists[k.src].files
    ensures k.dst in w.pending && k.name in w.lists[k.dst].changed ==> !Contains(w.lists[k.dst], k.name)
  {
    hide ToLower, NothingMissing, CaseClean, ListsSound;
    assert Stands(env, w.lists, k);
    if k.name in w.lists[k.src].changed {
      LookupIsExact(w.lists, k.src, k.src, k.name);
    }
  }

  lemma StandsAfter(env: Env, w: World, w': World, k: Key)
    requires Inv(env, w) && Drained(env, w, w') && OnBoard(w', k) && !Replaced(env, k)
    ensures Stands(env, w'.lists, k)
  {
    hide ToLower, BoardsAfter, DrainAct, Inv, OnBoard, Replaced;
    UnionAfter(env, w, w', k);
    if DrainAct(env, w.lists, w.pending, k) == Put {
      PutSettles(env, w, k);
    } else {
      KeepSettles(env, w, k);
    }
  }

  /** A put leads from one list to its peer, or back. */
  lemma PutAttached(env: Env, lists: Lists, drained: set<ListId>, k: Key)
    requires drained <= lists.Keys && DrainAct(env, lists, drained, k) == Put
    ensures Attached(env, lists, k)
  {
    hide ForwardAct, ReverseAct;
  }

  lemma AheadAfter(env: Env, w: World, w': World)
    requires NothingAhead(env, w.lists) && Drained(env, w, w')
    ensures NothingAhead(env, w'.lists)
  {
    hide BoardsAfter, Generation;
  }

  lemma AttachedAfter(env: Env, w: World, w': World, k: Key)
    requires Inv(env, w) && Drained(env, w, w') && OnBoard(w', k)
    ensures Attached(env, w'.lists, k)
  {
    hide ToLower, BoardsAfter, DrainAct, OnBoard, NothingStray, NothingMissing, CaseClean, ListsSound, Calm;
    UnionAfter(env, w, w', k);
    if DrainAct(env, w.lists, w.pending, k) == Put {
      PutAttached(env, w.lists, w.pending, k);
    }
  }

  lemma WantedBefore(env: Env, w: World, w': World, k: Key)
    requires Drained(env, w, w') && k.src in w.lists && k.dst in w.lists
    ensures Wanted(env, w'.lists, k) <==> Wanted(env, w.lists, k)
  {
    hide BoardsAfter, ToLower;
  }

  /** Drained leaves a change of a known list unprocessed only if it was not pending. */
  lemma DirtyBefore(env: Env, w: World, w': World, k: Key)
    requires Calm(w) && Drained(env, w, w') && !Dirty(w'.lists, k) && k.src in w.lists && k.dst in w.lists
    ensures Unsettled(w.lists[k.src], k.name) ==> k.src in w.pending
    ensures Unsettled(w.lists[k.dst], k.name) ==> k.dst in w.pending
  {
    hide BoardsAfter;
  }

  /** A wanted key is never dropped, and put if one of its changes is processed. */
  lemma WantedIsPut(env: Env, w: World, k: Key)
    requires ListsSound(w.lists) && CaseClean(w.lists) && Calm(w)
    requires Wanted(env, w.lists, k) && k.src in w.inscoreboard && k.dst in w.inscoreboard
    requires Unsettled(w.lists[k.src], k.name) ==> k.src in w.pending
    requires Unsettled(w.lists[k.dst], k.name) ==> k.dst in w.pending
    ensures DrainAct(env, w.lists, w.pending, k) == Put ||
            (DrainAct(env, w.lists, w.pending, k) == Keep && !Dirty(w.lists, k))
  {
    hide ToLower;
    LookupIsExact(w.lists, k.dst, k.src, k.name);
    NoClash(env, w.lists, k);
  }

  lemma PresentAfter(env: Env, w: World, w': World, k: Key)
    requires Inv(env, w) && Drained(env, w, w')
    requires Wanted(env, w'.lists, k) && Boarded(w', k) && !Dirty(w'.lists, k)
    ensures OnBoard(w', k)
  {
    hide Wanted, Dirty, OnBoard, ListsSound, CaseClean, NothingStray, DrainAct, BoardsAfter;
    UnionAfter(env, w, w', k);
    WantedBefore(env, w, w', k);
    DirtyBefore(env, w, w', k);
    WantedIsPut(env, w, k);
  }

  /** Fewer names in play are as clean. */
  lemma FewerNames(lists: Lists, more: Lists)
    requires CaseClean(lists)
    requires forall l :: l in more ==> Names(more[l]) == {} || (l in lists && Names(more[l]) <= Names(lists[l]))
    ensures CaseClean(more)
  {
    hide ToLower, Names;
    forall a, b, m, n | a in more && b in more && SamePlace(a, b) && m in Names(more[a]) && n in Names(more[b]) &&
      ToLower(m) == ToLower(n)
      ensures m == n
    {
      assert m in Names(lists[a]) && n in Names(lists[b]);
    }
  }

  lemma ListAfter(env: Env, w: World, w': World, l: ListId)
    requires ListsSound(w.lists) && Drained(env, w, w') && l in w'.lists
    ensures Sound(w'.lists[l])
    ensures Names(w'.lists[l]) == {} || (l in w.lists && Names(w'.lists[l]) <= Names(w.lists[l]))
  {
    hide ToLower, BoardsAfter;
  }

  lemma SoundAfter(env: Env, w: World, w': World)
    requires ListsSound(w.lists) && Drained(env, w, w')
    ensures ListsSound(w'.lists)
    ensures forall l :: l in w'.lists ==>
              Names(w'.lists[l]) == {} || (l in w.lists && Names(w'.lists[l]) <= Names(w.lists[l]))
  {
    hide Sound, Names, Drained;
    forall l | l in w'.lists
      ensures Sound(w'.lists[l])
      ensures Names(w'.lists[l]) == {} || (l in w.lists && Names(w'.lists[l]) <= Names(w.lists[l]))
    {
      assert ListsSound(w.lists);
      ListAfter(env, w, w', l);
    }
  }

  lemma CalmAfter(env: Env, w: World, w': World)
    requires Calm(w) && Drained(env, w, w')
    ensures Calm(w')
  {
    hide BoardsAfter;
    forall l | l in w'.lists
      ensures w'.lists[l].state == if l in w.lists then w.lists[l].state else UNKNOWN
      ensures w'.lists[l].state == UNKNOWN ==> w'.lists[l].files == map[] && w'.lists[l].changed == {}
    {
    }
  }

  lemma ListsAfter(env: Env, w: World, w': World)
    requires ListsSound(w.lists) && CaseClean(w.lists) && Calm(w) && Drained(env, w, w')
    ensures ListsSound(w'.lists) && CaseClean(w'.lists) && Calm(w')
  {
    hide ListsSound, CaseClean, Names, Calm, Drained;
    SoundAfter(env, w, w');
    FewerNames(w.lists, w'.lists);
    CalmAfter(env, w, w');
  }

  /** Processing any set of changed lists keeps the boards in agreement with the lists. */
  lemma DrainKeeps(env: Env, w: World, w': World)
    requires Inv(env, w) && Drained(env, w, w')
    ensures Inv(env, w')
  {
    hide Drained, Stands, Wanted, Dirty, OnBoard, ListsSound, CaseClean, Calm, Boarded, Attached, Replaced,
      NothingAhead;
    ListsAfter(env, w, w');
    AheadAfter(env, w, w');
    forall k | OnBoard(w', k)
      ensures Attached(env, w'.lists, k)
      ensures !Replaced(env, k) ==> Stands(env, w'.lists, k)
    {
      AttachedAfter(env, w, w', k);
      if !Replaced(env, k) {
        StandsAfter(env, w, w', k);
      }
    }
    forall k | Wanted(env, w'.lists, k) && Boarded(w', k) && !Dirty(w'.lists, k)
      ensures OnBoard(w', k)
    {
      PresentAfter(env, w, w', k);
    }
  }

  lemma SettledAfter(env: Env, w: World, w': World, l: ListId, name: string)
    requires Calm(w) && Drained(env, w, w') && AllPending(w) && l in w'.lists
    ensures !Unsettled(w'.lists[l], name)
  {
    hide BoardsAfter;
  }

  lemma CleanAfter(env: Env, w: World, w': World, k: Key)
    requires Calm(w) && Drained(env, w, w') && AllPending(w)
    ensures !Dirty(w'.lists, k)
  {
    hide Calm, Drained, AllPending, Unsettled;
    if k.src in w'.lists {
      SettledAfter(env, w, w', k.src, k.name);
    }
    if k.dst in w'.lists {
      SettledAfter(env, w, w', k.dst, k.name);
    }
  }

  /** What stands without a change is wanted, or hollow. */
  lemma CleanStands(env: Env, w: World, k: Key)
    requires OnBoard(w, k) && Stands(env, w.lists, k) && !Dirty(w.lists, k) && !Replaced(env, k)
    ensures Wanted(env, w.lists, k) <==> !Hollow(w, k)
  {
    hide ToLower;
  }

  /** A hollow key is neither put nor taken off. */
  lemma HollowStays(env: Env, w: World, w': World, k: Key)
    requires Inv(env, w) && Drained(env, w, w')
    ensures Hollow(w', k) <==> Hollow(w, k)
  {
    hide HollowIn, Inv, Drained, OnBoard, Stands, DrainAct, Attached, Replaced;
    if !Replaced(env, k) {
      UnionAfter(env, w, w', k);
      HollowBefore(env, w, w', k);
      if OnBoard(w', k) {
        StandsAfter(env, w, w', k);
      }
      if HollowIn(w.lists, k) {
        HollowAct(env, w, k);
      }
    } else {
      NeverHollow(env, w, k);
      DrainKeeps(env, w, w');
      NeverHollow(env, w', k);
    }
  }

  /** Two replaced lists have no key between them. */
  lemma NeverHollow(env: Env, w: World, k: Key)
    requires Inv(env, w) && Replaced(env, k)
    ensures !Hollow(w, k)
  {
    hide ToLower, NothingStray, NothingMissing, CaseClean, ListsSound, Calm, Contains;
  }

  lemma HollowBefore(env: Env, w: World, w': World, k: Key)
    requires Drained(env, w, w')
    ensures HollowIn(w.lists, k) ==> HollowIn(w'.lists, k)
    ensures HollowIn(w'.lists, k) && Stands(env, w'.lists, k) ==> HollowIn(w.lists, k)
  {
    hide ToLower, BoardsAfter;
  }

  lemma HollowAct(env: Env, w: World, k: Key)
    requires Inv(env, w) && HollowIn(w.lists, k) && !Replaced(env, k)
    ensures DrainAct(env, w.lists, w.pending, k) == Keep || !OnBoard(w, k)
    ensures DrainAct(env, w.lists, w.pending, k) != Put
  {
    hide ToLower, CaseClean, NothingMissing;
  }

  /** Once every changed list has been processed, in whatever order, the keys between the
      lists that races have now are exactly the wanted ones, and those that were hollow
      before. */
  lemma DrainHollow(env: Env, w: World, w': World)
    requires Inv(env, w) && Drained(env, w, w') && AllPending(w)
    ensures InSyncButHollow(env, w')
    ensures forall k :: Hollow(w', k) <==> Hollow(w, k)
  {
    hide Drained, Stands, Wanted, Dirty, OnBoard, Hollow, ListsSound, CaseClean, Calm, Boarded, Replaced, Attached;
    DrainKeeps(env, w, w');
    forall k
      ensures !Dirty(w'.lists, k)
      ensures OnBoard(w', k) && !Replaced(env, k) ==> (Wanted(env, w'.lists, k) <==> !Hollow(w', k))
      ensures Hollow(w', k) <==> Hollow(w, k)
    {
      CleanAfter(env, w, w', k);
      HollowStays(env, w, w', k);
      if OnBoard(w', k) && !Replaced(env, k) {
        CleanStands(env, w', k);
      }
    }
  }

  // ----- lists that were replaced -----

  /** A changed name of a replaced list, against the root list of another site. */
  predicate RootTakes(env: Env, w: World, l: ListId, c: ListId, name: string) {
    && l in w.pending && l in w.lists && name in w.lists[l].changed && !Current(env, l)
    && c in w.lists && c == ListId(l.race, c.site, "", Generation(env, l.race)) && w.lists[c].state != UNKNOWN
  }

  predicate CanGo(env: Env, w: World, k: Key)
    requires k.src in w.lists && k.dst in w.lists
  {
    && TransferPossible(env, k.src, k.dst) && !Contains(w.lists[k.dst], k.name)
    && GetFile(w.lists[k.src], k.name).Some? && HasContent(GetFile(w.lists[k.src], k.name).value)
  }

  /** What a mark that was left over by a reset does to a key: a file of the replaced list is
      put for the root list of another site, or one of that list for the replaced one. */
  lemma LeftoverExact(env: Env, w: World, k: Key)
    requires Calm(w) && Replaced(env, k)
    ensures DrainAct(env, w.lists, w.pending, k) == Put <==>
            && (RootTakes(env, w, k.src, k.dst, k.name) || RootTakes(env, w, k.dst, k.src, k.name))
            && CanGo(env, w, k)
  {
    hide ToLower;
  }

  /** A key of a replaced list that is on a board after processing. */
  predicate Leftover(env: Env, w: World, k: Key)
    requires w.pending <= w.lists.Keys
  {
    && Replaced(env, k)
    && match DrainAct(env, w.lists, w.pending, k)
       case Keep => OnBoard(w, k)
       case Drop => false
       case Put => true
  }

  /** With no mark and no key of a replaced list there is none afterwards. */
  lemma NoLeftovers(env: Env, w: World, k: Key)
    requires Inv(env, w) && forall l :: l in w.pending ==> Current(env, l)
    requires OnBoard(w, k) ==> !Replaced(env, k)
    ensures !Leftover(env, w, k)
  {
    hide DrainAct, Inv, OnBoard, CanGo, Replaced, Calm, Current;
    PendingKnown(env, w);
    if Replaced(env, k) {
      LeftoverExact(env, w, k);
    }
  }

  lemma PendingKnown(env: Env, w: World)
    requires Inv(env, w)
    ensures Calm(w) && w.pending <= w.lists.Keys
  {
  }

  /** After every changed list was processed the boards hold exactly the wanted keys if and
      only if none was hollow, and none is left over by a reset. */
  lemma DrainExact(env: Env, w: World, w': World)
    requires Inv(env, w) && Drained(env, w, w') && AllPending(w)
    ensures InSync(env, w') <==> (forall k :: !Hollow(w, k)) && (forall k :: !Leftover(env, w, k))
  {
    hide Inv, Drained, Wanted, AllPending, Boarded, Replaced, DrainAct, OnBoard, Hollow;
    PendingKnown(env, w);
    DrainHollow(env, w, w');
    forall k
      ensures Leftover(env, w, k) <==> OnBoard(w', k) && Replaced(env, k)
      ensures Wanted(env, w'.lists, k) ==> !Replaced(env, k)
      ensures Hollow(w', k) ==> OnBoard(w', k) && !Replaced(env, k)
    {
      UnionAfter(env, w, w', k);
      WantedCurrent(env, w'.lists, k);
      HollowCurrent(env, w, w', k);
    }
  }

  lemma WantedCurrent(env: Env, lists: Lists, k: Key)
    ensures Wanted(env, lists, k) ==> !Replaced(env, k)
  {
    hide ToLower, Contains;
  }

  lemma HollowCurrent(env: Env, w: World, w': World, k: Key)
    requires Inv(env, w) && Drained(env, w, w')
    ensures Hollow(w', k) ==> OnBoard(w', k) && !Replaced(env, k)
  {
    hide Inv, Drained, Replaced, HollowIn;
    if Replaced(env, k) {
      DrainKeeps(env, w, w');
      NeverHollow(env, w', k);
    }
  }
}
