/** How one board develops, key by key, while the engine works through changed names. */
module BoardEvolution {
  import opened Base
  import opened FileListContent
  import opened FileListLaws
  import opened ScoreBoardElements
  import opened ScoreBoardIndex
  import opened BoardSync
  import opened TransferAttempts

  type Acts = Key -> Act

  /** Every key went the way acts says. here tells whether a put goes to this board, and
      newrow what a put row looks like. */
  ghost predicate Evolved(was: map<Key, Row>, rows: map<Key, Row>, acts: Acts, here: Key -> bool,
                          newrow: (Key, Row) -> bool) {
    && (forall k :: k in rows <==> After(acts(k), k in was, here(k)))
    && (forall k :: k in rows ==>
          if acts(k) == Put && here(k) then newrow(k, Settled(rows[k])) else k in was && SameData(rows[k], was[k]))
  }

  ghost predicate Together(first: Acts, second: Acts, both: Acts) {
    forall k :: both(k) == Both(first(k), second(k)) &&
                !(first(k) == Drop && second(k) == Put) && !(first(k) == Put && second(k) == Drop)
  }

  lemma EvolvedThen(r0: map<Key, Row>, r1: map<Key, Row>, r2: map<Key, Row>, first: Acts, second: Acts, both: Acts,
                    here: Key -> bool, newrow: (Key, Row) -> bool)
    requires Evolved(r0, r1, first, here, newrow) && Evolved(r1, r2, second, here, newrow)
    requires Together(first, second, both)
    ensures Evolved(r0, r2, both, here, newrow)
  {
    forall k
      ensures k in r2 <==> After(both(k), k in r0, here(k))
      ensures k in r2 ==>
                if both(k) == Put && here(k) then newrow(k, Settled(r2[k])) else k in r0 && SameData(r2[k], r0[k])
    {
      assert both(k) == Both(first(k), second(k));
      assert k in r1 <==> After(first(k), k in r0, here(k));
      assert k in r2 <==> After(second(k), k in r1, here(k));
    }
  }

  lemma EvolvedSame(was: map<Key, Row>, rows: map<Key, Row>, acts: Acts, same: Acts, here: Key -> bool,
                    newrow: (Key, Row) -> bool)
    requires Evolved(was, rows, acts, here, newrow) && forall k :: acts(k) == same(k)
    ensures Evolved(was, rows, same, here, newrow)
  {
    forall k
      ensures acts(k) == same(k)
    {
    }
  }

  /** A looser condition on new rows. */
  lemma EvolvedLooser(was: map<Key, Row>, rows: map<Key, Row>, acts: Acts, here: Key -> bool,
                      newrow: (Key, Row) -> bool, looser: (Key, Row) -> bool)
    requires Evolved(was, rows, acts, here, newrow)
    requires forall k, row :: acts(k) == Put && newrow(k, row) ==> looser(k, row)
    ensures Evolved(was, rows, acts, here, looser)
  {
  }

  function Nothing(): Acts {
    k => Keep
  }

  function Only(k: Key, act: Act): Acts {
    q => if q == k then act else Keep
  }

  lemma EvolvedNot(was: map<Key, Row>, rows: map<Key, Row>, here: Key -> bool, newrow: (Key, Row) -> bool)
    requires rows.Keys == was.Keys && forall k :: k in rows ==> SameData(rows[k], was[k])
    ensures Evolved(was, rows, Nothing(), here, newrow)
  {
  }

  lemma EvolvedRemove(was: map<Key, Row>, k: Key, moved: Key, here: Key -> bool, newrow: (Key, Row) -> bool)
    requires moved in was
    ensures Evolved(was, Without(was, k, moved), Only(k, Drop), here, newrow)
  {
  }

  lemma EvolvedAbsent(was: map<Key, Row>, k: Key, here: Key -> bool, newrow: (Key, Row) -> bool)
    requires k !in was
    ensures Evolved(was, was, Only(k, Drop), here, newrow)
  {
  }

  lemma EvolvedPut(was: map<Key, Row>, k: Key, row: Row, here: Key -> bool, newrow: (Key, Row) -> bool)
    requires here(k) && newrow(k, Settled(row))
    ensures Evolved(was, was[k := row], Only(k, Put), here, newrow)
  {
  }

  lemma EvolvedElsewhere(was: map<Key, Row>, k: Key, here: Key -> bool, newrow: (Key, Row) -> bool)
    requires !here(k)
    ensures Evolved(was, was, Only(k, Put), here, newrow)
  {
  }

  // ----- what the nested loops of the engine have done so far -----

  /** One name between one changed list and one other list. */
  ghost function NameActs(env: Env, lists: Lists, l: ListId, c: ListId, name: string): Acts
    requires l in lists && c in lists
  {
    k => if k == Key(name, l, c) then ForwardAct(env, lists, k)
         else if k == Key(name, c, l) then ReverseAct(env, lists, k)
         else Keep
  }

  /** A lost file: its transfers from l go, and it may be fetched again from c. */
  ghost predicate PutsBack(env: Env, lists: Lists, l: ListId, c: ListId, name: string)
    requires l in lists && c in lists
  {
    && lists[c].state != FAILED && TransferPossible(env, c, l)
    && GetFile(lists[c], name).Some? && HasContent(GetFile(lists[c], name).value)
  }

  lemma LostName(env: Env, lists: Lists, l: ListId, c: ListId, name: string)
    requires l in lists && c in lists && GetFile(lists[l], name).None?
    ensures Together(Only(Key(name, l, c), Drop),
                     if PutsBack(env, lists, l, c, name) then Only(Key(name, c, l), Put) else Nothing(),
                     NameActs(env, lists, l, c, name))
  {
    hide GetFile, Contains;
  }

  /** A file that is there: its transfers to l go, and it may be sent to c. */
  ghost predicate Sends(env: Env, lists: Lists, l: ListId, c: ListId, name: string)
    requires l in lists && c in lists && GetFile(lists[l], name).Some?
  {
    && lists[c].state != FAILED && !Contains(lists[c], name) && TransferPossible(env, l, c)
    && HasContent(GetFile(lists[l], name).value)
  }

  lemma FoundName(env: Env, lists: Lists, l: ListId, c: ListId, name: string)
    requires l in lists && c in lists && GetFile(lists[l], name).Some?
    ensures Together(Only(Key(name, c, l), Drop),
                     if Sends(env, lists, l, c, name) then Only(Key(name, l, c), Put) else Nothing(),
                     NameActs(env, lists, l, c, name))
  {
    hide GetFile, Contains;
  }

  /** Some names between one changed list and one other list. */
  ghost function PairActs(env: Env, lists: Lists, l: ListId, c: ListId, names: set<string>): Acts
    requires l in lists && c in lists
  {
    (k: Key) => if k.name !in names then Keep
         else if k.src == l && k.dst == c then ForwardAct(env, lists, k)
         else if k.src == c && k.dst == l then ReverseAct(env, lists, k)
         else Keep
  }

  lemma NextName(env: Env, lists: Lists, l: ListId, c: ListId, names: set<string>, name: string)
    requires l in lists && c in lists && name !in names
    ensures Together(PairActs(env, lists, l, c, names), NameActs(env, lists, l, c, name),
                     PairActs(env, lists, l, c, names + {name}))
  {
  }

  lemma NoNamesYet(env: Env, lists: Lists, l: ListId, c: ListId, rows: map<Key, Row>, here: Key -> bool,
                   newrow: (Key, Row) -> bool)
    requires l in lists && c in lists
    ensures Evolved(rows, rows, PairActs(env, lists, l, c, lists[l].changed - lists[l].changed), here, newrow)
  {
  }

  /** One changed list against the lists of some sites. */
  ghost function SiteActs(env: Env, lists: Lists, l: ListId, sites: set<nat>): Acts
    requires l in lists
  {
    (k: Key) => if (k.src == l && k.dst.site in sites) || (k.dst == l && k.src.site in sites)
         then ListAct(env, lists, l, k) else Keep
  }

  ghost function SiteStep(env: Env, lists: Lists, l: ListId, site: nat): Acts
    requires l in lists
  {
    var c := Peer(env, l, site);
    if c in lists && lists[c].state != UNKNOWN then PairActs(env, lists, l, c, lists[l].changed) else Nothing()
  }

  /** The list of the next site takes part only if it is known. */
  lemma NextSite(env: Env, lists: Lists, l: ListId, sites: set<nat>, site: nat)
    requires l in lists && lists[l].state != FAILED && site !in sites
    ensures Together(SiteActs(env, lists, l, sites), SiteStep(env, lists, l, site),
                     SiteActs(env, lists, l, sites + {site}))
  {
    hide ForwardAct, ReverseAct;
    var step := SiteStep(env, lists, l, site);
    forall k
      ensures SiteActs(env, lists, l, sites + {site})(k) == Both(SiteActs(env, lists, l, sites)(k), step(k))
      ensures SiteActs(env, lists, l, sites)(k) == Keep || step(k) == Keep
    {
    }
  }

  lemma NoSitesYet(env: Env, lists: Lists, l: ListId, rows: map<Key, Row>, here: Key -> bool,
                   newrow: (Key, Row) -> bool)
    requires l in lists
    ensures Evolved(rows, rows, SiteActs(env, lists, l, {}), here, newrow)
  {
    hide ListAct;
  }

  /** A failed list is wiped. */
  lemma WipeActs(env: Env, lists: Lists, l: ListId, was: map<Key, Row>, rows: map<Key, Row>, here: Key -> bool,
                 newrow: (Key, Row) -> bool)
    requires l in lists && lists[l].state == FAILED
    requires rows.Keys == set k | k in was && !Mentions(k, l)
    requires forall k :: k in rows ==> SameData(rows[k], was[k])
    ensures Evolved(was, rows, ListActs(env, lists, l), here, newrow)
  {
  }

  ghost function DrainActs(env: Env, lists: Lists, drained: set<ListId>): Acts
    requires drained <= lists.Keys
  {
    k => DrainAct(env, lists, drained, k)
  }

  ghost function ListActs(env: Env, lists: Lists, l: ListId): Acts
    requires l in lists
  {
    k => ListAct(env, lists, l, k)
  }

  lemma NoListsYet(env: Env, lists: Lists, rows: map<Key, Row>, here: Key -> bool, newrow: (Key, Row) -> bool)
    ensures Evolved(rows, rows, DrainActs(env, lists, {}), here, newrow)
  {
    hide ListAct;
  }

  lemma AllSites(env: Env, lists: Lists, l: ListId, sites: set<nat>)
    requires l in lists && lists[l].state != FAILED
    requires forall m :: m in lists && m.race == l.race ==> m.site in sites
    ensures forall k :: SiteActs(env, lists, l, sites)(k) == ListActs(env, lists, l)(k)
  {
    hide ForwardAct, ReverseAct;
  }

  lemma NextList(env: Env, lists: Lists, drained: set<ListId>, l: ListId)
    requires drained <= lists.Keys && l in lists && l !in drained
    ensures Together(DrainActs(env, lists, drained), ListActs(env, lists, l), DrainActs(env, lists, drained + {l}))
  {
    hide ListAct;
    forall k
      ensures DrainActs(env, lists, drained + {l})(k) ==
              Both(DrainActs(env, lists, drained)(k), ListActs(env, lists, l)(k))
      ensures !(DrainActs(env, lists, drained)(k) == Drop && ListActs(env, lists, l)(k) == Put)
      ensures !(DrainActs(env, lists, drained)(k) == Put && ListActs(env, lists, l)(k) == Drop)
    {
      if k.src in lists && k.dst in lists {
        NoClash(env, lists, k);
      }
      OtherKeys(env, lists, l, k);
      OtherEnd(env, lists, k);
    }
  }

  lemma OtherKeys(env: Env, lists: Lists, l: ListId, k: Key)
    requires l in lists
    ensures k.src != l && k.dst != l ==> ListAct(env, lists, l, k) == Keep
  {
  }

  lemma OtherEnd(env: Env, lists: Lists, k: Key)
    ensures k.src in lists && k.dst !in lists ==> ListAct(env, lists, k.src, k) != Put
    ensures k.dst in lists && k.src !in lists ==> ListAct(env, lists, k.dst, k) != Put
  {
  }

  lemma DrainPlaced(env: Env, lists: Lists, drained: set<ListId>, k: Key)
    requires drained <= lists.Keys && DrainActs(env, lists, drained)(k) == Put
    ensures k.src.race == k.dst.race
  {
  }

  /** Boards that evolved that way, and lists that were cleared that way, are what
      processing the pending lists means. */
  lemma DrainedWorld(env: Env, w: World, w': World, score0: map<Key, Row>, score1: map<Key, Row>,
                     fail0: map<Key, Row>, fail1: map<Key, Row>, onscore: Key -> bool, onfail: Key -> bool,
                     newrow: (Key, Row) -> bool)
    requires w.pending <= w.lists.Keys && w.score == score0.Keys && w.fail == fail0.Keys
    requires w'.score == score1.Keys && w'.fail == fail1.Keys && w'.pending == {} && w'.over == w.over &&
             w'.tries == w.tries
    requires forall k :: onscore(k) == !GivenUp(w.tries, k) && onfail(k) == GivenUp(w.tries, k)
    requires Evolved(score0, score1, DrainActs(env, w.lists, w.pending), onscore, newrow)
    requires Evolved(fail0, fail1, DrainActs(env, w.lists, w.pending), onfail, newrow)
    requires Grown(env, w.lists, w'.lists)
    requires forall l :: l in w.lists ==>
               w'.lists[l] == if l in w.pending then Cleared(w.lists[l]) else w.lists[l]
    requires forall l :: l in w'.inscoreboard <==>
               l in w.inscoreboard && !(l in w.pending && w.lists[l].state == FAILED)
    ensures Drained(env, w, w')
  {
    hide DrainAct, Cleared, InitialContent, GivenUp;
  }

  // ----- the lists while the engine works -----

  /** Lists that were processed have no changes left, and lists that were missed are
      there and empty. */
  ghost predicate Grown(env: Env, was: Lists, lists: Lists) {
    && Extended(env, was, lists)
    && forall l :: l in was ==> lists[l] == was[l] || lists[l] == Cleared(was[l])
  }

  lemma GrownNot(env: Env, lists: Lists)
    ensures Grown(env, lists, lists)
  {
  }

  lemma GrownMember(env: Env, was: Lists, lists: Lists, c: ListId)
    requires Grown(env, was, lists)
    ensures c in was ==> c in lists && lists[c].state == was[c].state
    ensures c in lists && c !in was ==> lists[c].state == UNKNOWN
  {
  }

  /** All sites of the race are all lists that can be at the other end. */
  lemma WholeList(env: Env, was: Lists, lists: Lists, l: ListId, sites: set<nat>)
    requires Grown(env, was, lists) && l in was && was[l].state != FAILED
    requires forall m :: m in lists && m.race == l.race ==> m.site in sites
    ensures forall k :: SiteActs(env, was, l, sites)(k) == ListActs(env, was, l)(k)
  {
    hide ListAct;
    AllSites(env, was, l, sites);
  }

  lemma GrownMore(env: Env, was: Lists, lists: Lists, site: nat, place: ListId)
    requires Grown(env, was, lists) && Peer(env, place, site) !in lists
    ensures Grown(env, was, lists[Peer(env, place, site) := InitialContent(env.user(site), UNKNOWN)])
  {
    hide InitialContent, Cleared;
  }

  lemma GrownCleared(env: Env, was: Lists, lists: Lists, l: ListId)
    requires Grown(env, was, lists) && l in was && lists[l] == was[l]
    ensures Grown(env, was, lists[l := Cleared(was[l])])
  {
    hide InitialContent;
  }

  lemma GrownView(env: Env, was: Lists, lists: Lists, l: ListId)
    requires Grown(env, was, lists) && l in was
    ensures l in lists && lists[l].state == was[l].state
    ensures lists[l].ownpercentage == was[l].ownpercentage && lists[l].uploadedfiles == was[l].uploadedfiles
    ensures forall n :: GetFile(lists[l], n) == GetFile(was[l], n)
    ensures forall n :: Contains(lists[l], n) == Contains(was[l], n)
  {
    hide ToLower;
  }

  // ----- a list that is added to the boards -----

  function NameSet(names: seq<string>): set<string> {
    set n | n in names
  }

  lemma NextNameSet(names: seq<string>, i: nat)
    requires i < |names|
    ensures NameSet(names[..i + 1]) == NameSet(names[..i]) + {names[i]}
  {
    assert names[..i + 1] == names[..i] + [names[i]];
  }

  /** Some names from s to d. */
  ghost function PairPuts(lists: Lists, s: ListId, d: ListId, names: set<string>): Acts
    requires s in lists && d in lists
  {
    (k: Key) => if k.src == s && k.dst == d && k.name in names && Usable(lists[d].state) && SourceHas(lists, k) &&
                   !Contains(lists[d], k.name)
                then Put else Keep
  }

  lemma NextPut(lists: Lists, s: ListId, d: ListId, names: set<string>, name: string)
    requires s in lists && d in lists
    ensures var k := Key(name, s, d);
            Together(PairPuts(lists, s, d, names),
                     if Usable(lists[d].state) && SourceHas(lists, k) && !Contains(lists[d], name) then Only(k, Put)
                       else Nothing(),
                     PairPuts(lists, s, d, names + {name}))
  {
    hide Contains;
  }

  lemma NoPutsYet(lists: Lists, s: ListId, d: ListId, names: set<string>, rows: map<Key, Row>, here: Key -> bool,
                  newrow: (Key, Row) -> bool)
    requires s in lists && d in lists
    requires names == {} || !Usable(lists[d].state)
    ensures Evolved(rows, rows, PairPuts(lists, s, d, names), here, newrow)
  {
    hide Contains;
  }

  /** The lists of some sites against l, in both directions. */
  ghost function SitePuts(env: Env, lists: Lists, l: ListId, sites: set<nat>): Acts {
    (k: Key) => if AddedBy(env, lists, l, k) && (if k.src == l then k.dst.site in sites else k.src.site in sites)
                then Put else Keep
  }

  /** What the next site adds. */
  ghost function InPuts(env: Env, lists: Lists, l: ListId, c: ListId): Acts
    requires l in lists
  {
    if c in lists && TransferPossible(env, c, l) then PairPuts(lists, c, l, lists[c].files.Keys) else Nothing()
  }

  ghost function OutPuts(env: Env, lists: Lists, l: ListId, c: ListId): Acts
    requires l in lists
  {
    if c in lists && TransferPossible(env, l, c) then PairPuts(lists, l, c, lists[l].files.Keys) else Nothing()
  }

  ghost function HalfPuts(env: Env, lists: Lists, l: ListId, sites: set<nat>, c: ListId): Acts
    requires l in lists
  {
    (k: Key) => Both(SitePuts(env, lists, l, sites)(k), InPuts(env, lists, l, c)(k))
  }

  lemma NextSitePuts(env: Env, lists: Lists, l: ListId, sites: set<nat>, site: nat)
    requires l in lists && Current(env, l)
    ensures var c := Peer(env, l, site);
            && Together(SitePuts(env, lists, l, sites), InPuts(env, lists, l, c), HalfPuts(env, lists, l, sites, c))
            && Together(HalfPuts(env, lists, l, sites, c), OutPuts(env, lists, l, c),
                        SitePuts(env, lists, l, sites + {site}))
  {
    hide Contains, HasContent;
    var c := Peer(env, l, site);
    forall k
      ensures SitePuts(env, lists, l, sites + {site})(k) ==
              Both(Both(SitePuts(env, lists, l, sites)(k), InPuts(env, lists, l, c)(k)), OutPuts(env, lists, l, c)(k))
    {
      if AddedBy(env, lists, l, k) {
      }
    }
  }

  /** A site without a list of that sub path adds nothing. */
  lemma MissingSitePuts(env: Env, lists: Lists, l: ListId, sites: set<nat>, site: nat)
    requires l in lists && Current(env, l) && Peer(env, l, site) !in lists
    ensures forall k :: SitePuts(env, lists, l, sites)(k) == SitePuts(env, lists, l, sites + {site})(k)
  {
    NextSitePuts(env, lists, l, sites, site);
  }

  /** What adding a list means. */
  lemma AddedWorld(env: Env, w: World, l: ListId, w': World, score0: map<Key, Row>, score1: map<Key, Row>,
                   anywhere: Key -> bool, newrow: (Key, Row) -> bool, sites: set<nat>)
    requires l in w.lists && w.score == score0.Keys && w'.score == score1.Keys
    requires forall k :: anywhere(k)
    requires Evolved(score0, score1, SitePuts(env, w.lists, l, sites), anywhere, newrow)
    requires forall m :: m in w.lists && m.race == l.race ==> m.site in sites
    requires w' == w.(lists := w'.lists, score := w'.score, inscoreboard := w.inscoreboard + {l})
    requires Extended(env, w.lists, w'.lists) && forall m :: m in w.lists ==> w'.lists[m] == w.lists[m]
    ensures Added(env, w, l, w')
  {
    hide AddedBy, Extended;
    AllSitePuts(env, w.lists, l, sites);
    forall k
      ensures k in score1 <==> k in score0 || AddedBy(env, w.lists, l, k)
    {
      assert k in score1 <==> After(SitePuts(env, w.lists, l, sites)(k), k in score0, anywhere(k));
    }
  }

  lemma NoSitePutsYet(env: Env, lists: Lists, l: ListId, rows: map<Key, Row>, here: Key -> bool,
                      newrow: (Key, Row) -> bool)
    ensures Evolved(rows, rows, SitePuts(env, lists, l, {}), here, newrow)
  {
    hide AddedBy;
  }

  /** A list without uploaded files sends nothing. */
  lemma NothingToSend(env: Env, lists: Lists, l: ListId, c: ListId, rows: map<Key, Row>, here: Key -> bool,
                      newrow: (Key, Row) -> bool)
    requires l in lists && Sound(lists[l]) && UploadsCounted(lists[l]) && lists[l].uploadedfiles == 0
    ensures Evolved(rows, rows, OutPuts(env, lists, l, c), here, newrow)
  {
    hide Contains, HasContent;
    NoUploadsNoContent(lists[l].order, lists[l].files);
  }

  lemma AllSitePuts(env: Env, lists: Lists, l: ListId, sites: set<nat>)
    requires forall m :: m in lists && m.race == l.race ==> m.site in sites
    ensures forall k :: SitePuts(env, lists, l, sites)(k) == Put <==> AddedBy(env, lists, l, k)
    ensures forall k :: SitePuts(env, lists, l, sites)(k) != Drop
  {
    hide Contains, HasContent;
  }
}
