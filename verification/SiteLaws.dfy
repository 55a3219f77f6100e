/** What every operation on a site keeps: the four counters agree with the connections,
    every request is in one place, and the limits hold. */
module SiteLaws {
  import opened Base
  import opened Sums
  import opened SiteStates

  // ----- the counters -----

  function One(b: bool): int {
    if b then 1 else 0
  }

  function LoggedInWeight(): Conn -> int {
    (c: Conn) => One(c.loggedin && !c.quitting)
  }

  function BusyWeight(): Conn -> int {
    (c: Conn) => One(c.Busy())
  }

  function LockedWeight(download: bool): Conn -> int {
    (c: Conn) => One(c.transferlocked && c.download == download)
  }

  function ReturnWeight(download: bool): SlotReturn -> int {
    (d: SlotReturn) => One(d.download == download)
  }

  /** loggedin counts the connections that are logged in and not quitting; available is
      what is left of them after those with a transfer or a request; each slot counter is
      the locked connections of its kind and the slots that are still to be returned. */
  ghost predicate Books(s: State) {
    && s.loggedin == Sum(s.conns, LoggedInWeight())
    && s.available + Sum(s.conns, BusyWeight()) == s.loggedin
    && s.slotsdn == Sum(s.conns, LockedWeight(true)) + Sum(s.delayed, ReturnWeight(true))
    && s.slotsup == Sum(s.conns, LockedWeight(false)) + Sum(s.delayed, ReturnWeight(false))
  }

  /** A change of one connection that moves the counters by as much keeps the books. */
  lemma BooksMove(s: State, s': State, id: nat)
    requires Books(s) && id < |s.conns| == |s'.conns| && s'.conns == s.conns[id := s'.conns[id]]
    requires s'.loggedin - s.loggedin == LoggedInWeight()(s'.conns[id]) - LoggedInWeight()(s.conns[id])
    requires s'.available - s.available + One(s'.conns[id].Busy()) - One(s.conns[id].Busy()) == s'.loggedin - s.loggedin
    requires s'.slotsdn - s.slotsdn ==
             LockedWeight(true)(s'.conns[id]) - LockedWeight(true)(s.conns[id]) +
             Sum(s'.delayed, ReturnWeight(true)) - Sum(s.delayed, ReturnWeight(true))
    requires s'.slotsup - s.slotsup ==
             LockedWeight(false)(s'.conns[id]) - LockedWeight(false)(s.conns[id]) +
             Sum(s'.delayed, ReturnWeight(false)) - Sum(s.delayed, ReturnWeight(false))
    ensures Books(s')
  {
    hide Sum;
    var c := s'.conns[id];
    SumUpdate(s.conns, id, c, LoggedInWeight());
    SumUpdate(s.conns, id, c, BusyWeight());
    SumUpdate(s.conns, id, c, LockedWeight(true));
    SumUpdate(s.conns, id, c, LockedWeight(false));
  }

  // ----- the connections -----

  /** A transfer needs its lock, a connection that is closing has nothing to do, and only
      the second stage of a download is both a request and a transfer. */
  predicate ConnOk(c: Conn) {
    && (c.transfer ==> c.transferlocked)
    && (c.quitting ==> c.loggedin && !c.Busy() && !c.listtransfer)
    && (c.transferlocked && c.request.Some? ==> c.request.value.kind == DOWNLOAD_STAGE2 && c.download)
  }

  predicate ConnsOk(s: State) {
    forall i :: 0 <= i < |s.conns| ==> ConnOk(s.conns[i])
  }

  /** A request for the second stage of a download is nobody's until it is taken. */
  predicate QueueOk(s: State) {
    forall r :: r in s.requests && r.kind == DOWNLOAD_STAGE2 ==> r.connid == None
  }

  // ----- the requests -----

  function QueuedWeight(i: nat): Request -> int {
    (r: Request) => One(r.id == i)
  }

  function HeldWeight(i: nat): Conn -> int {
    (c: Conn) => One(c.request.Some? && c.request.value.id == i)
  }

  function ReadyWeight(i: nat): ReadyRequest -> int {
    (r: ReadyRequest) => One(r.id == i)
  }

  /** In how many places request i is. */
  function Places(s: State, i: nat): int {
    Sum(s.requests, QueuedWeight(i)) + Sum(s.conns, HeldWeight(i)) + Sum(s.ready, ReadyWeight(i)) + One(i in s.gone)
  }

  /** Every request that was issued is in exactly one place: queued, held by one
      connection, ready, or gone. */
  ghost predicate Conserved(s: State) {
    forall i: nat :: Places(s, i) == One(i < s.requestidcounter)
  }

  // ----- requests that become ready -----

  lemma ReadyConns(s: State, id: nat, status: bool, returnslot: bool)
    requires id < |s.conns| && s.conns[id].request.Some?
    ensures var s' := SetRequestReady(s, id, status, returnslot);
            && s'.conns == s.conns[id := s.conns[id].(request := None)]
            && s'.loggedin == s.loggedin && s'.slotsdn == s.slotsdn && s'.slotsup == s.slotsup &&
               s'.delayed == s.delayed
            && s'.available == s.available + One(returnslot && !s.conns[id].transferlocked)
            && s'.requests == s.requests && s'.requestidcounter == s.requestidcounter && s'.currtime == s.currtime
  {
    hide Expired, First;
  }

  lemma ReadyBooks(s: State, id: nat, status: bool)
    requires Books(s) && id < |s.conns| && s.conns[id].request.Some?
    ensures Books(SetRequestReady(s, id, status, true))
  {
    hide Books, SetRequestReady, Sum;
    ReadyConns(s, id, status, true);
    BooksMove(s, SetRequestReady(s, id, status, true), id);
  }

  lemma InIds(ready: seq<ReadyRequest>, i: nat)
    ensures Sum(ready, ReadyWeight(i)) >= 0
    ensures i in Ids(ready) <==> Sum(ready, ReadyWeight(i)) > 0
  {
    hide Sum;
    SumAtLeast(ready, ReadyWeight(i), 0);
    if i in Ids(ready) {
      var k: nat :| k < |ready| && ready[k].id == i;
      SumAtLeast(ready, ReadyWeight(i), k);
    } else {
      SumZero(ready, ReadyWeight(i));
    }
  }

  /** Requests expire into the ones that are gone. */
  lemma ExpiredPlaces(s: State, i: nat)
    requires Places(s, i) <= 1
    ensures Places(ClearExpired(s), i) == Places(s, i)
  {
    hide Expired, Sum;
    var k := Expired(s.ready, s.sinceready);
    SumDrop(s.ready, k, ReadyWeight(i));
    InIds(s.ready[..k], i);
    InIds(s.ready[k..], i);
    SumAtLeast(s.requests, QueuedWeight(i), 0);
    SumAtLeast(s.conns, HeldWeight(i), 0);
  }

  /** The entry that was added last is never the one that expires. */
  lemma LastStays(s: State)
    requires s.ready != []
    ensures ClearExpired(s).ready != [] && ClearExpired(s).ready[|ClearExpired(s).ready| - 1] == s.ready[|s.ready| - 1]
  {
  }

  lemma TakenPlaces(s: State, requestid: nat, i: nat)
    requires requestid !in s.gone
    ensures Places(TakeReady(s, requestid), i) == Places(s, i)
  {
    hide First, Sum;
    var k := First(s.ready, ReadyWith(requestid));
    if k < |s.ready| {
      SumWithout(s.ready, k, ReadyWeight(i));
    }
  }

  lemma PlacesOf(s: State, t: State, i: nat)
    requires s.requests == t.requests && s.conns == t.conns && s.ready == t.ready && s.gone == t.gone
    ensures Places(s, i) == Places(t, i)
  {
  }

  /** Handing a request from the connection to the ready list. */
  lemma HandedPlaces(s: State, id: nat, status: bool, i: nat)
    requires id < |s.conns| && s.conns[id].request.Some?
    ensures var r := s.conns[id].request.value;
            var t := WithConn(s, id, s.conns[id].(request := None))
                     .(ready := s.ready + [ReadyRequest(r.id, r.kind, status)]);
            Places(t, i) == Places(s, i)
  {
    hide Sum;
    var r := s.conns[id].request.value;
    SumUpdate(s.conns, id, s.conns[id].(request := None), HeldWeight(i));
    SumAppend(s.ready, ReadyRequest(r.id, r.kind, status), ReadyWeight(i));
  }

  /** A request with exactly one place, which is the ready list, is not gone. */
  lemma ReadyNotGone(s: State, k: nat)
    requires k < |s.ready| && Places(s, s.ready[k].id) <= 1
    ensures s.ready[k].id !in s.gone
  {
    hide Sum;
    var i := s.ready[k].id;
    SumAtLeast(s.requests, QueuedWeight(i), 0);
    SumAtLeast(s.conns, HeldWeight(i), 0);
    SumAtLeast(s.ready, ReadyWeight(i), k);
  }

  lemma ReadyPlaces(s: State, id: nat, status: bool, returnslot: bool, i: nat)
    requires id < |s.conns| && s.conns[id].request.Some?
    requires Places(s, i) <= 1 && Places(s, s.conns[id].request.value.id) <= 1
    ensures Places(SetRequestReady(s, id, status, returnslot), i) == Places(s, i)
  {
    hide Places, ClearExpired, TakeReady;
    var r := s.conns[id].request.value;
    var t := WithConn(s, id, s.conns[id].(request := None)).(ready := s.ready + [ReadyRequest(r.id, r.kind, status)]);
    HandedPlaces(s, id, status, i);
    HandedPlaces(s, id, status, r.id);
    ExpiredPlaces(t, i);
    ExpiredPlaces(t, r.id);
    LastStays(t);
    var s1 := ClearExpired(s.(ready := s.ready + [ReadyRequest(r.id, r.kind, status)]));
    var s2 := WithConn(s1, id, s.conns[id].(request := None)).(
              sinceready := 0,
              available := s.available + if returnslot && !s.conns[id].transferlocked then 1 else 0);
    ClearedAlike(s.(ready := t.ready), t);
    PlacesOf(s2, ClearExpired(t), i);
    PlacesOf(s2, ClearExpired(t), r.id);
    if !r.callback {
      ReadyNotGone(s2, |s2.ready| - 1);
      TakenPlaces(s2, r.id, i);
    }
  }

  /** Expiry does not look at the connections. */
  lemma ClearedAlike(s: State, t: State)
    requires s.ready == t.ready && s.sinceready == t.sinceready && s.gone == t.gone
    ensures ClearExpired(s).ready == ClearExpired(t).ready && ClearExpired(s).gone == ClearExpired(t).gone
    ensures ClearExpired(s).requests == s.requests && ClearExpired(t).requests == t.requests
    ensures ClearExpired(s).conns == s.conns && ClearExpired(t).conns == t.conns
  {
  }

  /** Finishing a request without an owner finds it on the ready list, so the search
      never comes to its failing end. */
  lemma UnownedIsFound(s: State, id: nat, status: bool)
    requires id < |s.conns| && s.conns[id].request.Some?
    ensures var r := s.conns[id].request.value;
            var t := ClearExpired(s.(ready := s.ready + [ReadyRequest(r.id, r.kind, status)]));
            First(t.ready, ReadyWith(r.id)) < |t.ready|
  {
    hide ClearExpired;
    var r := s.conns[id].request.value;
    LastStays(s.(ready := s.ready + [ReadyRequest(r.id, r.kind, status)]));
  }

  // ----- what the owner of a request is told -----

  /** The younger part of a list of ready requests is left. */
  predicate Younger(was: seq<ReadyRequest>, now: seq<ReadyRequest>) {
    |now| <= |was| && now == was[|was| - |now|..]
  }

  /** Ready requests expire when none came for ten seconds, the oldest first, and the ten
      youngest stay. */
  lemma ExpiredExact(s: State)
    ensures var t := ClearExpired(s);
            && Younger(s.ready, t.ready) && t.gone == s.gone + Ids(s.ready[..|s.ready| - |t.ready|])
            && |t.ready| == if s.sinceready > 10000 && |s.ready| > 10 then 10 else |s.ready|
  {
  }

  /** The owner of a request is told what kind of request it was and how it ended, and those
      that were ready before stay, unless they are old. */
  lemma ReadyTells(s: State, id: nat, status: bool, returnslot: bool)
    requires id < |s.conns| && s.conns[id].request.Some? && s.conns[id].request.value.callback
    ensures var r, t := s.conns[id].request.value, SetRequestReady(s, id, status, returnslot);
            && t.ready != [] && t.ready[|t.ready| - 1] == ReadyRequest(r.id, r.kind, status)
            && Younger(s.ready, t.ready[..|t.ready| - 1]) && t.sinceready == 0
            && (s.sinceready <= 10000 ==> t.ready[..|t.ready| - 1] == s.ready)
  {
    var r := s.conns[id].request.value;
    ExpiredExact(s.(ready := s.ready + [ReadyRequest(r.id, r.kind, status)]));
  }

  /** A request that nobody waits for is gone at once. */
  lemma ReadyUntold(s: State, id: nat, status: bool, returnslot: bool)
    requires id < |s.conns| && s.conns[id].request.Some? && !s.conns[id].request.value.callback
    requires Places(s, s.conns[id].request.value.id) <= 1
    ensures var r, t := s.conns[id].request.value, SetRequestReady(s, id, status, returnslot);
            && Younger(s.ready, t.ready) && r.id in t.gone && t.sinceready == 0
            && (s.sinceready <= 10000 ==> t.ready == s.ready)
  {
    hide Sum, ClearExpired, First;
    var r := s.conns[id].request.value;
    var x := ReadyRequest(r.id, r.kind, status);
    var more := s.(ready := s.ready + [x]);
    ExpiredExact(more);
    HeldNotReady(s, id);
    var t := ClearExpired(more);
    var n := |t.ready| - 1;
    assert t.ready[n] == x && forall j :: 0 <= j < n ==> t.ready[j] in s.ready;
    assert First(t.ready, ReadyWith(r.id)) == n;
    assert Without(t.ready, n) == t.ready[..n];
  }

  /** A request that a connection holds is not ready. */
  lemma HeldNotReady(s: State, id: nat)
    requires id < |s.conns| && s.conns[id].request.Some? && Places(s, s.conns[id].request.value.id) <= 1
    ensures forall x :: x in s.ready ==> x.id != s.conns[id].request.value.id
  {
    hide Sum;
    var i := s.conns[id].request.value.id;
    SumAtLeast(s.requests, QueuedWeight(i), 0);
    SumAtLeast(s.conns, HeldWeight(i), id);
    InIds(s.ready, i);
    assert forall x :: x in s.ready && x.id == i ==> x.id in Ids(s.ready);
  }

  /** What the owner learns when it finishes a request that is ready, or is still held. */
  function StatusOf(s: State, requestid: nat): bool {
    var k := First(s.ready, ReadyWith(requestid));
    if k < |s.ready| then s.ready[k].status else true
  }

  /** The owner learns the status that the request ended with. */
  lemma StatusComesBack(s: State, id: nat, status: bool)
    requires id < |s.conns| && s.conns[id].request.Some? && s.conns[id].request.value.callback
    requires Places(s, s.conns[id].request.value.id) <= 1
    ensures var r, t := s.conns[id].request.value, SetRequestReady(s, id, status, true);
            && StatusOf(t, r.id) == status
            && FinishRequest(t, r.id).ready == t.ready[..|t.ready| - 1]
  {
    hide Sum, SetRequestReady, First;
    var r, t := s.conns[id].request.value, SetRequestReady(s, id, status, true);
    ReadyTells(s, id, status, true);
    HeldNotReady(s, id);
    var n := |t.ready| - 1;
    assert forall j :: 0 <= j < n ==> t.ready[j] == t.ready[..n][j] && t.ready[..n][j] in s.ready;
    assert First(t.ready, ReadyWith(r.id)) == n;
    assert Without(t.ready, n) == t.ready[..n];
  }

  lemma ReadyConserved(s: State, id: nat, status: bool, returnslot: bool)
    requires Conserved(s) && id < |s.conns| && s.conns[id].request.Some?
    ensures Conserved(SetRequestReady(s, id, status, returnslot))
  {
    hide Places, SetRequestReady;
    ReadyConns(s, id, status, returnslot);
    assert Places(s, s.conns[id].request.value.id) <= 1;
    forall i: nat
      ensures Places(SetRequestReady(s, id, status, returnslot), i) == Places(s, i)
    {
      ReadyPlaces(s, id, status, returnslot, i);
    }
  }
}
