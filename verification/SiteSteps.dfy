/** Every operation on a site keeps what SiteLaws states. */
module SiteSteps {
  import opened Base
  import opened Sums
  import opened SiteStates
  import opened SiteLaws

  function MaxDownloads(st: Settings): nat {
    var a := if st.maxdown > st.maxdownpre then st.maxdown else st.maxdownpre;
    var b := if st.maxdowncomplete > st.maxdowntransferjob then st.maxdowncomplete else st.maxdowntransferjob;
    if a > b then a else b
  }

  predicate WithinLimits(st: Settings, s: State) {
    s.slotsup <= st.maxup && s.slotsdn <= MaxDownloads(st)
  }

  predicate ReturnsSoon(s: State) {
    forall d :: d in s.delayed ==> d.triggertime <= s.currtime + TRANSFER_SLOT_CLEANUP_DELAY
  }

  ghost predicate Inv(st: Settings, s: State) {
    && Books(s) && Conserved(s)
    && ConnsOk(s) && QueueOk(s)
    && WithinLimits(st, s) && ReturnsSoon(s)
  }

  lemma FreshKeeps(st: Settings, connections: nat)
    ensures Inv(st, Fresh(connections))
  {
    var s := Fresh(connections);
    SumZero(s.conns, LoggedInWeight());
    SumZero(s.conns, BusyWeight());
    SumZero(s.conns, LockedWeight(true));
    SumZero(s.conns, LockedWeight(false));
    forall i: nat
      ensures Places(s, i) == 0
    {
      SumZero(s.conns, HeldWeight(i));
    }
  }

  /** A change of one connection that concerns no request. */
  lemma SameRequest(s: State, s': State, id: nat)
    requires Conserved(s) && id < |s.conns| == |s'.conns| && s'.conns == s.conns[id := s'.conns[id]]
    requires s'.conns[id].request == s.conns[id].request
    requires s'.requests == s.requests && s'.ready == s.ready && s'.gone == s.gone
    requires s'.requestidcounter == s.requestidcounter
    ensures Conserved(s')
  {
    hide Sum;
    forall i: nat
      ensures Places(s', i) == Places(s, i)
    {
      SumUpdate(s.conns, id, s'.conns[id], HeldWeight(i));
    }
  }

  lemma OneConn(s: State, s': State, id: nat)
    requires ConnsOk(s) && id < |s.conns| && |s'.conns| == |s.conns| && s'.conns == s.conns[id := s'.conns[id]]
    requires ConnOk(s'.conns[id])
    ensures ConnsOk(s')
  {
  }

  // ----- connecting -----

  lemma ConnectKeeps(st: Settings, s: State, id: nat)
    requires Inv(st, s) && id < |s.conns|
    ensures Inv(st, WithConn(s, id, s.conns[id].(connected := true)))
  {
    hide Books, Conserved, ConnsOk, Sum;
    var s' := WithConn(s, id, s.conns[id].(connected := true));
    assert ConnOk(s.conns[id]) by { ConnAt(s, id); }
    BooksMove(s, s', id);
    SameRequest(s, s', id);
    OneConn(s, s', id);
  }

  lemma ConnAt(s: State, id: nat)
    requires ConnsOk(s) && id < |s.conns|
    ensures ConnOk(s.conns[id])
  {
  }

  function LogIn(s: State, id: nat): State
    requires id < |s.conns|
  {
    WithConn(s, id, s.conns[id].(loggedin := true)).(loggedin := s.loggedin + 1, available := s.available + 1)
  }

  lemma LogInKeeps(st: Settings, s: State, id: nat)
    requires Inv(st, s) && id < |s.conns| && !s.conns[id].loggedin
    ensures Inv(st, LogIn(s, id))
  {
    hide Books, Conserved, ConnsOk, Sum;
    ConnAt(s, id);
    BooksMove(s, LogIn(s, id), id);
    SameRequest(s, LogIn(s, id), id);
    OneConn(s, LogIn(s, id), id);
  }

  // ----- transfers -----

  lemma LockKeeps(st: Settings, s: State, id: nat, isdownload: bool, origin: Origin)
    requires Inv(st, s) && id < |s.conns| && s.conns[id].loggedin && !s.conns[id].HardLocked()
    requires SlotFree(st, s, isdownload, origin)
    ensures Inv(st, LockConn(s, id, isdownload))
  {
    hide Books, Conserved, ConnsOk, Sum;
    ConnAt(s, id);
    BooksMove(s, LockConn(s, id, isdownload), id);
    SameRequest(s, LockConn(s, id, isdownload), id);
    OneConn(s, LockConn(s, id, isdownload), id);
  }

  lemma SetTransferKeeps(st: Settings, s: State, id: nat)
    requires Inv(st, s) && id < |s.conns| && s.conns[id].transferlocked
    ensures Inv(st, WithConn(s, id, s.conns[id].(transfer := true)))
  {
    hide Books, Conserved, ConnsOk, Sum;
    var s' := WithConn(s, id, s.conns[id].(transfer := true));
    ConnAt(s, id);
    BooksMove(s, s', id);
    SameRequest(s, s', id);
    OneConn(s, s', id);
  }

  lemma SetListKeeps(st: Settings, s: State, id: nat)
    requires Inv(st, s) && id < |s.conns| && !s.conns[id].transferlocked && !s.conns[id].quitting
    ensures Inv(st, WithConn(s, id, s.conns[id].(listtransfer := true)))
  {
    hide Books, Conserved, ConnsOk, Sum;
    var s' := WithConn(s, id, s.conns[id].(listtransfer := true));
    ConnAt(s, id);
    BooksMove(s, s', id);
    SameRequest(s, s', id);
    OneConn(s, s', id);
  }

  lemma FileCompleteKeeps(st: Settings, s: State, id: nat, isdownload: bool)
    requires Inv(st, s) && id < |s.conns|
    requires s.conns[id].transferlocked && !s.conns[id].listtransfer && s.conns[id].download == isdownload
    ensures Inv(st, FileComplete(s, id, isdownload))
  {
    hide Books, Conserved, ConnsOk, Sum;
    ConnAt(s, id);
    BooksMove(s, FileComplete(s, id, isdownload), id);
    SameRequest(s, FileComplete(s, id, isdownload), id);
    OneConn(s, FileComplete(s, id, isdownload), id);
  }

  lemma ListCompleteKeeps(st: Settings, s: State, id: nat)
    requires Inv(st, s) && id < |s.conns| && s.conns[id].listtransfer
    ensures Inv(st, WithConn(s, id, s.conns[id].FinishTransfer()))
  {
    hide Books, Conserved, ConnsOk, Sum;
    var s' := WithConn(s, id, s.conns[id].FinishTransfer());
    ConnAt(s, id);
    BooksMove(s, s', id);
    SameRequest(s, s', id);
    OneConn(s, s', id);
  }

  lemma ReturnConnKeeps(st: Settings, s: State, id: nat, istransfer: bool)
    requires Inv(st, s) && id < |s.conns| && !(istransfer && s.conns[id].listtransfer && s.conns[id].transferlocked)
    ensures Inv(st, ReturnConn(s, id, istransfer))
  {
    hide Books, Conserved, ConnsOk, Sum;
    ConnAt(s, id);
    BooksMove(s, ReturnConn(s, id, istransfer), id);
    SameRequest(s, ReturnConn(s, id, istransfer), id);
    OneConn(s, ReturnConn(s, id, istransfer), id);
  }

  /** Handing back a connection keeps the books if and only if the file transfer does not
      hide behind a list transfer on the same connection; if it does, its slot is never
      given back. */
  lemma ReturnConnExact(s: State, id: nat, istransfer: bool)
    requires Books(s) && id < |s.conns| && ConnOk(s.conns[id])
    ensures Books(ReturnConn(s, id, istransfer)) <==>
            !(istransfer && s.conns[id].listtransfer && s.conns[id].transferlocked)
  {
    hide Sum;
    var c := s.conns[id];
    var s' := ReturnConn(s, id, istransfer);
    SumUpdate(s.conns, id, s'.conns[id], LoggedInWeight());
    SumUpdate(s.conns, id, s'.conns[id], BusyWeight());
    SumUpdate(s.conns, id, s'.conns[id], LockedWeight(true));
    SumUpdate(s.conns, id, s'.conns[id], LockedWeight(false));
  }

  /** A connection that is handed back ends its list transfer, or, without one or for a
      transfer, its file transfer; the other one and the request stay. */
  lemma ReturnedConn(s: State, id: nat, istransfer: bool)
    requires id < |s.conns|
    ensures var c, t := s.conns[id], ReturnConn(s, id, istransfer);
            && t.conns == s.conns[id := if istransfer || !c.listtransfer
                                        then Conn(c.connected, c.loggedin, c.quitting, c.listtransfer, false, false,
                                                  c.download, c.request)
                                        else Conn(c.connected, c.loggedin, c.quitting, false, c.transferlocked,
                                                  c.transfer, c.download, c.request)]
            && t.requests == s.requests && t.ready == s.ready && t.delayed == s.delayed
  {
  }

  lemma ReturnConnInv(st: Settings, s: State, id: nat, istransfer: bool)
    requires Inv(st, s) && id < |s.conns|
    ensures Inv(st, ReturnConn(s, id, istransfer)) <==>
            !(istransfer && s.conns[id].listtransfer && s.conns[id].transferlocked)
  {
    hide Books, Conserved, ConnsOk, QueueOk, ReturnConn;
    InvConn(st, s, id);
    ReturnConnExact(s, id, istransfer);
    if !(istransfer && s.conns[id].listtransfer && s.conns[id].transferlocked) {
      ReturnConnKeeps(st, s, id, istransfer);
    }
  }

  // ----- requests that end -----

  lemma ReadyKeeps(st: Settings, s: State, id: nat, status: bool)
    requires Inv(st, s) && id < |s.conns| && s.conns[id].request.Some?
    ensures Inv(st, SetRequestReady(s, id, status, true))
  {
    hide Books, Conserved, ConnsOk, Sum, SetRequestReady;
    ConnAt(s, id);
    ReadyConns(s, id, status, true);
    ReadyBooks(s, id, status);
    ReadyConserved(s, id, status, true);
    OneConn(s, SetRequestReady(s, id, status, true), id);
  }

  /** The first half of a failure: the transfer ends. */
  function EndTransfer(s: State, id: nat, cleanup: bool): (r: State)
    requires id < |s.conns|
    ensures |r.conns| == |s.conns|
  {
    var c := s.conns[id];
    var isdownload := c.CurrentType() == DOWNLOAD;
    var s1 := if c.listtransfer then s
              else TransferComplete(s, id, isdownload, !cleanup).(
                   delayed := s.delayed +
                     if cleanup then [SlotReturn(isdownload, s.currtime + TRANSFER_SLOT_CLEANUP_DELAY)] else []);
    WithConn(s1, id, c.FinishTransfer())
  }

  lemma EndTransferKeeps(st: Settings, s: State, id: nat, cleanup: bool)
    requires Inv(st, s) && id < |s.conns| && s.conns[id].ListOrTransferLocked()
    ensures Inv(st, EndTransfer(s, id, cleanup))
  {
    hide Books, Conserved, ConnsOk, Sum;
    ConnAt(s, id);
    var c := s.conns[id];
    var back := SlotReturn(c.CurrentType() == DOWNLOAD, s.currtime + TRANSFER_SLOT_CLEANUP_DELAY);
    SumAppend(s.delayed, back, ReturnWeight(true));
    SumAppend(s.delayed, back, ReturnWeight(false));
    assert s.delayed + [] == s.delayed;
    BooksMove(s, EndTransfer(s, id, cleanup), id);
    SameRequest(s, EndTransfer(s, id, cleanup), id);
    OneConn(s, EndTransfer(s, id, cleanup), id);
  }

  lemma ReportKeeps(st: Settings, s: State, id: nat, cleanup: bool)
    requires Inv(st, s) && id < |s.conns| && s.conns[id].ListOrTransferLocked()
    ensures Inv(st, ReportTransferErrorAndFinish(s, id, cleanup))
  {
    hide Inv, SetRequestReady;
    EndTransferKeeps(st, s, id, cleanup);
    if s.conns[id].HoldsDownload() {
      ReadyKeeps(st, EndTransfer(s, id, cleanup), id, false);
    }
  }

  lemma ReportConn(s: State, id: nat, cleanup: bool)
    requires id < |s.conns|
    ensures var c, s' := s.conns[id], ReportTransferErrorAndFinish(s, id, cleanup);
            && s'.conns == s.conns[id := c.FinishTransfer().(request := if c.HoldsDownload() then None else c.request)]
            && s'.requests == s.requests && s'.currtime == s.currtime && s'.loggedin == s.loggedin
  {
    hide SetRequestReady;
    if s.conns[id].HoldsDownload() {
      ReadyConns(EndTransfer(s, id, cleanup), id, false, true);
    }
  }

  // ----- cleaning up -----

  /** Cleaning up takes at most two rounds, and afterwards the connection is as clean as a
      closing connection has to be. */
  lemma CleanupRounds(st: Settings, s: State, id: nat)
    requires Inv(st, s) && id < |s.conns|
    ensures var t := DropTransfer(DropTransfer(s, id), id);
            && Inv(st, t) && !t.conns[id].ListOrTransferLocked()
            && Inv(st, DropRequest(t, id))
            && DropRequest(t, id).conns[id].Clean()
            && DropRequest(t, id).conns == s.conns[id := DropRequest(t, id).conns[id]]
            && DropRequest(t, id).conns[id] == s.conns[id].(listtransfer := false, transferlocked := false,
                                                            transfer := false, request := None)
  {
    hide Inv, ReportTransferErrorAndFinish, SetRequestReady;
    DropKeeps(st, s, id);
    var s1 := DropTransfer(s, id);
    DropKeeps(st, s1, id);
    var s2 := DropTransfer(s1, id);
    InvConn(st, s, id);
    if s2.conns[id].request.Some? {
      ReadyKeeps(st, s2, id, false);
      ReadyConns(s2, id, false, true);
    }
  }

  lemma InvConn(st: Settings, s: State, id: nat)
    requires Inv(st, s) && id < |s.conns|
    ensures ConnOk(s.conns[id])
  {
  }

  lemma DropKeeps(st: Settings, s: State, id: nat)
    requires Inv(st, s) && id < |s.conns|
    ensures Inv(st, DropTransfer(s, id))
    ensures var c := s.conns[id];
            DropTransfer(s, id).conns ==
            if c.ListOrTransferLocked() then
              s.conns[id := c.FinishTransfer().(request := if c.HoldsDownload() then None else c.request)]
            else s.conns
  {
    hide Inv, ReportTransferErrorAndFinish;
    if s.conns[id].ListOrTransferLocked() {
      ReportKeeps(st, s, id, true);
      ReportConn(s, id, true);
    }
  }

  /** Failing a queued request leaves the connection and the counters as they were. */
  lemma FailQueuedKeeps(st: Settings, s: State, id: nat, k: nat)
    requires Inv(st, s) && id < |s.conns| && s.conns[id].Clean() && k < |s.requests|
    ensures Inv(st, FailQueued(s, id, k)) && FailQueued(s, id, k).conns == s.conns
    ensures FailQueued(s, id, k).requests == Without(s.requests, k)
  {
    hide Books, Conserved, ConnsOk, Sum, SetRequestReady;
    var t := WithConn(s.(requests := Without(s.requests, k)), id, s.conns[id].(request := Some(s.requests[k])));
    TakenOn(s, t, id, k);
    ReadyConns(t, id, false, false);
    ReadyConserved(t, id, false, false);
    assert t.conns[id := t.conns[id].(request := None)] == s.conns;
    SameBooks(s, FailQueued(s, id, k));
    SameConns(s, FailQueued(s, id, k));
  }

  lemma SameBooks(s: State, t: State)
    requires Books(s) && t.conns == s.conns && t.delayed == s.delayed
    requires t.loggedin == s.loggedin && t.available == s.available && t.slotsdn == s.slotsdn && t.slotsup == s.slotsup
    ensures Books(t)
  {
  }

  lemma SameConns(s: State, t: State)
    requires ConnsOk(s) && t.conns == s.conns
    ensures ConnsOk(t)
  {
  }

  /** A request moves from the queue to a connection. */
  lemma TakenOn(s: State, t: State, id: nat, k: nat)
    requires Conserved(s) && k < |s.requests| && id < |s.conns| == |t.conns| && s.conns[id].request.None?
    requires t.requests == Without(s.requests, k) && t.conns == s.conns[id := t.conns[id]]
    requires t.conns[id].request.Some? && t.conns[id].request.value.id == s.requests[k].id
    requires t.ready == s.ready && t.gone == s.gone && t.requestidcounter == s.requestidcounter
    ensures Conserved(t)
  {
    hide Sum;
    forall i: nat
      ensures Places(t, i) == Places(s, i)
    {
      SumUpdate(s.conns, id, t.conns[id], HeldWeight(i));
      SumWithout(s.requests, k, QueuedWeight(i));
    }
  }

  /** All requests that nobody else can serve any more fail. */
  lemma {:induction false} FailAllQueuedKeeps(st: Settings, s: State, id: nat)
    requires Inv(st, s) && id < |s.conns| && s.conns[id].Clean()
    ensures Inv(st, FailAllQueued(s, id)) && FailAllQueued(s, id).conns == s.conns
    ensures forall r :: r in FailAllQueued(s, id).requests ==> r in s.requests && !ServableBy(id)(r)
    decreases |s.requests|
  {
    hide Inv, FailQueued;
    var k := First(s.requests, ServableBy(id));
    if k < |s.requests| {
      FailQueuedKeeps(st, s, id, k);
      FailAllQueuedKeeps(st, FailQueued(s, id, k), id);
    }
  }

  lemma CleanupKeeps(st: Settings, s: State, id: nat)
    requires Inv(st, s) && id < |s.conns|
    ensures var t := CleanupConnection(s, id);
            && Inv(st, t) && t.conns[id].Clean()
            && t.conns == s.conns[id := s.conns[id].(listtransfer := false, transferlocked := false, transfer := false,
                                                     request := None)]
            && (OtherConnected(s.conns, id) || forall r :: r in t.requests ==> !ServableBy(id)(r))
  {
    hide Inv, DropTransfer, DropRequest, FailAllQueued, ServableBy;
    CleanupRounds(st, s, id);
    var t := DropRequest(DropTransfer(DropTransfer(s, id), id), id);
    SameOthers(s.conns, t.conns, id);
    if !OtherConnected(t.conns, id) {
      FailAllQueuedKeeps(st, t, id);
    }
  }

  lemma SameOthers(a: seq<Conn>, b: seq<Conn>, id: nat)
    requires id < |a| == |b| && b == a[id := b[id]]
    ensures OtherConnected(a, id) <==> OtherConnected(b, id)
  {
    if i :| 0 <= i < |a| && i != id && a[i].connected {
      assert b[i].connected;
    }
    if i :| 0 <= i < |b| && i != id && b[i].connected {
      assert a[i].connected;
    }
  }

  lemma CloseKeeps(st: Settings, s: State, id: nat, quit: bool)
    requires Inv(st, s) && id < |s.conns| && s.conns[id].Clean() && (quit ==> s.conns[id].loggedin)
    ensures var c := s.conns[id];
            Inv(st, WithConn(LogOut(s, id), id, if quit then c.(quitting := true) else c.Disconnected()))
  {
    hide Books, Conserved, ConnsOk, Sum;
    ConnAt(s, id);
    var c := s.conns[id];
    var s' := WithConn(LogOut(s, id), id, if quit then c.(quitting := true) else c.Disconnected());
    BooksMove(s, s', id);
    SameRequest(s, s', id);
    OneConn(s, s', id);
  }

  lemma LostKeeps(st: Settings, s: State, id: nat)
    requires Inv(st, s) && id < |s.conns|
    ensures Inv(st, LostConn(s, id)) && LostConn(s, id).conns[id].Clean()
  {
    hide Inv, CleanupConnection, LogOut, OtherConnected;
    CleanupKeeps(st, s, id);
    CloseKeeps(st, CleanupConnection(s, id), id, false);
  }

  lemma DisconnectKeeps(st: Settings, s: State, id: nat, hard: bool, processing: bool)
    requires Inv(st, s) && id < |s.conns|
    ensures Inv(st, DisconnectConn(s, id, hard, processing)) &&
            DisconnectConn(s, id, hard, processing).conns[id].Clean()
  {
    hide Inv, CleanupConnection, LogOut, OtherConnected;
    CleanupKeeps(st, s, id);
    var c := CleanupConnection(s, id).conns[id];
    CloseKeeps(st, CleanupConnection(s, id), id, !hard && c.loggedin && !processing);
  }

  /** The server confirmed that the connection closes. */
  lemma QuitDoneKeeps(st: Settings, s: State, id: nat)
    requires Inv(st, s) && id < |s.conns| && s.conns[id].quitting
    ensures s.conns[id].Clean()
    ensures Inv(st, WithConn(s, id, s.conns[id].Disconnected()))
  {
    hide Books, Conserved, ConnsOk, Sum;
    ConnAt(s, id);
    var s' := WithConn(s, id, s.conns[id].Disconnected());
    BooksMove(s, s', id);
    SameRequest(s, s', id);
    OneConn(s, s', id);
  }

  // ----- what failed -----

  /** If someone waits for the request, it is among the ready ones as one that failed. */
  predicate Told(s: State, r: Request) {
    r.callback ==> ReadyRequest(r.id, r.kind, false) in s.ready
  }

  /** Whatever has become ready has failed. */
  predicate OnlyFails(s: State, t: State) {
    forall x :: x in t.ready ==> x in s.ready || !x.status
  }

  /** Nothing that was told is forgotten on the way. */
  ghost predicate StaysTold(s: State, t: State) {
    s.sinceready <= 10000 ==> t.sinceready <= 10000 && forall r :: Told(s, r) ==> Told(t, r)
  }

  lemma FailTells(s: State, id: nat, returnslot: bool)
    requires Conserved(s) && id < |s.conns| && s.conns[id].request.Some?
    ensures var t := SetRequestReady(s, id, false, returnslot);
            Told(t, s.conns[id].request.value) && OnlyFails(s, t) && StaysTold(s, t) && t.sinceready == 0
  {
    hide SetRequestReady, Places, OnlyFails, StaysTold, Younger;
    assert Places(s, s.conns[id].request.value.id) <= 1;
    var t := SetRequestReady(s, id, false, returnslot);
    if s.conns[id].request.value.callback {
      ReadyTells(s, id, false, returnslot);
      Pushed(s, t, t.ready[|t.ready| - 1]);
    } else {
      ReadyUntold(s, id, false, returnslot);
      Pruned(s, t);
    }
  }

  lemma Pruned(s: State, t: State)
    requires Younger(s.ready, t.ready) && (s.sinceready <= 10000 ==> t.ready == s.ready) && t.sinceready == 0
    ensures OnlyFails(s, t) && StaysTold(s, t)
  {
  }

  lemma Pushed(s: State, t: State, x: ReadyRequest)
    requires t.ready != [] && t.ready[|t.ready| - 1] == x && !x.status
    requires Younger(s.ready, t.ready[..|t.ready| - 1]) && t.sinceready == 0
    requires s.sinceready <= 10000 ==> t.ready[..|t.ready| - 1] == s.ready
    ensures x in t.ready && OnlyFails(s, t) && StaysTold(s, t)
  {
    var init := t.ready[..|t.ready| - 1];
    assert t.ready == init + [x];
    forall y | y in t.ready
      ensures y in s.ready || !y.status
    {
      if y != x {
        assert y in init;
      }
    }
    forall r | s.sinceready <= 10000 && Told(s, r)
      ensures Told(t, r)
    {
    }
  }

  /** A download whose transfer fails is told to have failed. */
  lemma ReportTells(s: State, id: nat, cleanup: bool)
    requires id < |s.conns| && s.conns[id].HoldsDownload() && s.conns[id].request.value.callback
    ensures var r, t := s.conns[id].request.value, ReportTransferErrorAndFinish(s, id, cleanup);
            && t.ready != [] && t.ready[|t.ready| - 1] == ReadyRequest(r.id, r.kind, false)
            && Younger(s.ready, t.ready[..|t.ready| - 1])
  {
    hide SetRequestReady;
    ReadyTells(EndTransfer(s, id, cleanup), id, false, true);
  }

  /** A connection still has its request, or that is told to have failed. */
  ghost predicate Handled(s: State, t: State, id: nat)
    requires id < |s.conns| == |t.conns|
  {
    || (t.conns[id].request == s.conns[id].request && t.ready == s.ready && t.sinceready == s.sinceready)
    || (s.conns[id].request.Some? && t.conns[id].request.None? && Told(t, s.conns[id].request.value) &&
        OnlyFails(s, t) && t.sinceready == 0)
  }

  lemma DropTells(st: Settings, s: State, id: nat)
    requires Inv(st, s) && id < |s.conns|
    ensures Handled(s, DropTransfer(s, id), id)
  {
    hide Inv, SetRequestReady;
    if s.conns[id].ListOrTransferLocked() {
      var t := EndTransfer(s, id, true);
      EndTransferKeeps(st, s, id, true);
      if s.conns[id].HoldsDownload() {
        assert Conserved(t) by { InvConserved(st, t); }
        FailTells(t, id, true);
        ReadyConns(t, id, false, true);
      }
    }
  }

  lemma InvConserved(st: Settings, s: State)
    requires Inv(st, s)
    ensures Conserved(s)
  {
  }

  /** After its transfers were ended a connection that held a request has told so. */
  lemma DroppedTells(st: Settings, s: State, id: nat)
    requires Inv(st, s) && id < |s.conns|
    ensures var t := DropRequest(DropTransfer(DropTransfer(s, id), id), id);
            && (s.conns[id].request.Some? ==> Told(t, s.conns[id].request.value) && t.sinceready == 0)
            && OnlyFails(s, t)
            && (s.conns[id].request.None? ==> t.ready == s.ready)
  {
    hide Inv, DropTransfer, SetRequestReady;
    var s1 := DropTransfer(s, id);
    DropKeeps(st, s, id);
    DropTells(st, s, id);
    DropKeeps(st, s1, id);
    DropTells(st, s1, id);
    var s2 := DropTransfer(s1, id);
    if s2.conns[id].request.Some? {
      assert Conserved(s2) by { InvConserved(st, s2); }
      FailTells(s2, id, true);
    }
  }

  lemma FailQueuedTells(st: Settings, s: State, id: nat, k: nat)
    requires Inv(st, s) && id < |s.conns| && s.conns[id].Clean() && k < |s.requests|
    ensures var t := FailQueued(s, id, k);
            Told(t, s.requests[k]) && OnlyFails(s, t) && StaysTold(s, t) && t.sinceready == 0
  {
    hide Books, ConnsOk, QueueOk, Places, SetRequestReady;
    var t := WithConn(s.(requests := Without(s.requests, k)), id, s.conns[id].(request := Some(s.requests[k])));
    TakenOn(s, t, id, k);
    FailTells(t, id, false);
  }

  /** All requests that only this connection could serve have failed, and their owners are
      told; all others are still queued. */
  lemma {:induction false} FailAllQueuedTells(st: Settings, s: State, id: nat)
    requires Inv(st, s) && id < |s.conns| && s.conns[id].Clean()
    ensures var t := FailAllQueued(s, id);
            && (forall r :: r in s.requests && ServableBy(id)(r) ==> Told(t, r))
            && (forall r :: r in s.requests && !ServableBy(id)(r) ==> r in t.requests)
            && OnlyFails(s, t) && StaysTold(s, t)
    decreases |s.requests|
  {
    hide Inv, FailQueued, Told, ServableBy;
    var k := First(s.requests, ServableBy(id));
    if k < |s.requests| {
      var s1 := FailQueued(s, id, k);
      FailQueuedKeeps(st, s, id, k);
      FailQueuedTells(st, s, id, k);
      FailAllQueuedTells(st, s1, id);
      StillThere(s.requests, k);
    }
  }

  lemma StillThere(s: seq<Request>, k: nat)
    requires k < |s|
    ensures forall r :: r in s && r != s[k] ==> r in Without(s, k)
  {
    forall r | r in s && r != s[k]
      ensures r in Without(s, k)
    {
      var i: nat :| i < |s| && s[i] == r;
      assert Without(s, k)[if i < k then i else i - 1] == r;
    }
  }

  /** Cleaning up a connection tells the owner of the request that it held, and, when no
      other connection is left, those of all that it could serve. Nothing is told to have
      gone well. */
  lemma CleanupTells(st: Settings, s: State, id: nat)
    requires Inv(st, s) && id < |s.conns|
    ensures var t := CleanupConnection(s, id);
            && (s.conns[id].request.Some? ==> Told(t, s.conns[id].request.value))
            && (!OtherConnected(s.conns, id) ==> forall r :: r in s.requests && ServableBy(id)(r) ==> Told(t, r))
            && OnlyFails(s, t)
  {
    hide Inv, DropTransfer, DropRequest, FailAllQueued, ServableBy, Told;
    CleanupRounds(st, s, id);
    DroppedTells(st, s, id);
    var t := DropRequest(DropTransfer(DropTransfer(s, id), id), id);
    SameOthers(s.conns, t.conns, id);
    SameQueue(st, s, id);
    if !OtherConnected(t.conns, id) {
      FailAllQueuedTells(st, t, id);
    }
  }

  /** Ending what a connection does leaves the queue. */
  lemma SameQueue(st: Settings, s: State, id: nat)
    requires id < |s.conns|
    ensures DropRequest(DropTransfer(DropTransfer(s, id), id), id).requests == s.requests
  {
    hide ReportTransferErrorAndFinish, SetRequestReady;
    ReportConn(s, id, true);
    ReportConn(DropTransfer(s, id), id, true);
    var t := DropTransfer(DropTransfer(s, id), id);
    if t.conns[id].request.Some? {
      ReadyConns(t, id, false, true);
    }
  }

  /** A file transfer that is lost keeps its slot for two more seconds. */
  lemma SlotComesBackLater(s: State, id: nat)
    requires id < |s.conns| && s.conns[id].transferlocked && !s.conns[id].listtransfer
    ensures var t := DropTransfer(s, id);
            && t.slotsdn == s.slotsdn && t.slotsup == s.slotsup
            && t.delayed == s.delayed + [SlotReturn(s.conns[id].download, s.currtime + 2000)]
  {
    hide SetRequestReady;
    if s.conns[id].HoldsDownload() {
      ReadyConns(EndTransfer(s, id, true), id, false, true);
    }
  }

  // ----- how connections are closed -----

  /** A connection that was lost is closed, whatever it did, and no other one is touched. */
  lemma LostCloses(st: Settings, s: State, id: nat)
    requires Inv(st, s) && id < |s.conns|
    ensures var c, t := s.conns[id], LostConn(s, id);
            && t.conns == s.conns[id := Conn(false, false, false, false, false, false, c.download, None)]
            && t.loggedin == s.loggedin - One(c.loggedin && !c.quitting)
  {
    hide Inv, CleanupConnection;
    CleanupKeeps(st, s, id);
    CleanupCounts(st, s, id);
  }

  /** It is closed politely, which leaves it connected until the server agrees, if and only if
      that is wanted, it is logged in, and it is not waiting for the server. */
  lemma DisconnectCloses(st: Settings, s: State, id: nat, hard: bool, processing: bool)
    requires Inv(st, s) && id < |s.conns| && s.conns[id].connected
    ensures var c, t := s.conns[id], DisconnectConn(s, id, hard, processing);
            var polite := !hard && c.loggedin && !processing;
            && t.conns == s.conns[id := Conn(polite, polite, polite, false, false, false, c.download, None)]
            && t.loggedin == s.loggedin - One(c.loggedin && !c.quitting)
  {
    hide Inv, CleanupConnection;
    CleanupKeeps(st, s, id);
    CleanupCounts(st, s, id);
  }

  lemma DisconnectedStays(st: Settings, s: State, id: nat, hard: bool, processing: bool)
    requires Inv(st, s) && id < |s.conns| && !s.conns[id].connected
    ensures DisconnectConn(s, id, hard, processing) == CleanupConnection(s, id)
    ensures !DisconnectConn(s, id, hard, processing).conns[id].connected
  {
    hide Inv, CleanupConnection;
    CleanupKeeps(st, s, id);
  }

  /** Cleaning up logs nobody out. */
  lemma CleanupCounts(st: Settings, s: State, id: nat)
    requires Inv(st, s) && id < |s.conns|
    ensures CleanupConnection(s, id).loggedin == s.loggedin
  {
    hide Conserved, ConnsOk, QueueOk, Sum, CleanupConnection;
    CleanupKeeps(st, s, id);
    var t := CleanupConnection(s, id);
    SumUpdate(s.conns, id, t.conns[id], LoggedInWeight());
  }

  // ----- slots that are free -----

  /** A download for a purpose stays within the limit of that purpose, and an upload within
      the one for uploads. */
  lemma LockedWithin(st: Settings, s: State, id: nat, isdownload: bool, origin: Origin)
    requires id < |s.conns| && SlotFree(st, s, isdownload, origin)
    ensures var t := LockConn(s, id, isdownload);
            && (!isdownload ==> t.slotsup <= st.maxup)
            && (isdownload && origin == REGULAR ==> t.slotsdn <= st.maxdown)
            && (isdownload && origin == PRE ==> t.slotsdn <= st.maxdownpre)
            && (isdownload && origin == COMPLETE ==> t.slotsdn <= st.maxdowncomplete)
            && (isdownload && origin == TRANSFERJOB ==> t.slotsdn <= st.maxdowntransferjob)
  {
  }

  /** All logins but at most one have a transfer, and one login is to be left free. */
  predicate LastLogin(st: Settings, s: State) {
    st.leavefreeslot && st.maxlogins > 1 && st.maxlogins - (s.slotsdn + s.slotsup) <= 1
  }

  /** A slot for a download is free if and only if a connection is available, downloads for
      that purpose are below their limit, and one login stays free if that is wanted. Uploads
      differ in that a negative number of available connections counts as well. */
  lemma SlotsExact(st: Settings, s: State)
    ensures DownloadSlotAvailable(st, s) <==> s.available > 0 && s.slotsdn < st.maxdown && !LastLogin(st, s)
    ensures forall origin :: var free := DownloadSlotsAvailable(st, s, origin);
              && (free > 0 <==> s.available > 0 && SlotFree(st, s, true, origin) && !LastLogin(st, s))
              && (free > 0 ==> free == s.available || s.slotsdn + free == st.MaxDown(origin))
              && (free > 0 ==> free <= s.available && s.slotsdn + free <= st.MaxDown(origin))
    ensures UploadSlotAvailable(st, s) <==> s.available != 0 && s.slotsup < st.maxup && !LastLogin(st, s)
  {
  }

  // ----- taking on requests -----

  lemma AddRequestKeeps(st: Settings, s: State, kind: RequestType, connid: Option<nat>, callback: bool)
    requires Inv(st, s) && (kind == DOWNLOAD_STAGE2 ==> connid == None)
    ensures Inv(st, AddRequest(s, kind, connid, callback))
  {
    hide Books, ConnsOk, Sum;
    var s' := AddRequest(s, kind, connid, callback);
    SameBooks(s, s');
    SameConns(s, s');
    forall i: nat
      ensures Places(s', i) == One(i < s'.requestidcounter)
    {
      assert Places(s, i) == One(i < s.requestidcounter);
      SumAppend(s.requests, Request(s.requestidcounter, kind, connid, callback), QueuedWeight(i));
    }
  }

  lemma TakeKeeps(st: Settings, s: State, id: nat, k: nat)
    requires Inv(st, s) && id < |s.conns| && !s.conns[id].Locked() && k < |s.requests|
    ensures Inv(st, TakeRequest(s, id, k))
  {
    hide Books, Conserved, ConnsOk, Sum;
    ConnAt(s, id);
    var s' := TakeRequest(s, id, k);
    BooksMove(s, s', id);
    TakenOn(s, s', id, k);
    OneConn(s, s', id);
  }

  /** The lock of a download request never finds the slots taken. */
  lemma RegisterKeeps(st: Settings, s: State, id: nat)
    requires Inv(st, s) && id < |s.conns| && !s.conns[id].transferlocked && !s.conns[id].quitting
    requires s.conns[id].request.Some? && s.conns[id].request.value.kind == DOWNLOAD_STAGE2
    requires s.slotsdn < st.maxdown
    ensures Inv(st, RegisterDownloadLock(s, id))
  {
    hide Books, Conserved, ConnsOk, Sum;
    ConnAt(s, id);
    var s' := RegisterDownloadLock(s, id);
    BooksMove(s, s', id);
    SameRequest(s, s', id);
    OneConn(s, s', id);
  }

  /** A second stage of a download is only taken when a slot is free for it. */
  lemma StageTwoHasSlot(st: Settings, s: State, id: nat)
    requires QueueOk(s)
    ensures var k := NextRequest(st, s, id);
            k < |s.requests| && s.requests[k].kind == DOWNLOAD_STAGE2 ==> s.slotsdn < st.maxdown
  {
  }

  /** A connection takes the first request of its own. Without one it takes the first that is
      nobody's, and passes over second stages of downloads while no slot is free. */
  lemma NextExact(st: Settings, s: State, id: nat)
    ensures var k := NextRequest(st, s, id);
            && (k < |s.requests| ==>
                  if s.requests[k].connid == Some(id) then forall j :: 0 <= j < k ==> s.requests[j].connid != Some(id)
                  else
                    && s.requests[k].connid == None && (forall r :: r in s.requests ==> r.connid != Some(id))
                    && (s.requests[k].kind == DOWNLOAD_STAGE2 ==> DownloadSlotAvailable(st, s))
                    && forall j :: 0 <= j < k && s.requests[j].connid == None ==>
                         s.requests[j].kind == DOWNLOAD_STAGE2 && !DownloadSlotAvailable(st, s))
            && (k == |s.requests| ==>
                  forall r :: r in s.requests ==>
                    r.connid != Some(id) &&
                    (r.connid == None ==> r.kind == DOWNLOAD_STAGE2 && !DownloadSlotAvailable(st, s)))
  {
    hide First, DownloadSlotAvailable;
  }

  /** The connection holds the request that it took, which is not queued any more; the others
      wait in their order. For the second stage of a download it is locked as well. */
  lemma HandleTakes(st: Settings, s: State, id: nat)
    requires id < |s.conns| && NextRequest(st, s, id) < |s.requests|
    ensures var k, t := NextRequest(st, s, id), HandleRequest(st, s, id);
            var r, stage2 := s.requests[k], s.requests[k].kind == DOWNLOAD_STAGE2;
            && t.conns[id].request == Some(Request(r.id, r.kind, Some(id), r.callback))
            && t.requests == s.requests[..k] + s.requests[k + 1..]
            && (t.conns[id].transferlocked <==> s.conns[id].transferlocked || stage2)
            && t.available == s.available - 1 && t.slotsdn == s.slotsdn + One(stage2) && t.slotsup == s.slotsup
            && t.ready == s.ready
  {
    hide NextRequest;
  }

  /** The file was found: the request is last in the queue again, under its number and for its
      owner, as the second stage of a download that any connection may take. */
  lemma RequeuedRequest(s: State, id: nat)
    requires id < |s.conns| && s.conns[id].request.Some?
    ensures var r, t := s.conns[id].request.value, Requeue(s, id);
            && t.requests == s.requests + [Request(r.id, DOWNLOAD_STAGE2, None, r.callback)]
            && t.conns == s.conns[id := s.conns[id].(request := None)]
            && t.available == s.available + 1 && t.ready == s.ready
  {
  }

  lemma HandleRequestKeeps(st: Settings, s: State, id: nat)
    requires Inv(st, s) && id < |s.conns| && !s.conns[id].Locked()
    ensures Inv(st, HandleRequest(st, s, id))
  {
    hide Books, Conserved, ConnsOk, Sum, NextRequest;
    var k := NextRequest(st, s, id);
    if k < |s.requests| {
      StageTwoHasSlot(st, s, id);
      TakeKeeps(st, s, id, k);
      if s.requests[k].kind == DOWNLOAD_STAGE2 {
        RegisterKeeps(st, TakeRequest(s, id, k), id);
      }
    }
  }

  lemma RequeueKeeps(st: Settings, s: State, id: nat)
    requires Inv(st, s) && id < |s.conns| && s.conns[id].request.Some?
    requires s.conns[id].request.value.kind == DOWNLOAD_STAGE1
    ensures Inv(st, Requeue(s, id))
  {
    hide Books, Conserved, ConnsOk, Sum;
    ConnAt(s, id);
    BooksMove(s, Requeue(s, id), id);
    RequeuedPlaces(s, id);
    OneConn(s, Requeue(s, id), id);
  }

  lemma RequeuedPlaces(s: State, id: nat)
    requires Conserved(s) && id < |s.conns| && s.conns[id].request.Some?
    ensures Conserved(Requeue(s, id))
  {
    hide Sum;
    var s' := Requeue(s, id);
    forall i: nat
      ensures Places(s', i) == Places(s, i)
    {
      SumUpdate(s.conns, id, s'.conns[id], HeldWeight(i));
      SumAppend(s.requests, s.conns[id].request.value.(kind := DOWNLOAD_STAGE2, connid := None), QueuedWeight(i));
    }
  }

  // ----- finishing requests -----

  lemma TakeReadyKeeps(st: Settings, s: State, requestid: nat)
    requires Inv(st, s)
    ensures Inv(st, TakeReady(s, requestid))
  {
    hide Books, ConnsOk, Places;
    var s' := TakeReady(s, requestid);
    SameBooks(s, s');
    SameConns(s, s');
    var k := First(s.ready, ReadyWith(requestid));
    if k < |s.ready| {
      assert Places(s, requestid) <= 1;
      ReadyNotGone(s, k);
      forall i: nat
        ensures Places(s', i) == Places(s, i)
      {
        TakenPlaces(s, requestid, i);
      }
    }
  }

  lemma HeldNotGone(s: State, i: nat)
    requires i < |s.conns| && s.conns[i].request.Some? && Places(s, s.conns[i].request.value.id) <= 1
    ensures s.conns[i].request.value.id !in s.gone
  {
    hide Sum;
    var r := s.conns[i].request.value.id;
    SumAtLeast(s.requests, QueuedWeight(r), 0);
    SumAtLeast(s.ready, ReadyWeight(r), 0);
    SumAtLeast(s.conns, HeldWeight(r), i);
  }

  /** The request that the connection holds is given up. */
  lemma GiveUpKeeps(st: Settings, s: State, i: nat)
    requires Inv(st, s) && i < |s.conns| && s.conns[i].request.Some?
    ensures var c := s.conns[i];
            Inv(st, WithConn(s, i, c.(request := None)).(
                      available := s.available + if c.transferlocked then 0 else 1,
                      gone := s.gone + {c.request.value.id}))
  {
    hide Books, ConnsOk, Sum;
    ConnAt(s, i);
    var c := s.conns[i];
    var s' := WithConn(s, i, c.(request := None)).(available := s.available + if c.transferlocked then 0 else 1,
                                                   gone := s.gone + {c.request.value.id});
    BooksMove(s, s', i);
    OneConn(s, s', i);
    assert Places(s, c.request.value.id) <= 1;
    HeldNotGone(s, i);
    forall n: nat
      ensures Places(s', n) == Places(s, n)
    {
      SumUpdate(s.conns, i, s'.conns[i], HeldWeight(n));
    }
  }

  lemma FinishRequestKeeps(st: Settings, s: State, requestid: nat)
    requires Inv(st, s)
    ensures Inv(st, FinishRequest(s, requestid))
  {
    hide Inv, TakeReady;
    var k := First(s.ready, ReadyWith(requestid));
    var i := First(s.conns, HolderOf(requestid));
    if k < |s.ready| {
      TakeReadyKeeps(st, s, requestid);
    } else if i < |s.conns| {
      GiveUpKeeps(st, s, i);
    }
  }

  // ----- time -----

  lemma ClearExpiredKeeps(st: Settings, s: State)
    requires Inv(st, s)
    ensures Inv(st, ClearExpired(s))
  {
    hide Books, ConnsOk, Places, ClearExpired;
    ClearedAlike(s, s);
    ClearedRest(s);
    SameBooks(s, ClearExpired(s));
    SameConns(s, ClearExpired(s));
    forall i: nat
      ensures Places(ClearExpired(s), i) == Places(s, i)
    {
      assert Places(s, i) <= 1;
      ExpiredPlaces(s, i);
    }
  }

  lemma ClearedRest(s: State)
    ensures var t := ClearExpired(s);
            && t.requests == s.requests && t.conns == s.conns && t.requestidcounter == s.requestidcounter
            && t.loggedin == s.loggedin && t.available == s.available && t.slotsdn == s.slotsdn &&
               t.slotsup == s.slotsup
            && t.delayed == s.delayed && t.currtime == s.currtime && t.sinceready == s.sinceready
  {
  }

  lemma {:induction false} DueSplit(delayed: seq<SlotReturn>, now: nat, download: bool)
    ensures Sum(NotDue(delayed, now), ReturnWeight(download)) ==
            Sum(delayed, ReturnWeight(download)) - Sum(delayed, DueWeight(now, download))
    ensures Sum(delayed, DueWeight(now, download)) >= 0
  {
    if delayed != [] {
      var init, d := delayed[..|delayed| - 1], delayed[|delayed| - 1];
      DueSplit(init, now, download);
      if now < d.triggertime {
        SumAppend(NotDue(init, now), d, ReturnWeight(download));
      }
    }
  }

  lemma TickKeeps(st: Settings, s: State)
    requires Inv(st, s)
    ensures Inv(st, Tick(s))
    ensures Tick(s).currtime == s.currtime + TICK_INTERVAL && Tick(s).conns == s.conns
    ensures Tick(s).sinceready == s.sinceready + TICK_INTERVAL && Tick(s).requests == s.requests
    ensures forall d :: d in Tick(s).delayed <==> d in s.delayed && s.currtime + TICK_INTERVAL < d.triggertime
  {
    hide Inv, Conserved, ClearExpired, Sum, NotDue;
    var t := Returned(s);
    ReturnedKeeps(st, s);
    ClearExpiredKeeps(st, t);
    ClearedRest(t);
  }

  /** The slots that are due were returned, and nothing has expired yet. */
  function Returned(s: State): State {
    var now := s.currtime + TICK_INTERVAL;
    s.(currtime := now,
       slotsdn := s.slotsdn - Sum(s.delayed, DueWeight(now, true)),
       slotsup := s.slotsup - Sum(s.delayed, DueWeight(now, false)),
       delayed := NotDue(s.delayed, now),
       sinceready := s.sinceready + TICK_INTERVAL)
  }

  lemma ReturnedKeeps(st: Settings, s: State)
    requires Inv(st, s)
    ensures Inv(st, Returned(s))
  {
    hide Books, Conserved, ConnsOk, Sum;
    ReturnedBooks(s);
    SameConns(s, Returned(s));
    SamePlaces(s, Returned(s));
  }

  lemma ReturnedBooks(s: State)
    requires Books(s)
    ensures Books(Returned(s)) && Returned(s).slotsdn <= s.slotsdn && Returned(s).slotsup <= s.slotsup
  {
    hide Sum, NotDue;
    DueSplit(s.delayed, s.currtime + TICK_INTERVAL, true);
    DueSplit(s.delayed, s.currtime + TICK_INTERVAL, false);
  }

  lemma SamePlaces(s: State, t: State)
    requires Conserved(s) && t.requests == s.requests && t.conns == s.conns && t.ready == s.ready && t.gone == s.gone
    requires t.requestidcounter == s.requestidcounter
    ensures Conserved(t)
  {
    hide Sum;
    forall i: nat
      ensures Places(t, i) == Places(s, i)
    {
    }
  }
}
