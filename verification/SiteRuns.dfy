/** A site over whole runs: any operations, in any order that their callers allow. */
module SiteRuns {
  import opened Base
  import opened Sums
  import opened SiteStates
  import opened SiteLaws
  import opened SiteSteps

  datatype Event =
    | Connect(id: nat)
    | LoggedIn(id: nat)
    | Lock(id: nat, isdownload: bool, origin: Origin)
    | SetTransfer(id: nat)
    | SetList(id: nat)
    | FileDone(id: nat, isdownload: bool)
    | ListDone(id: nat)
    | Fail(id: nat)
    | Return(id: nat, istransfer: bool)
    | Lost(id: nat)
    | Disconnect(id: nat, hard: bool, processing: bool)
    | Quit(id: nat)
    | Issue(kind: RequestType, connid: Option<nat>, callback: bool)
    | Handle(id: nat)
    | RequestDone(id: nat, status: bool)
    | Finish(requestid: nat)
    | Found(id: nat)
    | Time

  predicate HasConn(e: Event) {
    !e.Issue? && !e.Finish? && !e.Time?
  }

  /** What each caller sees to before it calls. */
  predicate Enabled(st: Settings, s: State, e: Event) {
    && (HasConn(e) ==> e.id < |s.conns|)
    && match e
       case Connect(id) => !s.conns[id].connected
       case LoggedIn(id) => s.conns[id].connected && !s.conns[id].loggedin
       case Lock(id, isdownload, origin) =>
         s.conns[id].loggedin && !s.conns[id].HardLocked() && SlotFree(st, s, isdownload, origin)
       case SetTransfer(id) => s.conns[id].transferlocked && !s.conns[id].transfer
       case SetList(id) => !s.conns[id].ListOrTransferLocked() && !s.conns[id].transfer && !s.conns[id].quitting
       case FileDone(id, isdownload) =>
         s.conns[id].transferlocked && !s.conns[id].listtransfer && s.conns[id].download == isdownload
       case ListDone(id) => s.conns[id].listtransfer
       case Fail(id) => s.conns[id].ListOrTransferLocked()
       case Return(id, istransfer) => !(istransfer && s.conns[id].listtransfer && s.conns[id].transferlocked)
       case Lost(id) => true
       case Disconnect(id, hard, processing) => true
       case Quit(id) => s.conns[id].quitting
       case Issue(kind, connid, callback) => kind == DOWNLOAD_STAGE2 ==> connid == None
       case Handle(id) => s.conns[id].connected && !s.conns[id].Locked()
       case RequestDone(id, status) => s.conns[id].request.Some?
       case Finish(requestid) => true
       case Found(id) => s.conns[id].request.Some? && s.conns[id].request.value.kind == DOWNLOAD_STAGE1
       case Time => true
  }

  function Do(st: Settings, s: State, e: Event): State
    requires Enabled(st, s, e)
  {
    match e
    case Connect(id) => WithConn(s, id, s.conns[id].(connected := true))
    case LoggedIn(id) => LogIn(s, id)
    case Lock(id, isdownload, origin) => LockConn(s, id, isdownload)
    case SetTransfer(id) => WithConn(s, id, s.conns[id].(transfer := true))
    case SetList(id) => WithConn(s, id, s.conns[id].(listtransfer := true))
    case FileDone(id, isdownload) => FileComplete(s, id, isdownload)
    case ListDone(id) => WithConn(s, id, s.conns[id].FinishTransfer())
    case Fail(id) => ReportTransferErrorAndFinish(s, id, false)
    case Return(id, istransfer) => ReturnConn(s, id, istransfer)
    case Lost(id) => LostConn(s, id)
    case Disconnect(id, hard, processing) => DisconnectConn(s, id, hard, processing)
    case Quit(id) => WithConn(s, id, s.conns[id].Disconnected())
    case Issue(kind, connid, callback) => AddRequest(s, kind, connid, callback)
    case Handle(id) => HandleRequest(st, s, id)
    case RequestDone(id, status) => SetRequestReady(s, id, status, true)
    case Finish(requestid) => FinishRequest(s, requestid)
    case Found(id) => Requeue(s, id)
    case Time => Tick(s)
  }

  lemma DoKeeps(st: Settings, s: State, e: Event)
    requires Inv(st, s) && Enabled(st, s, e)
    ensures Inv(st, Do(st, s, e))
  {
    hide Inv, LockConn, FileComplete, ReportTransferErrorAndFinish, ReturnConn, LostConn, DisconnectConn, AddRequest,
      HandleRequest, SetRequestReady, FinishRequest, Requeue, Tick, LogIn, WithConn, SlotFree;
    match e
    case Connect(id) => ConnectKeeps(st, s, id);
    case LoggedIn(id) => LogInKeeps(st, s, id);
    case Lock(id, isdownload, origin) => LockKeeps(st, s, id, isdownload, origin);
    case SetTransfer(id) => SetTransferKeeps(st, s, id);
    case SetList(id) => SetListKeeps(st, s, id);
    case FileDone(id, isdownload) => FileCompleteKeeps(st, s, id, isdownload);
    case ListDone(id) => ListCompleteKeeps(st, s, id);
    case Fail(id) => ReportKeeps(st, s, id, false);
    case Return(id, istransfer) => ReturnConnKeeps(st, s, id, istransfer);
    case Lost(id) => LostKeeps(st, s, id);
    case Disconnect(id, hard, processing) => DisconnectKeeps(st, s, id, hard, processing);
    case Quit(id) => QuitDoneKeeps(st, s, id);
    case Issue(kind, connid, callback) => AddRequestKeeps(st, s, kind, connid, callback);
    case Handle(id) => HandleRequestKeeps(st, s, id);
    case RequestDone(id, status) => ReadyKeeps(st, s, id, status);
    case Finish(requestid) => FinishRequestKeeps(st, s, requestid);
    case Found(id) => RequeueKeeps(st, s, id);
    case Time => TickKeeps(st, s);
  }

  // ----- runs -----

  ghost predicate Follows(st: Settings, states: seq<State>, events: seq<Event>, i: nat)
    requires i < |events| && |states| == |events| + 1
  {
    Enabled(st, states[i], events[i]) && states[i + 1] == Do(st, states[i], events[i])
  }

  ghost predicate IsRun(st: Settings, states: seq<State>, events: seq<Event>) {
    && |states| == |events| + 1
    && forall i :: 0 <= i < |events| ==> Follows(st, states, events, i)
  }

  lemma {:induction false} RunKeeps(st: Settings, states: seq<State>, events: seq<Event>, i: nat)
    requires IsRun(st, states, events) && i < |states| && Inv(st, states[0])
    ensures Inv(st, states[i])
  {
    if i > 0 {
      hide Inv, Enabled, Do;
      RunKeeps(st, states, events, i - 1);
      assert Follows(st, states, events, i - 1);
      DoKeeps(st, states[i - 1], events[i - 1]);
    }
  }

  /** In every state of every run of a site with any number of connections, the counters
      agree with the connections and the limits hold. */
  lemma RunAccounts(st: Settings, states: seq<State>, events: seq<Event>, i: nat, connections: nat)
    requires IsRun(st, states, events) && i < |states| && states[0] == Fresh(connections)
    ensures Books(states[i])
    ensures Sum(states[i].conns, LockedWeight(false)) <= states[i].slotsup <= st.maxup
    ensures Sum(states[i].conns, LockedWeight(true)) <= states[i].slotsdn <= MaxDownloads(st)
  {
    hide Fresh, Conserved, ConnsOk, QueueOk, Sum, IsRun;
    FreshKeeps(st, connections);
    RunKeeps(st, states, events, i);
    SumAtLeast(states[i].delayed, ReturnWeight(true), 0);
    SumAtLeast(states[i].delayed, ReturnWeight(false), 0);
  }

  // ----- requests -----

  predicate Queued(s: State, i: nat) {
    exists k :: 0 <= k < |s.requests| && s.requests[k].id == i
  }

  predicate Held(s: State, i: nat) {
    exists k :: 0 <= k < |s.conns| && s.conns[k].request.Some? && s.conns[k].request.value.id == i
  }

  predicate IsReady(s: State, i: nat) {
    exists k :: 0 <= k < |s.ready| && s.ready[k].id == i
  }

  lemma {:induction false} CountedOnce<T>(s: seq<T>, w: T -> int)
    requires forall x :: x in s ==> w(x) == 0 || w(x) == 1
    requires Sum(s, w) <= 1
    ensures Sum(s, w) == One(exists k :: 0 <= k < |s| && w(s[k]) == 1)
    ensures forall j, k :: 0 <= j < k < |s| ==> w(s[j]) == 0 || w(s[k]) == 0
  {
    hide Sum;
    if k: nat :| k < |s| && w(s[k]) == 1 {
      SumAtLeast(s, w, k);
    } else {
      SumZero(s, w);
    }
    forall j: nat, k: nat | j < k < |s|
      ensures w(s[j]) == 0 || w(s[k]) == 0
    {
      SumAtLeastTwo(s, w, j, k);
    }
  }

  lemma PlaceCounts(s: State, i: nat)
    ensures Sum(s.requests, QueuedWeight(i)) >= 0 && Sum(s.conns, HeldWeight(i)) >= 0 &&
            Sum(s.ready, ReadyWeight(i)) >= 0
    ensures Sum(s.requests, QueuedWeight(i)) <= 1 ==> Sum(s.requests, QueuedWeight(i)) == One(Queued(s, i))
    ensures Sum(s.conns, HeldWeight(i)) <= 1 ==> Sum(s.conns, HeldWeight(i)) == One(Held(s, i))
    ensures Sum(s.ready, ReadyWeight(i)) <= 1 ==> Sum(s.ready, ReadyWeight(i)) == One(IsReady(s, i))
  {
    hide Sum;
    SumAtLeast(s.requests, QueuedWeight(i), 0);
    SumAtLeast(s.conns, HeldWeight(i), 0);
    SumAtLeast(s.ready, ReadyWeight(i), 0);
    if Sum(s.requests, QueuedWeight(i)) <= 1 {
      CountedOnce(s.requests, QueuedWeight(i));
      assert Queued(s, i) <==> exists k :: 0 <= k < |s.requests| && QueuedWeight(i)(s.requests[k]) == 1;
    }
    if Sum(s.conns, HeldWeight(i)) <= 1 {
      CountedOnce(s.conns, HeldWeight(i));
      assert Held(s, i) <==> exists k :: 0 <= k < |s.conns| && HeldWeight(i)(s.conns[k]) == 1;
    }
    if Sum(s.ready, ReadyWeight(i)) <= 1 {
      CountedOnce(s.ready, ReadyWeight(i));
      assert IsReady(s, i) <==> exists k :: 0 <= k < |s.ready| && ReadyWeight(i)(s.ready[k]) == 1;
    }
  }

  /** Every request number that was issued is in exactly one of the queue, one
      connection, the ready list and the past, and none that was not issued is anywhere. */
  lemma OnePlace(s: State, i: nat)
    requires Conserved(s)
    ensures One(Queued(s, i)) + One(Held(s, i)) + One(IsReady(s, i)) + One(i in s.gone) == One(i < s.requestidcounter)
  {
    hide Queued, Held, IsReady, Sum;
    assert Places(s, i) == One(i < s.requestidcounter);
    PlaceCounts(s, i);
  }

  /** No request number is twice in the same place. */
  lemma NotTwice(s: State, i: nat)
    requires Conserved(s)
    ensures forall j, k :: 0 <= j < k < |s.requests| && s.requests[j].id == i ==> s.requests[k].id != i
    ensures forall j, k :: 0 <= j < k < |s.ready| && s.ready[j].id == i ==> s.ready[k].id != i
    ensures forall j, k :: 0 <= j < k < |s.conns| && HolderOf(i)(s.conns[j]) ==> !HolderOf(i)(s.conns[k])
  {
    hide Queued, Held, IsReady, Sum;
    assert Places(s, i) == One(i < s.requestidcounter);
    PlaceCounts(s, i);
    CountedOnce(s.requests, QueuedWeight(i));
    CountedOnce(s.conns, HeldWeight(i));
    CountedOnce(s.ready, ReadyWeight(i));
    forall j, k | 0 <= j < k < |s.requests| && s.requests[j].id == i
      ensures s.requests[k].id != i
    {
      assert QueuedWeight(i)(s.requests[j]) == 1;
    }
    forall j, k | 0 <= j < k < |s.ready| && s.ready[j].id == i
      ensures s.ready[k].id != i
    {
      assert ReadyWeight(i)(s.ready[j]) == 1;
    }
    forall j, k | 0 <= j < k < |s.conns| && HolderOf(i)(s.conns[j])
      ensures !HolderOf(i)(s.conns[k])
    {
      assert HeldWeight(i)(s.conns[j]) == 1;
    }
  }

  // ----- what available means -----

  predicate Idle(c: Conn) {
    c.loggedin && !c.quitting && !c.Busy()
  }

  /** At work without being logged in. */
  predicate Stray(c: Conn) {
    c.Busy() && !(c.loggedin && !c.quitting)
  }

  function IdleWeight(): Conn -> int {
    (c: Conn) => One(Idle(c))
  }

  function StrayWeight(): Conn -> int {
    (c: Conn) => One(Stray(c))
  }

  /** available is the number of idle connections if and only if no connection works
      without being logged in; otherwise it is too small by the number of those. */
  lemma AvailableExact(s: State)
    requires Books(s)
    ensures s.available == Sum(s.conns, IdleWeight()) - Sum(s.conns, StrayWeight())
    ensures s.available == Sum(s.conns, IdleWeight()) <==> forall c :: c in s.conns ==> !Stray(c)
  {
    hide Sum;
    var both: Conn -> int := (c: Conn) => One(Idle(c)) + One(c.Busy());
    SumPlus(s.conns, IdleWeight(), BusyWeight(), both);
    SumPlus(s.conns, LoggedInWeight(), StrayWeight(), both);
    if c :| c in s.conns && Stray(c) {
      var k: nat :| k < |s.conns| && s.conns[k] == c;
      SumAtLeast(s.conns, StrayWeight(), k);
    } else {
      SumZero(s.conns, StrayWeight());
    }
  }

  /** A connection that the server has turned away stays connected without being logged
      in, and a request is waiting. */
  function Denied(): State {
    Fresh(1).(conns := [Conn(true, false, false, false, false, false, false, None)],
              requests := [Request(0, COMMAND, None, true)], requestidcounter := 1)
  }

  lemma DeniedHappens(st: Settings)
    ensures Enabled(st, Fresh(1), Connect(0))
    ensures var s1 := Do(st, Fresh(1), Connect(0));
            && Enabled(st, s1, Issue(COMMAND, None, true))
            && Do(st, s1, Issue(COMMAND, None, true)) == Denied()
  {
  }

  /** When that connection takes the request, available becomes negative, and a slot for
      uploads counts as free although no connection is logged in. */
  lemma DeniedTakesRequest(st: Settings)
    requires st.maxup > 0 && !st.leavefreeslot
    ensures Enabled(st, Denied(), Handle(0))
    ensures var s := Do(st, Denied(), Handle(0));
            s.available == -1 && s.loggedin == 0 && UploadSlotAvailable(st, s)
  {
    var s := Denied();
    assert First(s.requests, OwnedBy(0)) == 1;
    assert First(s.requests, FreeToTake(DownloadSlotAvailable(st, s))) == 0;
    assert NextRequest(st, s, 0) == 0;
  }

  // ----- slots that come back -----

  predicate Loses(e: Event) {
    e.Lost? || e.Disconnect?
  }

  function Ticks(events: seq<Event>): nat {
    if events == [] then 0 else Ticks(events[..|events| - 1]) + if events[|events| - 1].Time? then 1 else 0
  }

  /** Only lost connections and time have to do with delayed returns. */
  lemma QuietStep(st: Settings, s: State, e: Event)
    requires Enabled(st, s, e) && !Loses(e) && e != Time
    ensures Do(st, s, e).delayed == s.delayed && Do(st, s, e).currtime == s.currtime
  {
    hide First, Expired, Sum;
    if e.Fail? && s.conns[e.id].HoldsDownload() {
      ReadyConns(EndTransfer(s, e.id, false), e.id, false, true);
    }
  }

  lemma {:induction false} ReturnsRunOut(st: Settings, states: seq<State>, events: seq<Event>, i: nat)
    requires IsRun(st, states, events) && i < |states| && Inv(st, states[0])
    requires forall e :: e in events ==> !Loses(e)
    ensures states[i].currtime == states[0].currtime + TICK_INTERVAL * Ticks(events[..i])
    ensures forall d :: d in states[i].delayed ==>
              d in states[0].delayed && (Ticks(events[..i]) > 0 ==> states[i].currtime < d.triggertime)
  {
    if i == 0 {
    } else {
      hide Inv, Enabled, Do;
      ReturnsRunOut(st, states, events, i - 1);
      RunKeeps(st, states, events, i - 1);
      var s, e := states[i - 1], events[i - 1];
      assert Follows(st, states, events, i - 1);
      assert events[..i][..i - 1] == events[..i - 1];
      if e == Time {
        TimeIsTick(st, s);
        TickKeeps(st, s);
      } else {
        QuietStep(st, s, e);
      }
    }
  }

  lemma TimeIsTick(st: Settings, s: State)
    requires Enabled(st, s, Time)
    ensures Do(st, s, Time) == Tick(s)
  {
  }

  /** After 40 ticks in which no connection is lost, every slot that was to be returned
      has been, and the slot counters count locked connections only. */
  lemma SlotsReclaimed(st: Settings, states: seq<State>, events: seq<Event>)
    requires IsRun(st, states, events) && Inv(st, states[0])
    requires forall e :: e in events ==> !Loses(e)
    requires Ticks(events) >= 40
    ensures var s := states[|events|];
            && s.delayed == []
            && s.slotsdn == Sum(s.conns, LockedWeight(true))
            && s.slotsup == Sum(s.conns, LockedWeight(false))
  {
    hide Conserved, ConnsOk, QueueOk, IsRun;
    assert |states| == |events| + 1 by { RunLength(st, states, events); }
    var s := states[|events|];
    assert events[..|events|] == events;
    ReturnsRunOut(st, states, events, |events|);
    RunKeeps(st, states, events, |events|);
    MemberOrEmpty(s.delayed);
  }

  lemma RunLength(st: Settings, states: seq<State>, events: seq<Event>)
    requires IsRun(st, states, events)
    ensures |states| == |events| + 1
  {
  }
}
