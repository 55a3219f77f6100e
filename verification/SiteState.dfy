/** The connections, transfer slots and requests of one site: the values that the
    operations of SiteLogics.SiteLogic change, and what each operation does to them. */
module SiteStates {
  import opened Base
  import opened Sums

  const TICK_INTERVAL: nat := 50
  const MAX_REQUEST_READY_QUEUE_SIZE: nat := 10
  const MAX_REQUEST_READY_QUEUE_IDLE_TIME: nat := 10000
  const TRANSFER_SLOT_CLEANUP_DELAY: nat := 2000

  // ----- requests -----

  /** The kinds of requests that the slot accounting tells apart. COMMAND stands for the
      kinds that only send commands. */
  datatype RequestType = FILE_LIST | DOWNLOAD_STAGE1 | DOWNLOAD_STAGE2 | COMMAND

  datatype Request = Request(id: nat, kind: RequestType, connid: Option<nat>, callback: bool)

  datatype ReadyRequest = ReadyRequest(id: nat, kind: RequestType, status: bool)

  // ----- connections -----

  datatype TransferType = DOWNLOAD | UPLOAD | LIST

  /** One connection and its state tracker. */
  datatype Conn = Conn(
    connected: bool,
    loggedin: bool,
    quitting: bool,
    listtransfer: bool,
    transferlocked: bool,
    transfer: bool,
    download: bool,
    request: Option<Request>)
  {
    predicate ListOrTransferLocked() {
      listtransfer || transferlocked
    }

    predicate HardLocked() {
      transferlocked || request.Some? || quitting
    }

    predicate Locked() {
      ListOrTransferLocked() || request.Some? || quitting
    }

    /** Taken out of the available connections. */
    predicate Busy() {
      transferlocked || request.Some?
    }

    function CurrentType(): TransferType {
      if listtransfer then LIST else if download then DOWNLOAD else UPLOAD
    }

    predicate HoldsDownload() {
      request.Some? && request.value.kind in {DOWNLOAD_STAGE1, DOWNLOAD_STAGE2}
    }

    function FinishFileTransfer(): Conn {
      this.(transfer := false, transferlocked := false)
    }

    /** A list transfer ends before a file transfer on the same connection does. */
    function FinishTransfer(): Conn {
      if listtransfer then this.(listtransfer := false) else FinishFileTransfer()
    }

    /** What setDisconnected asserts. */
    predicate Clean() {
      !transferlocked && !listtransfer && !transfer && request.None?
    }

    function Disconnected(): Conn {
      this.(connected := false, loggedin := false, quitting := false)
    }
  }

  // ----- slots -----

  datatype Origin = REGULAR | PRE | COMPLETE | TRANSFERJOB

  datatype Settings = Settings(
    maxlogins: nat,
    maxup: nat,
    maxdown: nat,
    maxdownpre: nat,
    maxdowncomplete: nat,
    maxdowntransferjob: nat,
    leavefreeslot: bool)
  {
    function MaxDown(origin: Origin): nat {
      match origin
      case REGULAR => maxdown
      case PRE => maxdownpre
      case COMPLETE => maxdowncomplete
      case TRANSFERJOB => maxdowntransferjob
    }
  }

  /** A slot that is given back some time after its connection was lost. */
  datatype SlotReturn = SlotReturn(download: bool, triggertime: nat)

  // ----- the state -----

  /** gone holds the numbers of the requests that were finished or have expired. */
  datatype State = State(
    conns: seq<Conn>,
    slotsdn: int,
    slotsup: int,
    available: int,
    loggedin: int,
    requests: seq<Request>,
    ready: seq<ReadyRequest>,
    requestidcounter: nat,
    currtime: nat,
    sinceready: nat,
    delayed: seq<SlotReturn>,
    gone: set<nat>)

  function WithConn(s: State, id: nat, c: Conn): State
    requires id < |s.conns|
  {
    s.(conns := s.conns[id := c])
  }

  function Fresh(connections: nat): State {
    State(seq(connections, i => Conn(false, false, false, false, false, false, false, None)),
          0, 0, 0, 0, [], [], 0, 0, 0, [], {})
  }

  // ----- slots -----

  function DownloadSlotsAvailable(st: Settings, s: State, origin: Origin): int {
    if s.available == 0 then 0
    else if st.leavefreeslot && s.slotsdn + s.slotsup + 1 >= st.maxlogins && st.maxlogins > 1 then 0
    else
      var unused := st.MaxDown(origin) - s.slotsdn;
      if s.available < unused then s.available else unused
  }

  predicate DownloadSlotAvailable(st: Settings, s: State) {
    DownloadSlotsAvailable(st, s, REGULAR) > 0
  }

  predicate UploadSlotAvailable(st: Settings, s: State) {
    && s.available != 0
    && !(st.leavefreeslot && s.slotsdn + s.slotsup + 1 >= st.maxlogins && st.maxlogins > 1)
    && s.slotsup < st.maxup
  }

  predicate SlotFree(st: Settings, s: State, isdownload: bool, origin: Origin) {
    if isdownload then s.slotsdn < st.MaxDown(origin) else s.slotsup < st.maxup
  }

  function TakeSlot(s: State, isdownload: bool): State {
    s.(slotsdn := s.slotsdn + if isdownload then 1 else 0,
       slotsup := s.slotsup + if isdownload then 0 else 1,
       available := s.available - 1)
  }

  function LockConn(s: State, id: nat, isdownload: bool): State
    requires id < |s.conns|
  {
    WithConn(TakeSlot(s, isdownload), id, s.conns[id].(transferlocked := true, download := isdownload))
  }

  function TransferComplete(s: State, id: nat, isdownload: bool, returnslot: bool): State
    requires id < |s.conns|
  {
    s.(slotsdn := s.slotsdn - if returnslot && isdownload then 1 else 0,
       slotsup := s.slotsup - if returnslot && !isdownload then 1 else 0,
       available := s.available + if s.conns[id].request.None? then 1 else 0)
  }

  // ----- requests that are done -----

  /** How many ready requests have waited long enough for their owners. */
  function Expired(ready: seq<ReadyRequest>, sinceready: nat): (k: nat)
    ensures k <= |ready|
  {
    if sinceready > MAX_REQUEST_READY_QUEUE_IDLE_TIME && |ready| > MAX_REQUEST_READY_QUEUE_SIZE
    then |ready| - MAX_REQUEST_READY_QUEUE_SIZE else 0
  }

  function Ids(ready: seq<ReadyRequest>): set<nat> {
    set r | r in ready :: r.id
  }

  function ClearExpired(s: State): (r: State)
    ensures |r.conns| == |s.conns|
  {
    var k := Expired(s.ready, s.sinceready);
    s.(ready := s.ready[k..], gone := s.gone + Ids(s.ready[..k]))
  }

  function ReadyWith(id: nat): ReadyRequest -> bool {
    (r: ReadyRequest) => r.id == id
  }

  /** Takes the first ready request with this number off the list. */
  function TakeReady(s: State, requestid: nat): (r: State)
    ensures |r.conns| == |s.conns|
  {
    var k := First(s.ready, ReadyWith(requestid));
    if k < |s.ready| then s.(ready := Without(s.ready, k), gone := s.gone + {requestid}) else s
  }

  /** The request of the connection is done. Without anyone to tell, it is finished at
      once. */
  function SetRequestReady(s: State, id: nat, status: bool, returnslot: bool): (r: State)
    requires id < |s.conns| && s.conns[id].request.Some?
    ensures |r.conns| == |s.conns|
  {
    var c := s.conns[id];
    var r := c.request.value;
    var s1 := ClearExpired(s.(ready := s.ready + [ReadyRequest(r.id, r.kind, status)]));
    var s2 := WithConn(s1, id, c.(request := None)).(
              sinceready := 0,
              available := s.available + if returnslot && !c.transferlocked then 1 else 0);
    if r.callback then s2 else TakeReady(s2, r.id)
  }

  function HolderOf(requestid: nat): Conn -> bool {
    (c: Conn) => c.request.Some? && c.request.value.id == requestid
  }

  /** The owner of a request is done with it. */
  function FinishRequest(s: State, requestid: nat): State {
    var k := First(s.ready, ReadyWith(requestid));
    var i := First(s.conns, HolderOf(requestid));
    if k < |s.ready| then TakeReady(s, requestid)
    else if i < |s.conns| then
      var c := s.conns[i];
      WithConn(s, i, c.(request := None)).(
        available := s.available + if c.transferlocked then 0 else 1,
        gone := s.gone + {requestid})
    else s
  }

  // ----- ends of transfers -----

  /** A transfer failed, or its connection is being cleaned up, in which case the slot is
      returned later. */
  function ReportTransferErrorAndFinish(s: State, id: nat, cleanup: bool): (r: State)
    requires id < |s.conns|
    ensures |r.conns| == |s.conns|
  {
    var c := s.conns[id];
    var isdownload := c.CurrentType() == DOWNLOAD;
    var s1 := if c.listtransfer then s
              else TransferComplete(s, id, isdownload, !cleanup).(
                   delayed := s.delayed +
                     if cleanup then [SlotReturn(isdownload, s.currtime + TRANSFER_SLOT_CLEANUP_DELAY)] else []);
    var s2 := WithConn(s1, id, c.FinishTransfer());
    if c.HoldsDownload() then SetRequestReady(s2, id, false, true) else s2
  }

  /** Connections that failed or had nothing to do are handed back. */
  function ReturnConn(s: State, id: nat, istransfer: bool): State
    requires id < |s.conns|
  {
    var c := s.conns[id];
    var s1 := if c.transferlocked && c.CurrentType() != LIST
              then TransferComplete(s, id, c.CurrentType() == DOWNLOAD, true) else s;
    WithConn(s1, id, if istransfer then c.FinishFileTransfer() else c.FinishTransfer())
  }

  function FileComplete(s: State, id: nat, isdownload: bool): State
    requires id < |s.conns|
  {
    WithConn(TransferComplete(s, id, isdownload, true), id, s.conns[id].FinishTransfer())
  }

  // ----- losing connections -----

  function DropTransfer(s: State, id: nat): (r: State)
    requires id < |s.conns|
    ensures |r.conns| == |s.conns|
  {
    if s.conns[id].ListOrTransferLocked() then ReportTransferErrorAndFinish(s, id, true) else s
  }

  function DropRequest(s: State, id: nat): (r: State)
    requires id < |s.conns|
    ensures |r.conns| == |s.conns|
  {
    if s.conns[id].request.Some? then SetRequestReady(s, id, false, true) else s
  }

  predicate OtherConnected(conns: seq<Conn>, id: nat) {
    exists i :: 0 <= i < |conns| && i != id && conns[i].connected
  }

  /** Requests that the connection could serve. */
  function ServableBy(id: nat): Request -> bool {
    (r: Request) => r.connid == None || r.connid == Some(id)
  }

  /** Hands a queued request to the connection and fails it. */
  function FailQueued(s: State, id: nat, k: nat): (r: State)
    requires id < |s.conns| && k < |s.requests|
    ensures |r.conns| == |s.conns|
    ensures |r.requests| == |s.requests| - 1
  {
    SetRequestReady(WithConn(s.(requests := Without(s.requests, k)), id,
                             s.conns[id].(request := Some(s.requests[k]))), id, false, false)
  }

  function FailAllQueued(s: State, id: nat): (r: State)
    requires id < |s.conns|
    ensures |r.conns| == |s.conns|
    ensures |r.requests| <= |s.requests|
    decreases |s.requests|
  {
    hide FailQueued;
    var k := First(s.requests, ServableBy(id));
    if k < |s.requests| then FailAllQueued(FailQueued(s, id, k), id) else s
  }

  /** At most a list transfer and a file transfer are under way on one connection. */
  function CleanupConnection(s: State, id: nat): (r: State)
    requires id < |s.conns|
    ensures |r.conns| == |s.conns|
  {
    hide *;
    var s1 := DropRequest(DropTransfer(DropTransfer(s, id), id), id);
    if OtherConnected(s1.conns, id) then s1 else FailAllQueued(s1, id)
  }

  function LogOut(s: State, id: nat): (r: State)
    requires id < |s.conns|
    ensures |r.conns| == |s.conns|
  {
    if s.conns[id].loggedin && !s.conns[id].quitting
    then s.(loggedin := s.loggedin - 1, available := s.available - 1) else s
  }

  /** The connection was lost. */
  function LostConn(s: State, id: nat): State
    requires id < |s.conns|
  {
    hide CleanupConnection;
    var s1 := CleanupConnection(s, id);
    WithConn(LogOut(s1, id), id, s1.conns[id].Disconnected())
  }

  /** The connection is closed, politely unless hard or in the middle of something. */
  function DisconnectConn(s: State, id: nat, hard: bool, processing: bool): State
    requires id < |s.conns|
  {
    hide CleanupConnection;
    var s1 := CleanupConnection(s, id);
    var c := s1.conns[id];
    if !c.connected then s1
    else WithConn(LogOut(s1, id), id,
                  if !hard && c.loggedin && !processing then c.(quitting := true) else c.Disconnected())
  }

  // ----- taking on requests -----

  function OwnedBy(id: nat): Request -> bool {
    (r: Request) => r.connid == Some(id)
  }

  /** Anyone's request; the second stage of a download needs a free slot. */
  function FreeToTake(slot: bool): Request -> bool {
    (r: Request) => r.connid == None && (r.kind == DOWNLOAD_STAGE2 ==> slot)
  }

  /** The place in the queue of the request that the connection takes next. */
  function NextRequest(st: Settings, s: State, id: nat): (k: nat)
    ensures k <= |s.requests|
  {
    var own := First(s.requests, OwnedBy(id));
    if own < |s.requests| then own else First(s.requests, FreeToTake(DownloadSlotAvailable(st, s)))
  }

  function TakeRequest(s: State, id: nat, k: nat): State
    requires id < |s.conns| && k < |s.requests|
  {
    WithConn(s.(requests := Without(s.requests, k), available := s.available - 1), id,
             s.conns[id].(request := Some(s.requests[k].(connid := Some(id)))))
  }

  /** The connection of a download request is locked for the transfer: it is counted as
      available for a moment, so that it does not count twice. */
  function RegisterDownloadLock(s: State, id: nat): State
    requires id < |s.conns|
  {
    LockConn(s.(available := s.available + 1), id, true)
  }

  function HandleRequest(st: Settings, s: State, id: nat): State
    requires id < |s.conns|
  {
    var k := NextRequest(st, s, id);
    if k == |s.requests| then s
    else
      var s1 := TakeRequest(s, id, k);
      if s.requests[k].kind == DOWNLOAD_STAGE2 then RegisterDownloadLock(s1, id) else s1
  }

  function AddRequest(s: State, kind: RequestType, connid: Option<nat>, callback: bool): State {
    s.(requests := s.requests + [Request(s.requestidcounter, kind, connid, callback)],
       requestidcounter := s.requestidcounter + 1)
  }

  /** The first stage of a download found its file: the same request is queued again. */
  function Requeue(s: State, id: nat): State
    requires id < |s.conns| && s.conns[id].request.Some?
  {
    var r := s.conns[id].request.value;
    WithConn(s, id, s.conns[id].(request := None)).(
      available := s.available + 1,
      requests := s.requests + [r.(kind := DOWNLOAD_STAGE2, connid := None)])
  }

  // ----- time -----

  /** The slot returns that are not due yet. */
  function NotDue(delayed: seq<SlotReturn>, now: nat): (r: seq<SlotReturn>)
    ensures forall d :: d in r <==> d in delayed && now < d.triggertime
  {
    if delayed == [] then []
    else
      var r, d := NotDue(delayed[..|delayed| - 1], now), delayed[|delayed| - 1];
      if now < d.triggertime then r + [d] else r
  }

  function DueWeight(now: nat, download: bool): SlotReturn -> int {
    (d: SlotReturn) => if d.triggertime <= now && d.download == download then 1 else 0
  }

  function Tick(s: State): State {
    var now := s.currtime + TICK_INTERVAL;
    ClearExpired(s.(currtime := now,
                    slotsdn := s.slotsdn - Sum(s.delayed, DueWeight(now, true)),
                    slotsup := s.slotsup - Sum(s.delayed, DueWeight(now, false)),
                    delayed := NotDue(s.delayed, now),
                    sinceready := s.sinceready + TICK_INTERVAL))
  }
}
