/** The allocator of a site's connections, transfer slots and requests. */
module SiteLogics {
  import opened Base
  import opened Sums
  import opened SiteStates
  import opened SiteLaws
  import opened SiteSteps

  class SiteLogic {
    const site: Settings
    /** The counters, the state trackers of the connections, and the request lists. */
    var s: State

    ghost predicate Valid()
      reads this
    {
      Inv(site, s)
    }

    constructor (site: Settings)
      ensures Valid() && s == Fresh(site.maxlogins) && this.site == site
    {
      hide Inv;
      this.site := site;
      s := Fresh(site.maxlogins);
      new;
      FreshKeeps(site, site.maxlogins);
    }

    // ----- single connections -----

    method SetConn(id: nat, c: Conn)
      requires id < |s.conns|
      modifies this
      ensures s == WithConn(old(s), id, c)
    {
      s := s.(conns := s.conns[id := c]);
    }

    method LoginSucceeded(id: nat)
      requires Valid() && id < |s.conns| && s.conns[id].connected && !s.conns[id].loggedin
      modifies this
      ensures Valid() && s == LogIn(old(s), id)
    {
      hide Inv;
      LogInKeeps(site, s, id);
      s := s.(loggedin := s.loggedin + 1);
      s := s.(available := s.available + 1);
      SetConn(id, s.conns[id].(loggedin := true));
    }

    method Connected(id: nat)
      requires Valid() && id < |s.conns| && !s.conns[id].connected
      modifies this
      ensures Valid() && s == WithConn(old(s), id, old(s).conns[id].(connected := true))
    {
      hide Inv;
      ConnectKeeps(site, s, id);
      SetConn(id, s.conns[id].(connected := true));
    }

    /** Asserts what the tracker of a closing connection asserts. */
    method SetDisconnected(id: nat)
      requires id < |s.conns| && s.conns[id].Clean()
      modifies this
      ensures s == WithConn(old(s), id, old(s).conns[id].Disconnected())
    {
      var c := s.conns[id];
      assert !c.transferlocked && !c.listtransfer && !c.transfer && c.request.None?;
      SetConn(id, c.(connected := false, loggedin := false, quitting := false));
    }

    // ----- slots -----

    method GetSlot(isdownload: bool, origin: Origin) returns (success: bool)
      modifies this
      ensures success <==> SlotFree(site, old(s), isdownload, origin)
      ensures s == if success then TakeSlot(old(s), isdownload) else old(s)
    {
      if isdownload {
        if s.slotsdn >= site.MaxDown(origin) {
          return false;
        }
        s := s.(slotsdn := s.slotsdn + 1);
      } else {
        if s.slotsup >= site.maxup {
          return false;
        }
        s := s.(slotsup := s.slotsup + 1);
      }
      s := s.(available := s.available - 1);
      return true;
    }

    method CompleteTransfer(id: nat, isdownload: bool, returnslot: bool)
      requires id < |s.conns|
      modifies this
      ensures s == TransferComplete(old(s), id, isdownload, returnslot)
    {
      if returnslot {
        if isdownload {
          s := s.(slotsdn := s.slotsdn - 1);
        } else {
          s := s.(slotsup := s.slotsup - 1);
        }
      }
      if s.conns[id].request.None? {
        s := s.(available := s.available + 1);
      }
    }

    /** Asserts what the tracker of a connection asserts when it is locked. */
    method LockForTransfer(id: nat, isdownload: bool)
      requires id < |s.conns| && !s.conns[id].transferlocked && !s.conns[id].transfer
      requires isdownload || s.conns[id].request.None?
      modifies this
      ensures s == WithConn(old(s), id, old(s).conns[id].(transferlocked := true, download := isdownload))
    {
      SetConn(id, s.conns[id].(transferlocked := true, download := isdownload));
    }

    /** Not locked in any way and not waiting for the server. */
    static predicate Unoccupied(conns: seq<Conn>, i: nat, processing: set<nat>)
      requires i < |conns|
    {
      conns[i].loggedin && !conns[i].Locked() && i !in processing
    }

    static predicate Lockable(conns: seq<Conn>, i: nat)
      requires i < |conns|
    {
      conns[i].loggedin && !conns[i].HardLocked()
    }

    /** The connection that a transfer is given: an unoccupied one that is in the right
        place already, or else the last unoccupied one, or else the first one that is only
        listing or busy with a command. */
    static ghost predicate Chosen(conns: seq<Conn>, processing: set<nat>, here: set<nat>, i: nat)
      requires i < |conns|
    {
      if !Unoccupied(conns, i, processing) then
        && Lockable(conns, i)
        && (forall j :: 0 <= j < |conns| ==> !Unoccupied(conns, j, processing))
        && (forall j :: 0 <= j < i ==> !Lockable(conns, j))
      else if i in here then
        forall j :: 0 <= j < i && Unoccupied(conns, j, processing) ==> j !in here
      else
        forall j :: 0 <= j < |conns| && Unoccupied(conns, j, processing) ==> j !in here && j <= i
    }

    method ChooseConn(processing: set<nat>, here: set<nat>) returns (ret: Option<nat>)
      ensures ret.Some? ==> ret.value < |s.conns| && Chosen(s.conns, processing, here, ret.value)
      ensures ret.Some? ==> Lockable(s.conns, ret.value)
      ensures ret.None? <==> forall i :: 0 <= i < |s.conns| ==> !Lockable(s.conns, i)
    {
      var lastreadyid: Option<nat> := None;
      for i := 0 to |s.conns|
        invariant forall j :: 0 <= j < i && Unoccupied(s.conns, j, processing) ==> j !in here
        invariant lastreadyid.Some? ==> lastreadyid.value < i && Unoccupied(s.conns, lastreadyid.value, processing)
        invariant lastreadyid.Some? ==> Lockable(s.conns, lastreadyid.value)
        invariant forall j :: 0 <= j < i && Unoccupied(s.conns, j, processing) ==>
                  lastreadyid.Some? && j <= lastreadyid.value
      {
        if Unoccupied(s.conns, i, processing) {
          lastreadyid := Some(i);
          assert Lockable(s.conns, i);
          if i in here {
            return lastreadyid;
          }
        }
      }
      if lastreadyid.None? {
        for i := 0 to |s.conns|
          invariant forall j :: 0 <= j < i ==> !Lockable(s.conns, j)
        {
          if Lockable(s.conns, i) {
            return Some(i);
          }
        }
      }
      return lastreadyid;
    }

    method LockTransferConn(isdownload: bool, origin: Origin, processing: set<nat>, here: set<nat>)
      returns (success: bool, ret: nat)
      requires Valid()
      modifies this
      ensures Valid()
      ensures success <==>
                SlotFree(site, old(s), isdownload, origin) &&
                exists i :: 0 <= i < |old(s).conns| && Lockable(old(s).conns, i)
      ensures success ==>
                && ret < |old(s).conns| && Chosen(old(s).conns, processing, here, ret)
                && s == LockConn(old(s), ret, isdownload)
      ensures success && isdownload ==>
                s.slotsdn <= match origin case REGULAR => site.maxdown case PRE => site.maxdownpre
                                          case COMPLETE => site.maxdowncomplete
                                          case TRANSFERJOB => site.maxdowntransferjob
      ensures !success ==> s == old(s)
    {
      hide Inv, SlotFree, Chosen;
      var chosen := ChooseConn(processing, here);
      if chosen.None? {
        return false, 0;
      }
      ret := chosen.value;
      assert Lockable(s.conns, ret);
      InvConn(site, s, ret);
      success := GetSlot(isdownload, origin);
      if success {
        LockKeeps(site, old(s), ret, isdownload, origin);
        LockedWithin(site, old(s), ret, isdownload, origin);
        LockForTransfer(ret, isdownload);
      }
    }

    /** A connection whose request is a download is locked for it. The slot is there. */
    method LockForDownload(id: nat)
      requires id < |s.conns| && !s.conns[id].transferlocked && !s.conns[id].transfer && s.slotsdn < site.maxdown
      modifies this
      ensures s == RegisterDownloadLock(old(s), id)
    {
      s := s.(available := s.available + 1);
      var success := GetSlot(true, REGULAR);
      assert success;
      LockForTransfer(id, true);
    }

    /** A connection is handed back. If a file transfer is handed back while the connection
        lists a directory, its slot is lost. */
    method HandBack(id: nat, istransfer: bool)
      requires Valid() && id < |s.conns|
      modifies this
      ensures s == ReturnConn(old(s), id, istransfer)
      ensures Valid() <==> !(istransfer && old(s).conns[id].listtransfer && old(s).conns[id].transferlocked)
    {
      hide Inv;
      ReturnConnInv(site, s, id, istransfer);
      var c := s.conns[id];
      if c.transferlocked && c.CurrentType() == DOWNLOAD {
        CompleteTransfer(id, true, true);
      } else if c.transferlocked && c.CurrentType() == UPLOAD {
        CompleteTransfer(id, false, true);
      }
      SetConn(id, if istransfer then c.FinishFileTransfer() else c.FinishTransfer());
    }

    /** A locked connection gets its file. */
    method PrepareTransfer(id: nat)
      requires Valid() && id < |s.conns| && s.conns[id].transferlocked && !s.conns[id].transfer
      modifies this
      ensures Valid() && s == WithConn(old(s), id, old(s).conns[id].(transfer := true))
    {
      hide Inv;
      SetTransferKeeps(site, s, id);
      SetConn(id, s.conns[id].(transfer := true));
    }

    method PrepareList(id: nat)
      requires Valid() && id < |s.conns| && !s.conns[id].quitting
      requires !s.conns[id].ListOrTransferLocked() && !s.conns[id].transfer
      modifies this
      ensures Valid() && s == WithConn(old(s), id, old(s).conns[id].(listtransfer := true))
    {
      hide Inv;
      SetListKeeps(site, s, id);
      SetConn(id, s.conns[id].(listtransfer := true));
    }

    /** The listing is there. A file transfer that the connection was locked for meanwhile
        is left as it is. */
    method ListTransferComplete(id: nat)
      requires Valid() && id < |s.conns| && s.conns[id].listtransfer
      modifies this
      ensures Valid() && s == WithConn(old(s), id, old(s).conns[id].(listtransfer := false))
    {
      hide Inv;
      ListCompleteKeeps(site, s, id);
      SetConn(id, s.conns[id].FinishTransfer());
    }

    method FileTransferComplete(id: nat, isdownload: bool)
      requires Valid() && id < |s.conns| && s.conns[id].transferlocked
      requires !s.conns[id].listtransfer && s.conns[id].download == isdownload
      modifies this
      ensures Valid() && s == FileComplete(old(s), id, isdownload)
    {
      hide Inv;
      FileCompleteKeeps(site, s, id, isdownload);
      CompleteTransfer(id, isdownload, true);
      SetConn(id, s.conns[id].FinishTransfer());
    }

    // ----- requests -----

    /** What the owner of a request finds. */
    static function Outcome(r: Request, status: bool): ReadyRequest {
      ReadyRequest(r.id, r.kind, status)
    }

    static predicate LastIs(ready: seq<ReadyRequest>, x: ReadyRequest) {
      ready != [] && ready[|ready| - 1] == x
    }

    static lemma OwnerTold(s: State, id: nat, status: bool, returnslot: bool)
      requires id < |s.conns| && s.conns[id].request.Some?
      ensures var r := s.conns[id].request.value;
              r.callback ==> LastIs(SetRequestReady(s, id, status, returnslot).ready, Outcome(r, status))
    {
      hide SetRequestReady;
      if s.conns[id].request.value.callback {
        ReadyTells(s, id, status, returnslot);
      }
    }

    method ClearExpiredReadyRequests()
      modifies this
      ensures s == ClearExpired(old(s))
    {
      ghost var was := s;
      ghost var k := Expired(s.ready, s.sinceready);
      ghost var n := 0;
      assert s.ready[..0] == [] && was.gone + Ids([]) == was.gone;
      while s.sinceready > MAX_REQUEST_READY_QUEUE_IDLE_TIME && |s.ready| > MAX_REQUEST_READY_QUEUE_SIZE
        invariant n <= k && s == was.(ready := was.ready[n..], gone := was.gone + Ids(was.ready[..n]))
        decreases |s.ready|
      {
        assert was.ready[..n + 1] == was.ready[..n] + [was.ready[n]];
        assert Ids(was.ready[..n + 1]) == Ids(was.ready[..n]) + {was.ready[n].id};
        s := s.(ready := s.ready[1..], gone := s.gone + {s.ready[0].id});
        n := n + 1;
      }
    }

    /** Takes the request off the ready list, if it is there. */
    method TakeReadyRequest(requestid: nat) returns (found: bool, status: bool)
      modifies this
      ensures found <==> First(old(s).ready, ReadyWith(requestid)) < |old(s).ready|
      ensures s == TakeReady(old(s), requestid) && (!found ==> s == old(s))
      ensures status == StatusOf(old(s), requestid)
    {
      for i := 0 to |s.ready|
        invariant forall j :: 0 <= j < i ==> !ReadyWith(requestid)(s.ready[j])
        invariant s == old(s)
      {
        if s.ready[i].id == requestid {
          FirstIs(s.ready, ReadyWith(requestid), i);
          status := s.ready[i].status;
          s := s.(ready := Sums.Without(s.ready, i), gone := s.gone + {requestid});
          return true, status;
        }
      }
      FirstIs(s.ready, ReadyWith(requestid), |s.ready|);
      return false, true;
    }

    static lemma FirstIs<T>(xs: seq<T>, p: T -> bool, k: nat)
      requires k <= |xs| && (k < |xs| ==> p(xs[k])) && forall j :: 0 <= j < k ==> !p(xs[j])
      ensures First(xs, p) == k
    {
    }

    /** The owner is done with a request, which is ready or held by a connection, and learns
        how it ended. */
    method FinishOwnRequest(requestid: nat) returns (status: bool)
      requires Valid()
      requires First(s.ready, ReadyWith(requestid)) < |s.ready| || First(s.conns, HolderOf(requestid)) < |s.conns|
      modifies this
      ensures Valid() && s == FinishRequest(old(s), requestid) && status == StatusOf(old(s), requestid)
    {
      hide Inv, TakeReady, First;
      FinishRequestKeeps(site, s, requestid);
      var found;
      found, status := TakeReadyRequest(requestid);
      if found {
        return;
      }
      for i := 0 to |s.conns|
        invariant forall j :: 0 <= j < i ==> !HolderOf(requestid)(s.conns[j])
        invariant s == old(s)
      {
        var c := s.conns[i];
        if c.request.Some? && c.request.value.id == requestid {
          FirstIs(s.conns, HolderOf(requestid), i);
          s := s.(conns := s.conns[i := c.(request := None)], gone := s.gone + {requestid});
          if !c.transferlocked {
            s := s.(available := s.available + 1);
          }
          return;
        }
      }
      assert false;
    }

    /** The request of a connection is done. A request that nobody waits for is looked up
        on the ready list and finished; it is always there. */
    method MakeRequestReady(id: nat, status: bool, returnslot: bool)
      requires id < |s.conns| && s.conns[id].request.Some?
      modifies this
      ensures s == SetRequestReady(old(s), id, status, returnslot)
      ensures old(s).conns[id].request.value.callback ==>
                LastIs(s.ready, Outcome(old(s).conns[id].request.value, status))
    {
      hide ClearExpired, TakeReady, First, LastIs;
      var c := s.conns[id];
      var request := c.request.value;
      OwnerTold(s, id, status, returnslot);
      UnownedIsFound(s, id, status);
      s := s.(ready := s.ready + [ReadyRequest(request.id, request.kind, status)]);
      ghost var pushed := s;
      ClearExpiredReadyRequests();
      ClearedRest(pushed);
      s := s.(sinceready := 0);
      SetConn(id, c.(request := None));
      if returnslot && !c.transferlocked {
        s := s.(available := s.available + 1);
      }
      if !request.callback {
        var found, _ := TakeReadyRequest(request.id);
        assert found;
      }
    }

    method RequestIsDone(id: nat, status: bool)
      requires Valid() && id < |s.conns| && s.conns[id].request.Some?
      modifies this
      ensures Valid() && s == SetRequestReady(old(s), id, status, true)
      ensures old(s).conns[id].request.value.callback ==>
                LastIs(s.ready, Outcome(old(s).conns[id].request.value, status))
    {
      hide Inv, SetRequestReady;
      ReadyKeeps(site, s, id, status);
      MakeRequestReady(id, status, true);
    }

    method NewRequest(kind: RequestType, connid: Option<nat>, callback: bool) returns (requestid: nat)
      requires Valid() && (kind == DOWNLOAD_STAGE2 ==> connid == None)
      modifies this
      ensures Valid() && s == AddRequest(old(s), kind, connid, callback) && requestid == old(s).requestidcounter
      ensures s.requests == old(s).requests + [Request(requestid, kind, connid, callback)]
    {
      hide Inv;
      AddRequestKeeps(site, s, kind, connid, callback);
      requestid := s.requestidcounter;
      s := s.(requestidcounter := s.requestidcounter + 1);
      s := s.(requests := s.requests + [Request(requestid, kind, connid, callback)]);
    }

    /** The place in the queue of the next request for the connection. */
    method FindRequest(id: nat) returns (k: nat)
      ensures k == NextRequest(site, s, id)
    {
      for i := 0 to |s.requests|
        invariant forall j :: 0 <= j < i ==> !OwnedBy(id)(s.requests[j])
      {
        if s.requests[i].connid == Some(id) {
          FirstIs(s.requests, OwnedBy(id), i);
          return i;
        }
      }
      FirstIs(s.requests, OwnedBy(id), |s.requests|);
      var slot := DownloadSlotAvailable(site, s);
      for i := 0 to |s.requests|
        invariant forall j :: 0 <= j < i ==> !FreeToTake(slot)(s.requests[j])
      {
        if s.requests[i].connid == None {
          if !(s.requests[i].kind == DOWNLOAD_STAGE2 && !slot) {
            FirstIs(s.requests, FreeToTake(slot), i);
            return i;
          }
        }
      }
      FirstIs(s.requests, FreeToTake(slot), |s.requests|);
      return |s.requests|;
    }

    /** A request of its own, or one that is nobody's, and not a download without a slot. */
    static predicate MayTake(site: Settings, s: State, id: nat, r: Request) {
      r.connid == Some(id) || (r.connid == None && (r.kind == DOWNLOAD_STAGE2 ==> DownloadSlotAvailable(site, s)))
    }

    static lemma NextIsTakeable(site: Settings, s: State, id: nat)
      ensures NextRequest(site, s, id) < |s.requests| <==> exists r :: r in s.requests && MayTake(site, s, id, r)
    {
      hide NextRequest, DownloadSlotAvailable;
      NextExact(site, s, id);
      var k := NextRequest(site, s, id);
      if k < |s.requests| {
        assert s.requests[k] in s.requests && MayTake(site, s, id, s.requests[k]);
      }
    }

    method TakeNextRequest(id: nat) returns (taken: bool)
      requires Valid() && id < |s.conns| && !s.conns[id].Locked()
      modifies this
      ensures Valid() && s == HandleRequest(site, old(s), id)
      ensures taken <==> NextRequest(site, old(s), id) < |old(s).requests|
      ensures taken <==> exists r :: r in old(s).requests && MayTake(site, old(s), id, r)
      ensures taken ==> s.conns[id].request.Some? && s.conns[id].request.value.connid == Some(id)
    {
      hide Inv, NextRequest, DownloadSlotAvailable, MayTake;
      NextIsTakeable(site, s, id);
      HandleRequestKeeps(site, s, id);
      InvConn(site, s, id);
      var k := FindRequest(id);
      if k == |s.requests| {
        return false;
      }
      InvSlot(site, s, id);
      var request := s.requests[k].(connid := Some(id));
      s := s.(requests := Sums.Without(s.requests, k));
      SetConn(id, s.conns[id].(request := Some(request)));
      s := s.(available := s.available - 1);
      if request.kind == DOWNLOAD_STAGE2 {
        LockForDownload(id);
      }
      return true;
    }

    static lemma InvSlot(st: Settings, s: State, id: nat)
      requires Inv(st, s)
      ensures var k := NextRequest(st, s, id);
              k < |s.requests| && s.requests[k].kind == DOWNLOAD_STAGE2 ==> s.slotsdn < st.maxdown
    {
      hide NextRequest;
      StageTwoHasSlot(st, s, id);
    }

    /** The file was found: the download goes on as a second request with the same
        number. */
    method DownloadFileFound(id: nat)
      requires Valid() && id < |s.conns| && s.conns[id].request.Some?
      requires s.conns[id].request.value.kind == DOWNLOAD_STAGE1
      modifies this
      ensures Valid() && s == Requeue(old(s), id)
      ensures var r := old(s).conns[id].request.value;
              s.requests == old(s).requests + [Request(r.id, DOWNLOAD_STAGE2, None, r.callback)]
    {
      hide Inv;
      RequeueKeeps(site, s, id);
      var request := s.conns[id].request.value;
      SetConn(id, s.conns[id].(request := None));
      s := s.(available := s.available + 1);
      s := s.(requests := s.requests + [request.(kind := DOWNLOAD_STAGE2, connid := None)]);
    }

    // ----- failures and lost connections -----

    method ReportAndFinish(id: nat, cleanup: bool)
      requires id < |s.conns|
      modifies this
      ensures s == ReportTransferErrorAndFinish(old(s), id, cleanup)
    {
      hide SetRequestReady;
      var c := s.conns[id];
      match c.CurrentType() {
        case DOWNLOAD =>
          CompleteTransfer(id, true, !cleanup);
          if cleanup {
            s := s.(delayed := s.delayed + [SlotReturn(true, s.currtime + TRANSFER_SLOT_CLEANUP_DELAY)]);
          }
        case UPLOAD =>
          CompleteTransfer(id, false, !cleanup);
          if cleanup {
            s := s.(delayed := s.delayed + [SlotReturn(false, s.currtime + TRANSFER_SLOT_CLEANUP_DELAY)]);
          }
        case LIST =>
      }
      assert old(s).delayed + [] == old(s).delayed;
      SetConn(id, c.FinishTransfer());
      if c.request.Some? && (c.request.value.kind == DOWNLOAD_STAGE1 || c.request.value.kind == DOWNLOAD_STAGE2) {
        MakeRequestReady(id, false, true);
      }
    }

    method TransferFail(id: nat)
      requires Valid() && id < |s.conns| && s.conns[id].ListOrTransferLocked()
      modifies this
      ensures Valid() && s == ReportTransferErrorAndFinish(old(s), id, false)
      ensures old(s).conns[id].HoldsDownload() && old(s).conns[id].request.value.callback ==>
                LastIs(s.ready, Outcome(old(s).conns[id].request.value, false))
    {
      hide Inv, ReportTransferErrorAndFinish;
      if s.conns[id].HoldsDownload() && s.conns[id].request.value.callback {
        ReportTells(s, id, false);
      }
      ReportKeeps(site, s, id, false);
      ReportAndFinish(id, false);
    }

    /** Ends whatever the connection was doing, in at most two rounds. */
    method EndTransfers(id: nat)
      requires id < |s.conns|
      modifies this
      ensures s == DropTransfer(DropTransfer(old(s), id), id)
      ensures !s.conns[id].ListOrTransferLocked()
    {
      hide ReportTransferErrorAndFinish;
      ghost var was, rounds := s, 0;
      while s.conns[id].ListOrTransferLocked()
        invariant id < |s.conns| && rounds <= 2
        invariant rounds == 0 ==> s == was
        invariant rounds == 1 ==> s == DropTransfer(was, id)
        invariant rounds == 2 ==> s == DropTransfer(DropTransfer(was, id), id)
        invariant One(s.conns[id].listtransfer) + One(s.conns[id].transferlocked) <= 2 - rounds
        decreases 2 - rounds
      {
        ReportConn(s, id, true);
        ReportAndFinish(id, true);
        rounds := rounds + 1;
      }
    }

    /** Fails every queued request that only this connection could serve. */
    method FailQueuedRequests(id: nat)
      requires id < |s.conns| && s.conns[id].Clean()
      modifies this
      ensures s == FailAllQueued(old(s), id)
    {
      hide SetRequestReady, ServableBy, First;
      ghost var was := s;
      var erased := true;
      while erased
        invariant id < |s.conns| && s.conns[id].Clean()
        invariant FailAllQueued(s, id) == FailAllQueued(was, id)
        invariant !erased ==> First(s.requests, ServableBy(id)) == |s.requests|
        decreases erased, |s.requests|
      {
        erased := FailFirstQueued(id);
      }
    }

    method FailFirstQueued(id: nat) returns (erased: bool)
      requires id < |s.conns| && s.conns[id].Clean()
      modifies this
      ensures s.conns == old(s).conns
      ensures var k := First(old(s).requests, ServableBy(id));
              && (erased <==> k < |old(s).requests|)
              && (erased ==> s == FailQueued(old(s), id, k) && |s.requests| < |old(s).requests|)
              && (!erased ==> s == old(s))
    {
      hide SetRequestReady, First;
      for i := 0 to |s.requests|
        invariant forall j :: 0 <= j < i ==> !ServableBy(id)(s.requests[j])
        invariant s == old(s)
      {
        if !(s.requests[i].connid != None && s.requests[i].connid != Some(id)) {
          FirstIs(s.requests, ServableBy(id), i);
          ghost var was := s;
          SetConn(id, s.conns[id].(request := Some(s.requests[i])));
          s := s.(requests := Sums.Without(s.requests, i));
          ReadyConns(s, id, false, false);
          assert s.conns[id := s.conns[id].(request := None)] == was.conns;
          MakeRequestReady(id, false, false);
          return true;
        }
      }
      FirstIs(s.requests, ServableBy(id), |s.requests|);
      return false;
    }

    /** The request of the connection, and all requests if it was the last connection that
        could serve them, have failed, and those who wait for them can see that. */
    static predicate AllTold(was: State, s: State, id: nat)
      requires id < |was.conns|
    {
      && (was.conns[id].request.Some? ==> Told(s, was.conns[id].request.value))
      && (!OtherConnected(was.conns, id) ==> forall r :: r in was.requests && ServableBy(id)(r) ==> Told(s, r))
      && OnlyFails(was, s)
    }

    method Cleanup(id: nat)
      requires Valid() && id < |s.conns|
      modifies this
      ensures Valid() && s == CleanupConnection(old(s), id) && s.conns[id].Clean()
      ensures AllTold(old(s), s, id)
    {
      hide Inv, DropTransfer, SetRequestReady, FailAllQueued, OnlyFails, Told;
      CleanupTells(site, s, id);
      CleanupKeeps(site, s, id);
      CleanupRounds(site, s, id);
      EndTransfers(id);
      if s.conns[id].request.Some? {
        MakeRequestReady(id, false, true);
      }
      for i := 0 to |s.conns|
        invariant forall j :: 0 <= j < i && j != id ==> !s.conns[j].connected
        invariant s == DropRequest(DropTransfer(DropTransfer(old(s), id), id), id)
      {
        if i != id && s.conns[i].connected {
          return;
        }
      }
      FailQueuedRequests(id);
    }

    method LoggedOut(id: nat)
      requires id < |s.conns|
      modifies this
      ensures s == LogOut(old(s), id)
    {
      if s.conns[id].loggedin && !s.conns[id].quitting {
        s := s.(loggedin := s.loggedin - 1);
        s := s.(available := s.available - 1);
      }
    }

    method ConnectionLost(id: nat)
      requires Valid() && id < |s.conns|
      modifies this
      ensures Valid() && s == LostConn(old(s), id) && AllTold(old(s), s, id)
      ensures !s.conns[id].connected && !s.conns[id].loggedin && s.conns[id].Clean()
    {
      hide Inv, CleanupConnection, OtherConnected, ServableBy;
      LostKeeps(site, s, id);
      LostCloses(site, s, id);
      Cleanup(id);
      LoggedOut(id);
      SetDisconnected(id);
    }

    method CloseConnection(id: nat, hard: bool, processing: bool)
      requires Valid() && id < |s.conns|
      modifies this
      ensures Valid() && s == DisconnectConn(old(s), id, hard, processing) && AllTold(old(s), s, id)
      ensures old(s).conns[id].connected ==>
                (s.conns[id].connected <==> !hard && old(s).conns[id].loggedin && !processing) &&
                (s.conns[id].quitting <==> s.conns[id].connected)
    {
      hide Inv, CleanupConnection, OtherConnected, ServableBy;
      DisconnectKeeps(site, s, id, hard, processing);
      if s.conns[id].connected {
        DisconnectCloses(site, s, id, hard, processing);
      }
      Cleanup(id);
      if s.conns[id].connected {
        LoggedOut(id);
        if !hard && s.conns[id].loggedin && !processing {
          SetConn(id, s.conns[id].(quitting := true));
        } else {
          SetDisconnected(id);
        }
      }
    }

    /** A transfer counts as complete before its connection confirms it. The connection is
        given up. */
    method FinishPrematurely(id: nat, processing: bool)
      requires Valid() && id < |s.conns| && s.conns[id].transferlocked && !s.conns[id].listtransfer
      modifies this
      ensures Valid()
      ensures s == DisconnectConn(FileComplete(old(s), id, old(s).conns[id].download), id, false, processing)
    {
      hide Inv, DisconnectConn;
      FileTransferComplete(id, s.conns[id].download);
      CloseConnection(id, false, processing);
    }

    method QuitConfirmed(id: nat)
      requires Valid() && id < |s.conns| && s.conns[id].quitting
      modifies this
      ensures Valid() && s == WithConn(old(s), id, old(s).conns[id].Disconnected())
    {
      hide Inv;
      QuitDoneKeeps(site, s, id);
      SetDisconnected(id);
    }

    // ----- time -----

    static lemma DueStep(delayed: seq<SlotReturn>, i: nat, now: nat)
      requires i < |delayed|
      ensures var d := delayed[i];
              && Sum(delayed[..i + 1], DueWeight(now, true)) ==
                 Sum(delayed[..i], DueWeight(now, true)) + One(d.triggertime <= now && d.download)
              && Sum(delayed[..i + 1], DueWeight(now, false)) ==
                 Sum(delayed[..i], DueWeight(now, false)) + One(d.triggertime <= now && !d.download)
              && NotDue(delayed[..i + 1], now) == NotDue(delayed[..i], now) + if now < d.triggertime then [d] else []
    {
      assert delayed[..i + 1][..i] == delayed[..i];
    }

    /** Gives back the slots that are due. */
    method ReleaseSlots()
      modifies this
      ensures var o := old(s);
              s == o.(slotsdn := o.slotsdn - Sum(o.delayed, DueWeight(o.currtime, true)),
                      slotsup := o.slotsup - Sum(o.delayed, DueWeight(o.currtime, false)),
                      delayed := NotDue(o.delayed, o.currtime))
    {
      hide Sum, NotDue, DueWeight;
      ghost var was, now := s, s.currtime;
      var waiting, delayed := [], s.delayed;
      assert delayed[..0] == [];
      NothingDue(now);
      for i := 0 to |delayed|
        invariant s == was.(slotsdn := s.slotsdn, slotsup := s.slotsup)
        invariant s.slotsdn == was.slotsdn - Sum(delayed[..i], DueWeight(now, true))
        invariant s.slotsup == was.slotsup - Sum(delayed[..i], DueWeight(now, false))
        invariant waiting == NotDue(delayed[..i], now)
      {
        DueStep(delayed, i, now);
        if s.currtime >= delayed[i].triggertime {
          if delayed[i].download {
            s := s.(slotsdn := s.slotsdn - 1);
          } else {
            s := s.(slotsup := s.slotsup - 1);
          }
        } else {
          waiting := waiting + [delayed[i]];
        }
      }
      assert delayed[..|delayed|] == delayed;
      s := s.(delayed := waiting);
    }

    static lemma NothingDue(now: nat)
      ensures Sum([], DueWeight(now, true)) == 0 && Sum([], DueWeight(now, false)) == 0 && NotDue([], now) == []
    {
    }

    /** Returns the slots that are due, and lets ready requests expire. */
    method TimePasses()
      requires Valid()
      modifies this
      ensures Valid() && s == Tick(old(s))
    {
      hide Inv, ClearExpired, Sum, NotDue, DueWeight;
      TickKeeps(site, s);
      s := s.(currtime := s.currtime + TICK_INTERVAL);
      ReleaseSlots();
      s := s.(sinceready := s.sinceready + TICK_INTERVAL);
      ClearExpiredReadyRequests();
    }
  }
}
