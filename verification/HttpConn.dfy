/** Responses to pipelined requests: they are sent in the order of the requests (section
    6.3.2 of RFC 7230), in whatever order they are ready and however often sending pauses. */
module HttpConns {
  import opened Base

  const MAX_SEND_BLOCK: nat := 65536

  // ----- responses -----

  /** A header as it was written, and its values joined by commas. Headers are found by
      their lower case name. */
  datatype Header = Header(name: string, value: string)

  datatype Response = Response(statuscode: nat, headers: map<string, Header>, body: Option<seq<char>>)

  function HeaderValue(r: Response, key: string): string {
    if key in r.headers then r.headers[key].value else ""
  }

  /** Connections are kept open, so a response does not say otherwise, and its length is
      always known. */
  function Normalised(r: Response): Response {
    if HeaderValue(r, "connection") == "Close" then
      var headers := r.headers - {"connection"};
      r.(headers := if "content-length" in headers then headers
                    else headers["content-length" := Header("Content-Length", "0")])
    else r
  }

  /** A normalised response never asks for the connection to be closed, and a response that
      did tells its length. Status, body and all other headers stay, and no other response
      changes. */
  lemma NormalisedStaysOpen(r: Response)
    ensures HeaderValue(Normalised(r), "connection") != "Close"
    ensures HeaderValue(r, "connection") == "Close" ==>
              "content-length" in Normalised(r).headers && "connection" !in Normalised(r).headers
    ensures forall key :: key in r.headers && key != "connection" ==>
              key in Normalised(r).headers && Normalised(r).headers[key] == r.headers[key]
    ensures Normalised(Normalised(r)) == Normalised(r)
    ensures Normalised(r).statuscode == r.statuscode && Normalised(r).body == r.body
    ensures HeaderValue(r, "connection") != "Close" ==> Normalised(r) == r
    ensures forall key :: key in Normalised(r).headers && key !in r.headers ==>
              key == "content-length" && Normalised(r).headers[key].value == "0"
  {
  }

  // ----- the pipeline -----

  type Waiting = seq<(nat, Response)>

  /** sent and answered are there to tell what has happened: the bytes handed over for
      sending, and the response to every request that was answered. */
  datatype Pipeline = Pipeline(
    responses: Waiting,
    sendbuffer: seq<char>,
    paused: bool,
    latestrequestidresponded: int,
    sent: seq<char>,
    answered: map<nat, Response>)

  predicate Ascending(w: Waiting) {
    forall i, j :: 0 <= i < j < |w| ==> w[i].0 < w[j].0
  }

  /** The serialized responses to the first n requests. */
  function Stream(serialize: Response -> seq<char>, answered: map<nat, Response>, n: nat): seq<char>
    requires forall i: nat :: i < n ==> i in answered
  {
    if n == 0 then [] else Stream(serialize, answered, n - 1) + serialize(Normalised(answered[n - 1]))
  }

  lemma {:induction false} StreamSame(serialize: Response -> seq<char>, answered: map<nat, Response>,
                                      more: map<nat, Response>, n: nat)
    requires forall i: nat :: i < n ==> i in answered && i in more && answered[i] == more[i]
    ensures Stream(serialize, answered, n) == Stream(serialize, more, n)
  {
    if n > 0 {
      StreamSame(serialize, answered, more, n - 1);
    }
  }

  ghost predicate Waits(w: Waiting, id: nat) {
    exists i :: 0 <= i < |w| && w[i].0 == id
  }

  /** What waits is what was answered and is not in the stream yet. */
  ghost predicate WaitingOk(p: Pipeline) {
    && Ascending(p.responses)
    && (forall i :: 0 <= i < |p.responses| ==>
          p.responses[i].0 > p.latestrequestidresponded && p.responses[i].0 in p.answered &&
          p.answered[p.responses[i].0] == p.responses[i].1)
    && (forall id :: id in p.answered && id > p.latestrequestidresponded ==> Waits(p.responses, id))
  }

  ghost predicate StreamOk(serialize: Response -> seq<char>, p: Pipeline) {
    && p.latestrequestidresponded >= -1
    && (forall i: nat :: i <= p.latestrequestidresponded ==> i in p.answered)
    && p.sent + p.sendbuffer == Stream(serialize, p.answered, p.latestrequestidresponded + 1)
  }

  predicate Settled(p: Pipeline) {
    !p.paused ==> p.sendbuffer == [] && (p.responses != [] ==> p.responses[0].0 != p.latestrequestidresponded + 1)
  }

  ghost predicate PipelineOk(serialize: Response -> seq<char>, p: Pipeline) {
    WaitingOk(p) && StreamOk(serialize, p) && Settled(p)
  }

  /** Puts the response before the first one with a higher number. */
  function Inserted(w: Waiting, id: nat, r: Response): (v: Waiting)
    ensures forall x :: x in v <==> x in w || x == (id, r)
    ensures |v| == |w| + 1
  {
    if w == [] then [(id, r)]
    else if w[0].0 > id then [(id, r)] + w
    else [w[0]] + Inserted(w[1..], id, r)
  }

  lemma {:induction false} InsertedAscends(w: Waiting, id: nat, r: Response)
    requires Ascending(w) && forall i :: 0 <= i < |w| ==> w[i].0 != id
    ensures Ascending(Inserted(w, id, r))
  {
    if w != [] && w[0].0 < id {
      InsertedAscends(w[1..], id, r);
      var v := Inserted(w[1..], id, r);
      forall x | x in v
        ensures w[0].0 < x.0
      {
      }
    }
  }

  lemma {:induction false} InsertedAt(w: Waiting, id: nat, r: Response, k: nat)
    requires k <= |w| && (forall i :: 0 <= i < k ==> w[i].0 <= id) && (k < |w| ==> w[k].0 > id)
    ensures Inserted(w, id, r) == w[..k] + [(id, r)] + w[k..]
  {
    if k > 0 {
      InsertedAt(w[1..], id, r, k - 1);
      assert w == [w[0]] + w[1..];
      assert w[1..][..k - 1] == w[1..k];
    }
  }

  lemma InsertedWaits(w: Waiting, id: nat, r: Response, i: nat)
    ensures Waits(Inserted(w, id, r), i) <==> i == id || Waits(w, i)
  {
    var v := Inserted(w, id, r);
    if Waits(w, i) {
      var k :| 0 <= k < |w| && w[k].0 == i;
      assert w[k] in v;
    }
    if i == id {
      assert (id, r) in v;
    }
    if Waits(v, i) {
      var k :| 0 <= k < |v| && v[k].0 == i;
      assert v[k] in v;
    }
  }

  lemma QueuedWaiting(p: Pipeline, id: nat, r: Response)
    requires WaitingOk(p) && id !in p.answered && id > p.latestrequestidresponded
    ensures WaitingOk(p.(responses := Inserted(p.responses, id, r), answered := p.answered[id := r]))
  {
    hide Waits;
    var v := Inserted(p.responses, id, r);
    InsertedAscends(p.responses, id, r);
    forall i: nat
      ensures Waits(v, i) <==> i == id || Waits(p.responses, i)
    {
      InsertedWaits(p.responses, id, r, i);
    }
    forall k | 0 <= k < |v|
      ensures v[k].0 > p.latestrequestidresponded && v[k].0 in p.answered[id := r] &&
              p.answered[id := r][v[k].0] == v[k].1
    {
      assert v[k] in v;
    }
  }

  lemma QueuedOk(serialize: Response -> seq<char>, p: Pipeline, id: nat, r: Response)
    requires WaitingOk(p) && StreamOk(serialize, p) && id !in p.answered
    ensures var q := p.(responses := Inserted(p.responses, id, r), answered := p.answered[id := r]);
            WaitingOk(q) && StreamOk(serialize, q)
  {
    hide WaitingOk;
    assert id > p.latestrequestidresponded;
    QueuedWaiting(p, id, r);
    StreamSame(serialize, p.answered, p.answered[id := r], p.latestrequestidresponded + 1);
  }

  /** A second response finds the first one sent, or waiting. */
  lemma {:induction false} InsertedTwice(w: Waiting, id: nat, r: Response)
    requires Ascending(w) && Waits(w, id)
    ensures !Ascending(Inserted(w, id, r))
  {
    var k: nat :| k < |w| && w[k].0 == id;
    forall i | 0 <= i <= k
      ensures w[i].0 <= id
    {
    }
    InsertedAt(w, id, r, k + 1);
    var v := Inserted(w, id, r);
    assert v[k] == w[k] && v[k + 1] == (id, r);
  }

  /** What waits stays right if and only if the request was not answered before. */
  lemma AnsweredTwiceExact(p: Pipeline, id: nat, r: Response)
    requires WaitingOk(p) && forall i: nat :: i <= p.latestrequestidresponded ==> i in p.answered
    ensures WaitingOk(p.(responses := Inserted(p.responses, id, r), answered := p.answered[id := r])) <==>
            id !in p.answered
  {
    hide Waits, Ascending;
    var v := Inserted(p.responses, id, r);
    if id !in p.answered {
      QueuedWaiting(p, id, r);
    } else if id <= p.latestrequestidresponded {
      assert (id, r) in v;
    } else {
      InsertedTwice(p.responses, id, r);
    }
  }

  /** A response in front that was sent already. Nothing is sent any more. */
  predicate Blocked(p: Pipeline) {
    p.responses != [] && p.responses[0].0 <= p.latestrequestidresponded
  }

  /** A second response to a request whose first response was sent blocks the pipeline,
      and no other response gets it going again. */
  lemma AnsweredTwiceBlocks(p: Pipeline, id: nat, r: Response)
    requires (WaitingOk(p) && id <= p.latestrequestidresponded) || Blocked(p)
    ensures Blocked(p.(responses := Inserted(p.responses, id, r)))
  {
    hide Waits;
  }

  lemma MovedWaiting(p: Pipeline)
    requires WaitingOk(p) && p.responses != [] && p.responses[0].0 == p.latestrequestidresponded + 1
    ensures forall i: nat :: i > p.latestrequestidresponded + 1 ==>
            (Waits(p.responses[1..], i) <==> Waits(p.responses, i))
    ensures p.latestrequestidresponded + 1 in p.answered
    ensures p.answered[p.latestrequestidresponded + 1] == p.responses[0].1
  {
    forall i: nat | i > p.latestrequestidresponded + 1 && Waits(p.responses, i)
      ensures Waits(p.responses[1..], i)
    {
      var k :| 0 <= k < |p.responses| && p.responses[k].0 == i;
      assert p.responses[1..][k - 1].0 == i;
    }
  }

  /** The next response moves into the stream. */
  lemma MovedOk(serialize: Response -> seq<char>, p: Pipeline)
    requires WaitingOk(p) && StreamOk(serialize, p)
    requires p.responses != [] && p.responses[0].0 == p.latestrequestidresponded + 1
    ensures var q := p.(responses := p.responses[1..], latestrequestidresponded := p.latestrequestidresponded + 1,
                        sendbuffer := p.sendbuffer + serialize(Normalised(p.responses[0].1)));
            WaitingOk(q) && StreamOk(serialize, q)
  {
    hide Waits, Normalised;
    MovedWaiting(p);
    var more := serialize(Normalised(p.responses[0].1));
    assert p.sent + (p.sendbuffer + more) == (p.sent + p.sendbuffer) + more;
  }

  /** When sending is not paused, the responses to all requests before the first one that
      is not answered yet have been sent, completely and in order. */
  lemma SentUpToFirstGap(serialize: Response -> seq<char>, p: Pipeline)
    requires PipelineOk(serialize, p) && !p.paused
    ensures p.sent == Stream(serialize, p.answered, p.latestrequestidresponded + 1)
    ensures p.latestrequestidresponded + 1 !in p.answered
    ensures forall i: nat :: i <= p.latestrequestidresponded ==> i in p.answered
  {
    assert p.sent + [] == p.sent;
    FrontIsNext(p);
  }

  lemma FrontIsNext(p: Pipeline)
    requires WaitingOk(p) && p.latestrequestidresponded >= -1
    ensures p.latestrequestidresponded + 1 in p.answered ==>
              p.responses != [] && p.responses[0].0 == p.latestrequestidresponded + 1
  {
    if p.latestrequestidresponded + 1 in p.answered {
      assert Waits(p.responses, p.latestrequestidresponded + 1);
      var k :| 0 <= k < |p.responses| && p.responses[k].0 == p.latestrequestidresponded + 1;
      assert p.responses[0].0 <= p.responses[k].0;
    }
  }

  class HTTPConn {
    const serialize: Response -> seq<char>
    /** What is waiting, what is being sent and what was sent. */
    var p: Pipeline

    ghost predicate Valid()
      reads this
    {
      PipelineOk(serialize, p)
    }

    constructor (serialize: Response -> seq<char>)
      ensures Valid() && this.serialize == serialize
      ensures p == Pipeline([], [], false, -1, [], map[])
    {
      this.serialize := serialize;
      p := Pipeline([], [], false, -1, [], map[]);
    }

    /** Hands over the buffer in blocks, until it is empty or sending pauses. */
    method SendFromBuffer()
      modifies this
      ensures p == old(p).(paused := p.paused, sendbuffer := p.sendbuffer, sent := p.sent)
      ensures p.sent + p.sendbuffer == old(p).sent + old(p).sendbuffer && old(p).sent <= p.sent
      ensures (old(p).paused ==> p == old(p)) && (!p.paused ==> p.sendbuffer == [])
    {
      while !p.paused && |p.sendbuffer| > 0
        invariant p == old(p).(paused := p.paused, sendbuffer := p.sendbuffer, sent := p.sent)
        invariant p.sent + p.sendbuffer == old(p).sent + old(p).sendbuffer && old(p).sent <= p.sent
        invariant old(p).paused ==> p == old(p)
        decreases |p.sendbuffer|
      {
        var size := if |p.sendbuffer| < MAX_SEND_BLOCK then |p.sendbuffer| else MAX_SEND_BLOCK;
        SendBlock(size);
      }
    }

    method SendBlock(size: nat)
      requires 0 < size <= |p.sendbuffer|
      modifies this
      ensures p == old(p).(paused := p.paused, sendbuffer := old(p).sendbuffer[size..],
                           sent := old(p).sent + old(p).sendbuffer[..size])
      ensures p.sent + p.sendbuffer == old(p).sent + old(p).sendbuffer
    {
      assert p.sendbuffer == p.sendbuffer[..size] + p.sendbuffer[size..];
      p := p.(sent := p.sent + p.sendbuffer[..size]);
      var full: bool := *;
      if full {
        p := p.(paused := true);
      }
      p := p.(sendbuffer := p.sendbuffer[size..]);
    }

    method SendResponse(response: Response)
      modifies this
      ensures p == old(p).(paused := p.paused, sendbuffer := p.sendbuffer, sent := p.sent,
                           latestrequestidresponded := old(p).latestrequestidresponded + 1)
      ensures p.sent + p.sendbuffer == old(p).sent + (old(p).sendbuffer + serialize(Normalised(response)))
      ensures old(p).sent <= p.sent && (!p.paused ==> p.sendbuffer == [])
    {
      var newresponse := response;
      if HeaderValue(newresponse, "connection") == "Close" {
        newresponse := newresponse.(headers := newresponse.headers - {"connection"});
        if "content-length" !in newresponse.headers {
          newresponse :=
            newresponse.(headers := newresponse.headers["content-length" := Header("Content-Length", "0")]);
        }
      }
      p := p.(sendbuffer := p.sendbuffer + serialize(newresponse));
      SendFromBuffer();
      p := p.(latestrequestidresponded := p.latestrequestidresponded + 1);
    }

    /** Sends what is in the buffer and then the responses whose turn it is. */
    method SendResponses()
      requires WaitingOk(p) && StreamOk(serialize, p)
      modifies this
      ensures Valid() && p.answered == old(p).answered && old(p).sent <= p.sent
    {
      hide WaitingOk, StreamOk;
      ghost var was := p;
      SendFromBuffer();
      SameStream(serialize, was, p);
      while !p.paused && |p.responses| > 0 && p.responses[0].0 == p.latestrequestidresponded + 1
        invariant WaitingOk(p) && StreamOk(serialize, p) && p.answered == old(p).answered && old(p).sent <= p.sent
        invariant !p.paused ==> p.sendbuffer == []
        decreases |p.responses|
      {
        MovedOk(serialize, p);
        ghost var q := p.(responses := p.responses[1..], latestrequestidresponded := p.latestrequestidresponded + 1,
                          sendbuffer := p.sendbuffer + serialize(Normalised(p.responses[0].1)));
        SendResponse(p.responses[0].1);
        p := p.(responses := p.responses[1..]);
        SameStream(serialize, q, p);
      }
    }

    /** How much of the stream has been handed over does not matter. */
    static lemma SameStream(serialize: Response -> seq<char>, p: Pipeline, q: Pipeline)
      requires WaitingOk(p) && StreamOk(serialize, p)
      requires q == p.(paused := q.paused, sendbuffer := q.sendbuffer, sent := q.sent)
      requires q.sent + q.sendbuffer == p.sent + p.sendbuffer
      ensures WaitingOk(q) && StreamOk(serialize, q)
    {
    }

    /** A request was handled. Each is answered once. */
    method QueueResponse(requestid: nat, response: Response)
      requires Valid() && requestid !in p.answered
      modifies this
      ensures Valid() && p.answered == old(p).answered[requestid := response] && old(p).sent <= p.sent
    {
      hide WaitingOk, StreamOk;
      QueuedOk(serialize, p, requestid, response);
      var k := 0;
      while k < |p.responses| && p.responses[k].0 <= requestid
        invariant k <= |p.responses| && forall i :: 0 <= i < k ==> p.responses[i].0 <= requestid
      {
        k := k + 1;
      }
      InsertedAt(p.responses, requestid, response, k);
      p := p.(responses := p.responses[..k] + [(requestid, response)] + p.responses[k..],
              answered := p.answered[requestid := response]);
      SendResponses();
    }

    /** The socket takes more. */
    method FDSendComplete()
      requires Valid()
      modifies this
      ensures Valid() && p.answered == old(p).answered && old(p).sent <= p.sent
    {
      hide WaitingOk, StreamOk;
      ghost var was := p;
      p := p.(paused := false);
      SameStream(serialize, was, p);
      SendResponses();
    }
  }
}
