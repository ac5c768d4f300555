/** The pipelined request and response exchange between the ABCI socket client and server
    (abci/client/socket_client.go, abci/server/socket_server.go). Every step below is one atomic action of
    one goroutine; runs interleave them in any order. */
module SocketPipeline {
  import opened Prelude

  datatype Kind =
    | Echo | Flush | Info | CheckTx | Query | InitChain | PrepareProposal | ProcessProposal | ExtendVote
      | VerifyVoteExtension
    | FinalizeBlock | ListSnapshots | OfferSnapshot | LoadSnapshotChunk | ApplySnapshotChunk | Unknown

  datatype Request = Request(kind: Kind, body: Bytes)

  datatype Response = Response(kind: Kind, body: Bytes)

  /** What the application answers to the n-th request it serves; `None` is an error. */
  type App = (nat, Request) -> Option<Bytes>

  const RESPONSES_CAPACITY := 1000

  /** `processRequest`; `None` closes the connection. */
  function ProcessRequest(app: App, n: nat, r: Request): Option<Response> {
    match r.kind
    case Unknown => None
    case Echo => Some(Response(Echo, r.body))
    case Flush => Some(Response(Flush, []))
    case _ => var body := app(n, r); if body.Some? then Some(Response(r.kind, body.value)) else None
  }

  /** `resMatchesReq`. */
  predicate Matches(req: Request, res: Response) {
    req.kind != Unknown && req.kind == res.kind
  }

  // ---------------------------------------------------------------- state

  /** A caller of `doRequest`: its request, whether its context is done, and the reply it was given. */
  datatype Call = Call(request: Request, expired: bool, reply: Option<Response>)

  datatype ServerWork = Idle | Read(request: Request) | Processed(response: Response)

  datatype Failure = NothingExpected | WrongKind | ServerClosed

  datatype State = State(
    calls: seq<Call>,
    waiting: set<nat>,           // callers blocked on the request queue
    taken: Option<nat>,          // dequeued and not yet tracked
    answered: seq<nat>,          // calls popped from the sent list, oldest first
    sent: seq<nat>,              // the client's list of sent requests
    unwritten: Option<nat>,      // tracked and not yet written
    requests: seq<Request>,      // on the wire to the server
    work: ServerWork,            // in the hands of the server's request loop
    served: nat,                 // requests the server has processed
    queue: seq<Response>,        // the server's response channel
    responses: seq<Response>,    // on the wire to the client
    failure: Option<Failure>)

  const START := State([], {}, None, [], [], None, [], Idle, 0, [], [], None)

  datatype Step =
    | NewCall(request: Request)  // a caller enters doRequest
    | Expire(id: nat)            // its context is done
    | Withdraw(id: nat)          // it stops waiting for the queue
    | Dequeue(id: nat)           // the sender takes it from the queue
    | Track                      // the sender skips it if expired, or tracks it
    | WriteRequest
    | ReadRequest
    | Process
    | QueueResponse
    | WriteResponse
    | Receive

  /** `didRecvResponse`. */
  function DidRecv(s: State): State
    requires s.responses != []
  {
    var res, rest := s.responses[0], s.responses[1..];
    if s.sent == [] then s.(failure := Some(NothingExpected))
    else if s.sent[0] >= |s.calls| || !Matches(s.calls[s.sent[0]].request, res) then s.(failure := Some(WrongKind))
    else
      var id := s.sent[0];
      s.(calls := s.calls[id := s.calls[id].(reply := Some(res))], answered := s.answered + [id], sent := s.sent[1..],
         responses := rest)
  }

  /** The state after a step; a step that is not possible changes nothing, nor does any step after a failure. */
  function Next(app: App, s: State, step: Step): State {
    if s.failure.Some? then s
    else
      match step
      case NewCall(r) => s.(calls := s.calls + [Call(r, false, None)], waiting := s.waiting + {|s.calls|})
      case Expire(id) => if id < |s.calls| then s.(calls := s.calls[id := s.calls[id].(expired := true)]) else s
      case Withdraw(id) =>
        if id in s.waiting && id < |s.calls| && s.calls[id].expired then s.(waiting := s.waiting - {id}) else s
      case Dequeue(id) =>
        if id in s.waiting && s.taken.None? && s.unwritten.None?
        then s.(waiting := s.waiting - {id}, taken := Some(id))
        else s
      case Track =>
        if s.taken.None? then s
        else if s.taken.value < |s.calls| && s.calls[s.taken.value].expired then s.(taken := None)
        else s.(taken := None, sent := s.sent + [s.taken.value], unwritten := s.taken)
      case WriteRequest =>
        if s.unwritten.Some? && s.unwritten.value < |s.calls|
        then s.(unwritten := None, requests := s.requests + [s.calls[s.unwritten.value].request]) else s
      case ReadRequest =>
        if s.work.Idle? && s.requests != [] then s.(work := Read(s.requests[0]), requests := s.requests[1..]) else s
      case Process =>
        if !s.work.Read? then s
        else
          var r := ProcessRequest(app, s.served, s.work.request);
          if r.None? then s.(failure := Some(ServerClosed)) else s.(work := Processed(r.value), served := s.served + 1)
      case QueueResponse =>
        if s.work.Processed? && |s.queue| < RESPONSES_CAPACITY
        then s.(work := Idle, queue := s.queue + [s.work.response])
        else s
      case WriteResponse =>
        if s.queue != [] then s.(queue := s.queue[1..], responses := s.responses + [s.queue[0]]) else s
      case Receive => if s.responses != [] then DidRecv(s) else s
  }

  function Run(app: App, steps: seq<Step>): State {
    if steps == [] then START else Next(app, Run(app, steps[..|steps| - 1]), steps[|steps| - 1])
  }

  // ---------------------------------------------------------------- the invariant

  /** Every call tracked so far, in the order of tracking. */
  function Tracked(s: State): seq<nat> {
    s.answered + s.sent
  }

  ghost predicate Known(s: State) {
    && (forall k :: 0 <= k < |Tracked(s)| ==> Tracked(s)[k] < |s.calls|)
    && (forall id :: id in s.waiting ==> id < |s.calls|)
    && (s.taken.Some? ==> s.taken.value < |s.calls|)
  }

  /** The requests of the tracked calls. */
  ghost function Trail(s: State): (r: seq<Request>)
    requires Known(s)
    ensures |r| == |Tracked(s)|
  {
    seq(|Tracked(s)|, k requires 0 <= k < |Tracked(s)| => s.calls[Tracked(s)[k]].request)
  }

  /** Responses written or waiting to be written, oldest first. */
  function Ready(s: State): seq<Response> {
    s.responses + s.queue + if s.work.Processed? then [s.work.response] else []
  }

  /** Requests the server has not processed, oldest first. */
  function Unserved(s: State): seq<Request> {
    (if s.work.Read? then [s.work.request] else []) + s.requests
  }

  function Pending(s: State): nat {
    if s.unwritten.Some? then 1 else 0
  }

  /** A call sits in one place only. */
  ghost predicate Apart(s: State) {
    && (forall id :: id in s.waiting ==> id !in Tracked(s))
    && (s.taken.Some? ==> s.taken.value !in Tracked(s) && s.taken.value !in s.waiting && s.unwritten.None?)
    && (forall i, j :: 0 <= i < j < |Tracked(s)| ==> Tracked(s)[i] != Tracked(s)[j])
    && (s.unwritten.Some? ==> s.sent != [] && s.unwritten.value == s.sent[|s.sent| - 1])
  }

  /** The order of the pipeline: past the `d` answered calls come the ready responses, then the unserved
      requests, then at most one request not yet written. */
  ghost predicate InOrder(app: App, trail: seq<Request>, d: nat, served: nat, ready: seq<Response>,
                          unserved: seq<Request>, pending: nat) {
    && served == d + |ready|
    && |trail| == served + |unserved| + pending
    && (forall k :: 0 <= k < |ready| ==> ProcessRequest(app, d + k, trail[d + k]) == Some(ready[k]))
    && (forall k :: 0 <= k < |unserved| ==> unserved[k] == trail[served + k])
  }

  ghost predicate Aligned(app: App, s: State)
    requires Known(s)
  {
    InOrder(app, Trail(s), |s.answered|, s.served, Ready(s), Unserved(s), Pending(s))
  }

  /** The replies given are those of the answered calls, each computed from the caller's own request. */
  ghost predicate Answered(app: App, s: State)
    requires Known(s)
  {
    && (forall k :: 0 <= k < |s.answered| ==>
          var c := s.calls[Tracked(s)[k]]; c.reply.Some? && c.reply == ProcessRequest(app, k, c.request))
    && (forall id :: 0 <= id < |s.calls| && s.calls[id].reply.Some? ==> id in s.answered)
  }

  ghost predicate Inv(app: App, s: State) {
    Known(s) && Apart(s) && Aligned(app, s) && Answered(app, s)
  }

  lemma InvStart(app: App)
    ensures Inv(app, START)
  {
  }

  /** The client's side of the state. */
  predicate SameClient(s: State, s': State) {
    s'.calls == s.calls && s'.waiting == s.waiting && s'.taken == s.taken && s'.answered == s.answered &&
      s'.sent == s.sent
  }

  lemma SameClientKeeps(app: App, s: State, s': State)
    requires Known(s) && Apart(s) && Answered(app, s) && SameClient(s, s') && s'.unwritten in {s.unwritten, None}
    ensures Known(s') && Apart(s') && Answered(app, s') && Trail(s') == Trail(s)
  {
    assert Tracked(s') == Tracked(s);
  }

  /** Steps that move a message along without changing whose turn it is. */
  lemma MoveInv(app: App, s: State, step: Step)
    requires Inv(app, s) && s.failure.None? && (step.ReadRequest? || step.QueueResponse? || step.WriteResponse?)
    ensures Inv(app, Next(app, s, step))
  {
    hide InOrder;
    hide Apart;
    hide Answered;
    hide Known;
    hide Trail;
    var s' := Next(app, s, step);
    SameClientKeeps(app, s, s');
    assert Ready(s') == Ready(s);
    assert Unserved(s') == Unserved(s);
  }

  lemma WriteRequestInv(app: App, s: State)
    requires Inv(app, s) && s.failure.None? && s.unwritten.Some?
    ensures Inv(app, Next(app, s, WriteRequest))
  {
    hide Answered;
    var s', id := Next(app, s, WriteRequest), s.unwritten.value;
    assert id == Tracked(s)[|Tracked(s)| - 1] && id < |s.calls|;
    assert s.calls[id].request == Trail(s)[|Trail(s)| - 1];
    SameClientKeeps(app, s, s');
    assert Unserved(s') == Unserved(s) + [s.calls[id].request];
    assert Ready(s') == Ready(s);
    hide Known;
    hide Apart;
    hide Trail;
  }

  lemma InOrderServe(app: App, trail: seq<Request>, d: nat, served: nat, ready: seq<Response>, unserved: seq<Request>,
                     pending: nat, r: Response)
    requires InOrder(app, trail, d, served, ready, unserved, pending) && unserved != []
    requires ProcessRequest(app, served, unserved[0]) == Some(r)
    ensures InOrder(app, trail, d, served + 1, ready + [r], unserved[1..], pending)
  {
  }

  lemma ProcessInv(app: App, s: State)
    requires Inv(app, s) && s.failure.None? && s.work.Read?
    ensures Inv(app, Next(app, s, Process)) && Next(app, s, Process).failure in {None, Some(ServerClosed)}
  {
    hide InOrder;
    hide Apart;
    hide Answered;
    hide Known;
    hide Trail;
    hide ProcessRequest;
    var s' := Next(app, s, Process);
    SameClientKeeps(app, s, s');
    if s'.failure.None? {
      var r := s'.work.response;
      assert Unserved(s)[0] == s.work.request && Unserved(s') == Unserved(s)[1..];
      assert Ready(s') == Ready(s) + [r];
      InOrderServe(app, Trail(s), |s.answered|, s.served, Ready(s), Unserved(s), Pending(s), r);
    }
  }

  /** Calls that are added or expire leave the exchange alone. */
  lemma CallsInv(app: App, s: State, step: Step)
    requires Inv(app, s) && s.failure.None? && (step.NewCall? || step.Expire?)
    ensures Inv(app, Next(app, s, step))
  {
    hide InOrder;
    hide ProcessRequest;
    var s' := Next(app, s, step);
    assert Tracked(s') == Tracked(s);
    assert Trail(s') == Trail(s);
    assert Answered(app, s') by {
      assert forall id :: 0 <= id < |s.calls| ==>
        s'.calls[id].request == s.calls[id].request && s'.calls[id].reply == s.calls[id].reply;
    }
    hide Trail;
    hide Answered;
  }

  lemma QueueInv(app: App, s: State, step: Step)
    requires Inv(app, s) && s.failure.None? && (step.Withdraw? || step.Dequeue?)
    ensures Inv(app, Next(app, s, step))
  {
    hide InOrder;
    hide ProcessRequest;
    var s' := Next(app, s, step);
    assert Tracked(s') == Tracked(s);
    assert Trail(s') == Trail(s);
    assert Answered(app, s');
    hide Trail;
    hide Answered;
  }

  lemma InOrderTrack(app: App, trail: seq<Request>, d: nat, served: nat, ready: seq<Response>, unserved: seq<Request>,
                     r: Request)
    requires InOrder(app, trail, d, served, ready, unserved, 0)
    ensures InOrder(app, trail + [r], d, served, ready, unserved, 1)
  {
  }

  lemma TrackInv(app: App, s: State)
    requires Inv(app, s) && s.failure.None? && s.taken.Some?
    ensures Inv(app, Next(app, s, Track))
  {
    hide InOrder;
    hide ProcessRequest;
    var s', id := Next(app, s, Track), s.taken.value;
    if s.calls[id].expired {
      assert Tracked(s') == Tracked(s);
      assert Trail(s') == Trail(s);
      assert Answered(app, s');
    } else {
      assert Tracked(s') == Tracked(s) + [id];
      assert Trail(s') == Trail(s) + [s.calls[id].request];
      InOrderTrack(app, Trail(s), |s.answered|, s.served, Ready(s), Unserved(s), s.calls[id].request);
      assert Answered(app, s') by {
        assert forall k :: 0 <= k < |s.answered| ==> Tracked(s')[k] == Tracked(s)[k];
      }
    }
    hide Trail;
    hide Answered;
  }

  lemma InOrderReceive(app: App, trail: seq<Request>, d: nat, served: nat, ready: seq<Response>,
                       unserved: seq<Request>, pending: nat)
    requires InOrder(app, trail, d, served, ready, unserved, pending) && ready != []
    ensures InOrder(app, trail, d + 1, served, ready[1..], unserved, pending)
    ensures d + 1 + pending <= |trail| && ProcessRequest(app, d, trail[d]) == Some(ready[0])
  {
    assert ProcessRequest(app, d + 0, trail[d + 0]) == Some(ready[0]);
  }

  lemma AnsweredReceive(app: App, s: State, s': State, id: nat, res: Response)
    requires Known(s) && Apart(s) && Answered(app, s) && s.sent != [] && s.sent[0] == id && id < |s.calls|
    requires ProcessRequest(app, |s.answered|, s.calls[id].request) == Some(res)
    requires s'.calls == s.calls[id := s.calls[id].(reply := Some(res))] && s'.answered == s.answered + [id] &&
      s'.sent == s.sent[1..]
    requires s'.waiting == s.waiting && s'.taken == s.taken
    ensures Known(s') && Tracked(s') == Tracked(s) && Answered(app, s') && Trail(s') == Trail(s)
  {
    hide ProcessRequest;
    assert Tracked(s') == Tracked(s) && Tracked(s)[|s.answered|] == id;
  }

  /** The oldest response on the wire answers the oldest sent request. */
  lemma ReceiveMatches(app: App, s: State)
    requires Known(s) && Aligned(app, s) && s.responses != []
    ensures s.sent != [] && s.sent[0] < |s.calls| && 1 + Pending(s) <= |s.sent|
    ensures ProcessRequest(app, |s.answered|, s.calls[s.sent[0]].request) == Some(s.responses[0])
    ensures Matches(s.calls[s.sent[0]].request, s.responses[0])
    ensures InOrder(app, Trail(s), |s.answered| + 1, s.served, Ready(s)[1..], Unserved(s), Pending(s))
  {
    var d := |s.answered|;
    assert Ready(s)[0] == s.responses[0];
    InOrderReceive(app, Trail(s), d, s.served, Ready(s), Unserved(s), Pending(s));
    assert Tracked(s)[d] == s.sent[0];
    assert Trail(s)[d] == s.calls[s.sent[0]].request;
  }

  lemma ReceiveInv(app: App, s: State)
    requires Inv(app, s) && s.failure.None? && s.responses != []
    ensures Inv(app, Next(app, s, Receive)) && Next(app, s, Receive).failure == None
  {
    hide InOrder;
    hide Answered;
    hide Trail;
    hide Known;
    hide ProcessRequest;
    hide Matches;
    ReceiveMatches(app, s);
    var s' := Next(app, s, Receive);
    assert s'.failure.None? && s'.sent == s.sent[1..] && s'.waiting == s.waiting && s'.taken == s.taken;
    AnsweredReceive(app, s, s', s.sent[0], s.responses[0]);
    assert Ready(s') == Ready(s)[1..];
    assert Unserved(s') == Unserved(s);
  }

  lemma InvNext(app: App, s: State, step: Step)
    requires Inv(app, s) && s.failure.None?
    ensures Inv(app, Next(app, s, step)) && Next(app, s, step).failure in {None, Some(ServerClosed)}
  {
    hide Inv;
    match step
    case NewCall(_) => CallsInv(app, s, step);
    case Expire(_) => CallsInv(app, s, step);
    case Withdraw(_) => QueueInv(app, s, step);
    case Dequeue(_) => QueueInv(app, s, step);
    case Track => if s.taken.Some? { TrackInv(app, s); }
    case WriteRequest => if s.unwritten.Some? { WriteRequestInv(app, s); }
    case ReadRequest => MoveInv(app, s, step);
    case Process => if s.work.Read? { ProcessInv(app, s); }
    case QueueResponse => MoveInv(app, s, step);
    case WriteResponse => MoveInv(app, s, step);
    case Receive => if s.responses != [] { ReceiveInv(app, s); }
  }

  lemma {:induction false} RunInv(app: App, steps: seq<Step>)
    ensures var s := Run(app, steps); Inv(app, s) && s.failure in {None, Some(ServerClosed)}
  {
    hide Inv;
    if steps == [] {
      InvStart(app);
    } else {
      var n := |steps| - 1;
      RunInv(app, steps[..n]);
      if Run(app, steps[..n]).failure.None? {
        InvNext(app, Run(app, steps[..n]), steps[n]);
      }
    }
  }

  /** In every interleaving the client never meets an unexpected response, however many callers time out. */
  lemma NoUnexpectedResponse(app: App, steps: seq<Step>)
    ensures Run(app, steps).failure !in {Some(NothingExpected), Some(WrongKind)}
  {
    RunInv(app, steps);
  }

  /** Every caller that got a reply got the answer to its own request, computed when that request's turn
      in the order of sending came. */
  lemma OwnReply(app: App, steps: seq<Step>, id: nat) returns (k: nat)
    requires id < |Run(app, steps).calls| && Run(app, steps).calls[id].reply.Some?
    ensures var s := Run(app, steps);
            k < |s.answered| && s.answered[k] == id && s.calls[id].reply == ProcessRequest(app, k, s.calls[id].request)
  {
    RunInv(app, steps);
    var s := Run(app, steps);
    k :| 0 <= k < |s.answered| && s.answered[k] == id;
    assert Tracked(s)[k] == id;
  }

  /** The sent list, position by position: ready responses, then unserved requests, then the request not
      yet written. */
  lemma SentList(app: App, steps: seq<Step>, k: nat)
    requires k < |Run(app, steps).sent|
    ensures var s := Run(app, steps);
            var id, r, u := s.sent[k], |Ready(s)|, |Unserved(s)|;
            && id < |s.calls|
            && |s.sent| == r + u + Pending(s)
            && (k < r ==> ProcessRequest(app, |s.answered| + k, s.calls[id].request) == Some(Ready(s)[k]))
            && (r <= k < r + u ==> Unserved(s)[k - r] == s.calls[id].request)
            && (r + u <= k ==> s.unwritten == Some(id))
  {
    RunInv(app, steps);
    var s := Run(app, steps);
    hide Run;
    hide Ready;
    hide Unserved;
    hide ProcessRequest;
    var at := |s.answered| + k;
    assert Tracked(s)[at] == s.sent[k];
    assert Trail(s)[at] == s.calls[s.sent[k]].request;
    if |Ready(s)| <= k < |Ready(s)| + |Unserved(s)| {
      assert Unserved(s)[k - |Ready(s)|] == Trail(s)[s.served + (k - |Ready(s)|)];
    }
  }
}
