/** What callers of the ABCI socket client get, and that they get it
    (abci/client/socket_client.go, abci/server/socket_server.go). */
module SocketReplies {
  import opened Prelude
  import opened SocketPipeline

  // ---------------------------------------------------------------- what is answered

  /** The kinds of request the application is asked. */
  predicate ForApplication(k: Kind) {
    k != Unknown && k != Echo && k != Flush
  }

  /** The answer to the `k`-th request served: the application's, or the caller's own words for an echo. */
  ghost predicate AnswerTo(app: App, k: nat, request: Request, response: Response) {
    && response.kind == request.kind != Unknown
    && (request.kind == Echo ==> response.body == request.body)
    && (request.kind == Flush ==> response.body == [])
    && (ForApplication(request.kind) ==> app(k, request) == Some(response.body))
  }

  /** A request nobody can answer. */
  predicate Unanswerable(app: App, k: nat, request: Request) {
    request.kind == Unknown || (ForApplication(request.kind) && app(k, request).None?)
  }

  lemma ProcessMeaning(app: App, k: nat, request: Request)
    ensures ProcessRequest(app, k, request).None? <==> Unanswerable(app, k, request)
    ensures forall response ::
              ProcessRequest(app, k, request) == Some(response) <==> AnswerTo(app, k, request, response)
  {
  }

  /** In every run the caller whose request was the `k`-th to be answered has the answer to that request. */
  lemma RepliesAreAnswers(app: App, steps: seq<Step>, k: nat)
    requires k < |Run(app, steps).answered|
    ensures var s := Run(app, steps);
            var id := s.answered[k];
            && id < |s.calls| && s.calls[id].reply.Some?
            && AnswerTo(app, k, s.calls[id].request, s.calls[id].reply.value)
  {
    RunInv(app, steps);
    var s := Run(app, steps);
    hide Run;
    assert Tracked(s)[k] == s.answered[k];
    ProcessMeaning(app, k, s.calls[s.answered[k]].request);
  }

  /** Between any two steps the server closes the connection if and only if it has read a request that nobody can
      answer. */
  lemma ClosesIff(app: App, steps: seq<Step>, step: Step)
    requires Run(app, steps).failure.None?
    ensures var s := Run(app, steps);
            Next(app, s, step).failure.Some? <==>
              step.Process? && s.work.Read? && Unanswerable(app, s.served, s.work.request)
  {
    RunInv(app, steps);
    var s := Run(app, steps);
    hide Run;
    if step.Receive? && s.responses != [] {
      ReceiveInv(app, s);
    }
    if step.Process? && s.work.Read? {
      ProcessMeaning(app, s.served, s.work.request);
    }
  }

  /** Once it is closed, the next request to be served is one that nobody can answer. */
  lemma {:induction false} ClosedBy(app: App, steps: seq<Step>)
    ensures var s := Run(app, steps);
            s.failure.Some? ==> s.work.Read? && Unanswerable(app, s.served, s.work.request)
  {
    if steps == [] {
    } else {
      var n := |steps| - 1;
      ClosedBy(app, steps[..n]);
      var s := Run(app, steps[..n]);
      if s.failure.None? {
        ClosesIff(app, steps[..n], steps[n]);
      }
    }
  }

  // ---------------------------------------------------------------- nobody is forgotten

  /** A call is somewhere in the exchange, or its context is done. */
  ghost predicate Somewhere(s: State, id: nat)
    requires id < |s.calls|
  {
    id in s.waiting || s.taken == Some(id) || id in Tracked(s) || s.calls[id].expired
  }

  ghost predicate NoneLost(s: State) {
    forall id :: 0 <= id < |s.calls| ==> Somewhere(s, id)
  }

  lemma NextLosesNone(app: App, s: State, step: Step)
    requires NoneLost(s) && Known(s)
    ensures NoneLost(Next(app, s, step))
  {
    hide ProcessRequest;
    var s' := Next(app, s, step);
    assert forall id :: id in Tracked(s) ==> id in Tracked(s') by {
      TrackedStays(app, s, step);
    }
    forall id | 0 <= id < |s'.calls|
      ensures Somewhere(s', id)
    {
      if id < |s.calls| {
        assert Somewhere(s, id);
        if step.Track? && s.failure.None? && s.taken == Some(id) && !s.calls[id].expired {
          assert s'.sent[|s.sent|] == id;
        }
      }
    }
  }

  lemma TrackedStays(app: App, s: State, step: Step)
    ensures Tracked(s) <= Tracked(Next(app, s, step))
  {
    hide ProcessRequest;
    var s' := Next(app, s, step);
    if step.Receive? && s.failure.None? && s.responses != [] && s'.failure.None? {
      assert s'.answered + s'.sent == s.answered + s.sent;
    } else if step.Track? {
      assert s.answered + (s.sent + [0]) == s.answered + s.sent + [0];
    }
  }

  lemma {:induction false} RunLosesNone(app: App, steps: seq<Step>)
    ensures NoneLost(Run(app, steps))
  {
    hide NoneLost;
    if steps == [] {
      assert NoneLost(START) by { StartLosesNone(); }
    } else {
      var n := |steps| - 1;
      RunLosesNone(app, steps[..n]);
      RunInv(app, steps[..n]);
      NextLosesNone(app, Run(app, steps[..n]), steps[n]);
    }
  }

  lemma StartLosesNone()
    ensures NoneLost(START)
  {
  }

  // ---------------------------------------------------------------- nobody waits for ever

  /** How far everything in the exchange is from its caller. */
  function Left(s: State): nat {
    8 * |s.waiting| + (if s.taken.Some? then 7 else 0) + (if s.unwritten.Some? then 6 else 0) + 5 * |s.requests|
    + (match s.work case Idle => 0 case Read(_) => 4 case Processed(_) => 3)
    + 2 * |s.queue| + |s.responses|
  }

  /** A step of the client's or the server's goroutines: not a new call, and not a context that ends. */
  predicate Internal(step: Step) {
    !step.NewCall? && !step.Expire?
  }

  lemma ReceiveMoves(app: App, s: State)
    requires Inv(app, s) && s.failure.None? && s.responses != []
    ensures var s' := Next(app, s, Receive);
            && s'.responses == s.responses[1..] && s'.waiting == s.waiting && s'.taken == s.taken
            && s'.unwritten == s.unwritten && s'.requests == s.requests && s'.work == s.work && s'.queue == s.queue
  {
    ReceiveInv(app, s);
    hide Inv;
  }

  ghost predicate Nearer(s: State, s': State) {
    s' == s || s'.failure.Some? || Left(s') < Left(s)
  }

  lemma ServerNearer(app: App, s: State, step: Step)
    requires s.failure.None?
    requires step in {ReadRequest, Process, QueueResponse, WriteResponse}
    ensures Nearer(s, Next(app, s, step))
  {
    hide ProcessRequest;
    hide DidRecv;
  }

  lemma ClientNearer(app: App, s: State, step: Step)
    requires s.failure.None? && (step.Withdraw? || step.Dequeue? || step.Track? || step.WriteRequest?)
    ensures Nearer(s, Next(app, s, step))
  {
    hide ProcessRequest;
    hide DidRecv;
    if step.Withdraw? || step.Dequeue? {
      OneLess(s.waiting, step.id);
    }
  }

  /** Every such step brings something nearer, closes the connection or is not possible. */
  lemma StepsNearer(app: App, s: State, step: Step)
    requires Inv(app, s) && s.failure.None? && Internal(step)
    ensures Nearer(s, Next(app, s, step))
  {
    hide Inv;
    hide DidRecv;
    match step
    case Receive =>
      if s.responses != [] {
        ReceiveMoves(app, s);
      }
    case Withdraw(_) => ClientNearer(app, s, step);
    case Dequeue(_) => ClientNearer(app, s, step);
    case Track => ClientNearer(app, s, step);
    case WriteRequest => ClientNearer(app, s, step);
    case _ => ServerNearer(app, s, step);
  }

  lemma OneLess(x: set<nat>, id: nat)
    ensures id in x ==> |x - {id}| == |x| - 1
  {
  }

  lemma UnwrittenKnown(app: App, s: State)
    requires Inv(app, s) && s.unwritten.Some?
    ensures s.unwritten.value < |s.calls|
  {
    hide Aligned;
    hide Answered;
    assert s.unwritten.value == Tracked(s)[|Tracked(s)| - 1];
  }

  lemma NothingLeft(s: State)
    requires s.responses == [] && s.queue == [] && s.work.Idle? && s.requests == [] && s.unwritten.None?
    requires s.taken.None? && Left(s) > 0
    ensures s.waiting != {}
  {
  }

  /** And as long as anything is on its way, one of them is possible. */
  lemma NoDeadlock(app: App, s: State) returns (step: Step)
    requires Inv(app, s) && s.failure.None? && Left(s) > 0
    ensures Internal(step) && Next(app, s, step) != s
  {
    hide ProcessRequest;
    hide Inv;
    hide Left;
    hide DidRecv;
    if s.responses != [] {
      step := Receive;
      ReceiveMoves(app, s);
    } else if s.queue != [] {
      step := WriteResponse;
    } else if s.work.Processed? {
      step := QueueResponse;
    } else if s.work.Read? {
      step := Process;
    } else if s.requests != [] {
      step := ReadRequest;
    } else if s.unwritten.Some? {
      step := WriteRequest;
      UnwrittenKnown(app, s);
    } else if s.taken.Some? {
      step := Track;
    } else {
      NothingLeft(s);
      var id :| id in s.waiting;
      step := Dequeue(id);
    }
  }

  lemma {:induction false} Drain(app: App, steps: seq<Step>) returns (more: seq<Step>)
    ensures forall i :: 0 <= i < |more| ==> Internal(more[i])
    ensures var s := Run(app, steps + more); s.failure.Some? || Left(s) == 0
    decreases Left(Run(app, steps))
  {
    hide Left;
    hide Next;
    RunInv(app, steps);
    var s := Run(app, steps);
    if s.failure.Some? || Left(s) == 0 {
      more := [];
      assert steps + more == steps;
    } else {
      var step := NoDeadlock(app, s);
      StepsNearer(app, s, step);
      assert (steps + [step])[..|steps|] == steps;
      if Next(app, s, step).failure.Some? {
        more := [step];
      } else {
        var rest := Drain(app, steps + [step]);
        more := [step] + rest;
        assert steps + [step] + rest == steps + more;
      }
    }
  }

  /** The application answers whatever it is asked, and callers ask for kinds the server knows. */
  ghost predicate Obliging(app: App, s: State) {
    && (forall k: nat, r: Request :: app(k, r).Some?)
    && (forall id :: 0 <= id < |s.calls| ==> s.calls[id].request.kind != Unknown)
  }

  /** The same callers, with their own requests, and no more of them given up. */
  ghost predicate SameCallers(s: State, s': State) {
    |s'.calls| == |s.calls| && forall id :: 0 <= id < |s.calls| ==>
      s'.calls[id].request == s.calls[id].request && s'.calls[id].expired == s.calls[id].expired
  }

  lemma {:induction false} SameCalls(app: App, steps: seq<Step>, more: seq<Step>)
    requires forall i :: 0 <= i < |more| ==> Internal(more[i])
    ensures SameCallers(Run(app, steps), Run(app, steps + more))
  {
    hide Next;
    if more == [] {
      assert steps + more == steps;
    } else {
      var n := |more| - 1;
      SameCalls(app, steps, more[..n]);
      assert (steps + more)[..|steps + more| - 1] == steps + more[..n];
      NextSameCalls(app, Run(app, steps + more[..n]), more[n]);
    }
  }

  lemma NextSameCalls(app: App, s: State, step: Step)
    requires Internal(step)
    ensures SameCallers(s, Next(app, s, step))
  {
    hide ProcessRequest;
  }

  lemma ClosedNotObliging(app: App, steps: seq<Step>)
    requires Run(app, steps).failure.Some?
    ensures !Obliging(app, Run(app, steps))
  {
    ClosedBy(app, steps);
    RunInv(app, steps);
    var s := Run(app, steps);
    assert Unserved(s)[0] == s.work.request == Trail(s)[s.served];
  }

  /** From the middle of any exchange with an obliging application, the goroutines can go on, whatever they did so
      far, until every caller whose context is not done has the answer to its own request. */
  lemma EveryoneAnswered(app: App, steps: seq<Step>) returns (more: seq<Step>)
    requires Obliging(app, Run(app, steps))
    ensures forall i :: 0 <= i < |more| ==> Internal(more[i])
    ensures var s, s' := Run(app, steps), Run(app, steps + more);
            && s'.failure.None? && |s'.calls| == |s.calls|
            && forall id :: 0 <= id < |s.calls| && !s.calls[id].expired ==>
                 id in s'.answered && s'.calls[id].request == s.calls[id].request && s'.calls[id].reply.Some?
  {
    more := Drain(app, steps);
    SameCalls(app, steps, more);
    var s, s' := Run(app, steps), Run(app, steps + more);
    if s'.failure.Some? {
      ClosedNotObliging(app, steps + more);
      assert false;
    }
    RunLosesNone(app, steps + more);
    RunInv(app, steps + more);
    hide Run;
    assert |Trail(s')| == |s'.answered| && |Tracked(s')| == |s'.answered|;
    assert Tracked(s') == s'.answered;
    forall id | 0 <= id < |s.calls| && !s.calls[id].expired
      ensures id in s'.answered && s'.calls[id].reply.Some?
    {
      assert Somewhere(s', id);
    }
  }
}
