/** The client's list of sent requests as an object (abci/client/socket_client.go). */
module SocketClients {
  import opened Prelude
  import opened SocketPipeline

  /** A request, the response it gets and the signal its waiter listens to. */
  class ReqRes {
    const request: Request
    var response: Option<Response>
    var done: bool

    constructor (request: Request)
      ensures this.request == request && response.None? && !done
    {
      this.request, response, done := request, None, false;
    }
  }

  class SocketClient {
    var reqSent: seq<ReqRes>
    var running: bool

    /** Nobody in the list has been released, so no signal is closed twice. */
    ghost predicate Valid()
      reads this, reqSent
    {
      && (forall r :: r in reqSent ==> !r.done)
      && (forall i, j :: 0 <= i < j < |reqSent| ==> reqSent[i] != reqSent[j])
    }

    constructor ()
      ensures reqSent == [] && running && Valid()
    {
      reqSent, running := [], true;
    }

    /** A request joins the list while the client runs. */
    method TrackRequest(r: ReqRes)
      requires Valid() && !r.done && r !in reqSent
      modifies this`reqSent
      ensures Valid() && reqSent == if running then old(reqSent) + [r] else old(reqSent)
    {
      if !running {
        return;
      }
      reqSent := reqSent + [r];
    }

    /** The response goes to the oldest request if it is of its kind; otherwise nothing changes. */
    method DidRecvResponse(res: Response) returns (err: Option<Failure>)
      requires Valid()
      modifies this`reqSent, reqSent
      ensures Valid()
      ensures err == if old(reqSent) == [] then Some(NothingExpected)
                     else if !Matches(old(reqSent)[0].request, res) then Some(WrongKind) else None
      ensures err.Some? ==> reqSent == old(reqSent) && forall r :: r in reqSent ==> r.response == old(r.response)
      ensures err.None? ==>
                && reqSent == old(reqSent)[1..]
                && old(reqSent)[0].response == Some(res) && old(reqSent)[0].done
                && forall r :: r in reqSent ==> r.response == old(r.response)
    {
      if reqSent == [] {
        return Some(NothingExpected);
      }
      var next := reqSent[0];
      if !Matches(next.request, res) {
        return Some(WrongKind);
      }
      next.response := Some(res);
      next.done := true;
      reqSent := reqSent[1..];
      return None;
    }

    /** `drainQueue`: every waiter left is released. */
    method DrainQueue()
      requires Valid()
      modifies reqSent
      ensures forall r :: r in reqSent ==> r.done && r.response == old(r.response)
    {
      for k := 0 to |reqSent|
        invariant forall i :: 0 <= i < |reqSent| ==>
          reqSent[i].done == (i < k) && reqSent[i].response == old(reqSent[i].response)
      {
        reqSent[k].done := true;
      }
    }
  }
}
