/** The HTTP side of a request: the select of callHandler and the rendering of a result, from
    internal/httpapi/server.go. */
module Httpapi {
  import opened Results
  import opened Identity
  import opened Broker
  import opened BrokerLaws
  import P = Protocol

  datatype SecretResponse = SecretResponse(name: string, value: string, events: seq<string>, images: seq<string>)

  /** A status code and, with 200 only, a body. */
  datatype Response = Response(code: int, secrets: Option<seq<SecretResponse>>)

  const TIMED_OUT: HandleResult :=
    HandleResult(502, [], OutcomeError, false, Audit([], [], [], "", 0))

  /** What the select may answer: a finished handler's result, or the synthesized one once the deadline
      has passed. */
  ghost predicate MayAnswer(finished: Option<HandleResult>, expired: bool, result: HandleResult) {
    || finished == Some(result)
    || (expired && result == HandleResult(502, [], OutcomeError, false, Audit([], [], [], "", 0)))
  }

  /** The select: a finished handler's result, or the synthesized one once the deadline has passed.
      When both are ready, `preferDeadline` is the choice the runtime makes. */
  method CallHandler(finished: Option<HandleResult>, expired: bool, preferDeadline: bool) returns (result: HandleResult)
    requires finished.Some? || expired
    ensures MayAnswer(finished, expired, result)
    ensures finished.Some? && expired ==> result == if preferDeadline then TIMED_OUT else finished.value
  {
    if finished.Some? && !(expired && preferDeadline) { return finished.value; }
    return TIMED_OUT;
  }

  predicate Shows(r: SecretResponse, s: Secret) {
    r.name == s.name && r.value == s.value && r.events == s.events && r.images == s.images
  }

  /** 200 with every secret in order, 204 and 502 empty; nothing else is ever written. */
  ghost predicate Renders(result: HandleResult, response: Response) {
    && response.code == (if result.status == 200 || result.status == 204 then result.status else 502)
    && (response.secrets.Some? <==> result.status == 200)
    && (response.secrets.Some? ==>
          && |response.secrets.value| == |result.secrets|
          && forall i | 0 <= i < |result.secrets| :: Shows(response.secrets.value[i], result.secrets[i]))
  }

  method RenderResult(result: HandleResult) returns (response: Response)
    ensures Renders(result, response)
  {
    match result.status {
      case 200 =>
        var secrets: seq<SecretResponse> := [];
        for i := 0 to |result.secrets|
          invariant |secrets| == i
          invariant forall j | 0 <= j < i :: Shows(secrets[j], result.secrets[j])
        {
          var sec := result.secrets[i];
          secrets := secrets + [SecretResponse(sec.name, sec.value, sec.events, sec.images)];
        }
        return Response(200, Some(secrets));
      case 204 => return Response(204, None);
      case _ => return Response(502, None);
    }
  }

  /** The code on the wire for an answer of the protocol. */
  function CodeOf(http: P.Http): int { if http.Delivered? then http.status else 502 }

  /** The handler's result, as far as the protocol knows it. */
  ghost predicate ResultOf(h: P.Handler, finished: Option<HandleResult>) {
    if finished.Some? then h.Finished? && h.status == finished.value.status else !h.Finished?
  }

  /** Whatever the select may answer, after a run that left the request unanswered, is a step with
      which that run goes on: Deliver, or Timeout if the deadline has passed; and the client reads the
      code of the answer recorded there. Deliver is possible exactly when the handler has finished. */
  lemma SelectFollowsProtocol(states: seq<P.State>, acts: seq<P.Action>, r: nat, finished: Option<HandleResult>,
                              expired: bool, result: HandleResult, response: Response)
    returns (states': seq<P.State>, acts': seq<P.Action>)
    requires P.IsRun(states, acts) && r in states[|acts|].requests && states[|acts|].requests[r].http == P.Pending
    requires ResultOf(states[|acts|].requests[r].handler, finished)
    requires MayAnswer(finished, expired, result) && Renders(result, response)
    ensures acts' == acts + [P.Deliver(r)] || (expired && acts' == acts + [P.Timeout(r)])
    ensures P.IsRun(states', acts') && r in states'[|acts'|].requests
    ensures var http := states'[|acts'|].requests[r].http;
            && http == (if finished == Some(result) then P.Delivered(result.status) else P.TimedOut)
            && response.code == CodeOf(http)
    ensures finished.Some? <==> P.Step(states[|acts|], P.Deliver(r)).Some?
  {
    P.AlwaysInv(states, acts, |acts|);
    assert P.RequestInv(states[|acts|], r);
    hide P.IsRun, P.LedgerInv, P.SessionInv;
    states', acts' := P.Extend(states, acts, if finished == Some(result) then P.Deliver(r) else P.Timeout(r));
  }

  /** What a client can tell from its response, in every run and at every later point. At state i the
      request has been answered, by the one step k of the run that answers it; the response shows that
      answer. A body means that the handler's token is not revoked then or ever; no body and a finished
      handler mean that its token, if it minted one, was revoked exactly once, unless the deadline
      fired for a handler that concluded with 200. */
  lemma WhatTheClientKnows(states: seq<P.State>, acts: seq<P.Action>, k: nat, i: nat, r: nat, finished: Option<HandleResult>,
                           result: HandleResult, response: Response)
    requires P.IsRun(states, acts) && k < i < |states|
    requires P.IsAnswer(acts[k], r)
    requires r in states[k].requests && ResultOf(states[k].requests[r].handler, finished)
    requires if acts[k].Deliver? then finished == Some(result) else result == TIMED_OUT
    requires Renders(result, response)
    ensures r in states[i].requests && response.code == CodeOf(states[i].requests[r].http)
    ensures forall j | 0 <= j < |acts| && P.IsAnswer(acts[j], r) :: j == k
    ensures var token := P.TokenOf(states[i].requests[r].handler);
            && (response.secrets.Some? ==>
                  token.Some? && forall j | i <= j < |states| :: states[j].revokes[token.value] == 0)
            && (response.secrets.None? && states[i].requests[r].handler.Finished? && token.Some? ==>
                  states[i].revokes[token.value]
                  == if P.Taken(acts, i, P.Timeout(r)) && P.Taken(acts, i, P.Conclude(r, 200)) then 0 else 1)
  {
    assert |states| == |acts| + 1;
    hide P.Step, P.IsRun, P.LedgerInv, P.SessionInv;
    P.AnsweredOnce(states, acts, i, r);
    TokenFate(states, acts, i, r);
    if states[i].requests[r].http == P.Delivered(200) {
      forall j | i <= j < |states|
        ensures P.TokenOf(states[i].requests[r].handler).Some?
                && states[j].revokes[P.TokenOf(states[i].requests[r].handler).value] == 0
      {
        P.DeliveredTokenLives(states, acts, i, j, r);
      }
    }
  }

  /** The code of an answered request is one of the three, and its settled token's fate. */
  lemma TokenFate(states: seq<P.State>, acts: seq<P.Action>, i: nat, r: nat)
    requires P.IsRun(states, acts) && i < |states|
    requires r in states[i].requests && states[i].requests[r].http != P.Pending
    ensures var q := states[i].requests[r];
            && (q.http.Delivered? ==> q.http.status in {200, 204, 502})
            && (q.handler.Finished? && P.TokenOf(q.handler).Some? && q.http != P.Delivered(200) ==>
                  states[i].revokes[P.TokenOf(q.handler).value]
                  == if P.Taken(acts, i, P.Timeout(r)) && P.Taken(acts, i, P.Conclude(r, 200)) then 0 else 1)
  {
    P.AlwaysInv(states, acts, i);
    assert P.RequestInv(states[i], r);
    var q := states[i].requests[r];
    if q.handler.Finished? && q.handler.owned.Some? {
      P.AbandonedExactly(states, acts, i, r);
      P.TokenLedger(states, acts, i, q.handler.owned.value);
    }
  }

  /** What the client sees when the handler wins the race: the handler's own status, and a body on
      exactly the deliveries, with at least one secret, each with an event. */
  lemma RenderedHandle(env: Env, n: nat, gate: bool, id: Identity, response: Response)
    requires Renders(HandleRun(env, n, gate, id).result, response)
    ensures response.code == HandleRun(env, n, gate, id).result.status
    ensures response.secrets.Some? <==> Deliverable(env, n, gate, id)
    ensures response.secrets.Some? ==>
              && response.secrets.value != []
              && forall i | 0 <= i < |response.secrets.value| :: response.secrets.value[i].events != []
  {
    hide HandleRun, Deliverable;
    StatusesAgree(env, n, gate, id);
    DeliversExactly(env, n, gate, id);
    var result := HandleRun(env, n, gate, id).result;
    if result.status == 200 {
      ResponseConservation(env, n, gate, id);
      assert forall i | 0 <= i < |result.secrets| :: result.secrets[i] in result.secrets;
    }
  }
}
