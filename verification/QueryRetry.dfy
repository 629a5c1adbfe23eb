/**
  The retry rule of the query client (apps/web/src/lib/queryClient.ts) over the fetch wrapper:
  how often one query or mutation can reach the network.
 */
module QueryRetry {
  import opened Options
  import opened ApiClient

  predicate IsError(r: Result) { r.NetworkError? || r.BodyError? || r.ApiError? }

  /** The `retry` option of queries. */
  predicate RetryQuery(failureCount: nat, error: Result) {
    if error.ApiError? && error.status in [400, 401, 403, 404] then false else failureCount < 1
  }

  /** The `retry` option of mutations. */
  predicate RetryMutation(failureCount: nat, error: Result) { false }

  /**
    The calls one query made, one after the other and all with its request: each but the last
    failed with an error that the rule, given the number of failures before it, let through.
   */
  ghost predicate Attempts(s: State, retry: (nat, Result) -> bool, req: Request, calls: seq<nat>) {
    && (forall k :: 0 <= k < |calls| ==>
          calls[k] < |s.calls| && s.calls[calls[k]].owner == User && s.calls[calls[k]].req == req)
    && (forall j, k :: 0 <= j < k < |calls| ==> calls[j] < calls[k])
    && (forall k :: 0 <= k < |calls| - 1 ==> Retried(s, retry, calls[k], k))
  }

  ghost predicate Retried(s: State, retry: (nat, Result) -> bool, c: nat, failures: nat)
    requires c < |s.calls|
  {
    var phase := s.calls[c].phase;
    phase.Done? && IsError(phase.result) && retry(failures, phase.result)
  }

  ghost function Sends(s: State, calls: seq<nat>): nat
    requires forall k :: 0 <= k < |calls| ==> calls[k] < |s.calls|
  {
    if calls == [] then 0 else s.calls[calls[0]].sends + Sends(s, calls[1..])
  }

  /**
    After a call that is done, a query makes another attempt if and only if it was its first, it
    failed, and not with one of the four final statuses; a mutation never does.
   */
  lemma AnotherAttemptIff(s: State, c: nat, failures: nat)
    requires c < |s.calls| && s.calls[c].phase.Done?
    ensures Retried(s, RetryQuery, c, failures) <==>
            var r := s.calls[c].phase.result;
            && failures == 0 && !r.Value? && !r.Queued?
            && !(r.ApiError? && (r.status == 400 || r.status == 401 || r.status == 403 || r.status == 404))
    ensures !Retried(s, RetryMutation, c, failures)
  {
  }

  /** A query puts at most four requests of its own on the wire, and only one attempt's worth after a final status. */
  lemma QueryIsBounded(evs: seq<Event>, s: State, req: Request, calls: seq<nat>)
    requires Reaches(INITIAL, evs, s) && Attempts(s, RetryQuery, req, calls)
    ensures |calls| <= 2 && Sends(s, calls) <= 4
    ensures |calls| == 2 ==> var first := s.calls[calls[0]].phase.result;
              IsError(first) && !(first.ApiError? && first.status in [400, 401, 403, 404])
  {
    assert |calls| >= 2 ==> calls[1] < |s.calls| && Retried(s, RetryQuery, calls[0], 0);
    SendsBounded(evs, s, calls);
  }

  /** A mutation puts at most two requests on the wire. */
  lemma MutationIsBounded(evs: seq<Event>, s: State, req: Request, calls: seq<nat>)
    requires Reaches(INITIAL, evs, s) && Attempts(s, RetryMutation, req, calls)
    ensures |calls| <= 1 && Sends(s, calls) <= 2
  {
    assert |calls| > 0 ==> calls[0] < |s.calls|;
    SendsBounded(evs, s, calls);
  }

  lemma {:induction false} SendsBounded(evs: seq<Event>, s: State, calls: seq<nat>)
    requires Reaches(INITIAL, evs, s) && forall k :: 0 <= k < |calls| ==> calls[k] < |s.calls|
    ensures Sends(s, calls) <= 2 * |calls|
    decreases |calls|
  {
    if calls != [] {
      CallsAreBounded(evs, s, calls[0]);
      SendsBounded(evs, s, calls[1..]);
    }
  }

  lemma {:induction false} OneMore(s: State, evs: seq<Event>, t: State, e: Event)
    requires Reaches(s, evs, t) && Enabled(t, e)
    ensures Reaches(s, evs + [e], Apply(t, e))
    decreases |evs|
  {
    if evs == [] {
      assert [e][1..] == [];
    } else {
      assert (evs + [e])[1..] == evs[1..] + [e];
      OneMore(Apply(s, evs[0]), evs[1..], t, e);
    }
  }

  /** A call that is refused, refreshed and sent again, with any status as its second answer. */
  lemma RefreshedCall(evs: seq<Event>, s: State, req: Request, tokens: Body)
    returns (evs': seq<Event>, s': State)
    requires Reaches(INITIAL, evs, s) && s.gate.None? && tokens.tokens.Some?
    ensures Reaches(INITIAL, evs', s') && s'.gate.None?
    ensures |s'.calls| == |s.calls| + 2 && s'.calls[..|s.calls|] == s.calls
    ensures s'.calls[|s.calls|].owner == User && s'.calls[|s.calls|].req == req
    ensures s'.calls[|s.calls|].phase == Sending(true) && s'.calls[|s.calls|].sends == 2
  {
    hide Reaches;
    var c, g := |s.calls|, |s.rounds|;
    var s1 := Apply(s, Start(req));
    OneMore(INITIAL, evs, s, Start(req));
    var s2 := Apply(s1, Reply(c, 401));
    OneMore(INITIAL, evs + [Start(req)], s1, Reply(c, 401));
    var evs2 := evs + [Start(req)] + [Reply(c, 401)];
    assert s2.calls[c].phase == Refreshing(g) && s2.calls[c + 1].phase == Sending(true);
    var s3 := Apply(s2, Reply(c + 1, 200));
    OneMore(INITIAL, evs2, s2, Reply(c + 1, 200));
    var s4 := Apply(s3, Text(c + 1, tokens));
    OneMore(INITIAL, evs2 + [Reply(c + 1, 200)], s3, Text(c + 1, tokens));
    var evs4 := evs2 + [Reply(c + 1, 200)] + [Text(c + 1, tokens)];
    var s5 := Apply(s4, Settle(g));
    OneMore(INITIAL, evs4, s4, Settle(g));
    s' := Apply(s5, Resume(c));
    OneMore(INITIAL, evs4 + [Settle(g)], s5, Resume(c));
    evs' := evs4 + [Settle(g)] + [Resume(c)];
  }

  /** The bound of four is met, whatever the request: both attempts can be refused, refreshed and sent again. */
  lemma FourSendsHappen(req: Request)
    ensures exists evs, s, calls ::
              Reaches(INITIAL, evs, s) && Attempts(s, RetryQuery, req, calls) && Sends(s, calls) == 4
  {
    assert Reaches(INITIAL, [], INITIAL);
    hide Reaches;
    var tokens := Body("", Some(Tokens(Some("access"))));
    var evs, s := RefreshedCall([], INITIAL, req, tokens);
    var s1 := Apply(s, Reply(0, 503));
    OneMore(INITIAL, evs, s, Reply(0, 503));
    var s2 := Apply(s1, Text(0, tokens));
    OneMore(INITIAL, evs + [Reply(0, 503)], s1, Text(0, tokens));
    var evs', t := RefreshedCall(evs + [Reply(0, 503)] + [Text(0, tokens)], s2, req, tokens);
    assert t.calls[0] == t.calls[..2][0] == s2.calls[0];
    assert [0, 2][1..] == [2] && [2][1..] == [];
    assert Sends(t, [2]) == 2;
    assert Retried(t, RetryQuery, 0, 0);
    assert Attempts(t, RetryQuery, req, [0, 2]);
  }
}
