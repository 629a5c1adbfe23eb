/**
  What the calls of the fetch wrapper (apps/web/src/lib/api.ts) come to, told from the events of
  the run alone: replies, network failures, the queue and the session.

  Main results, for every run: `OutcomeIsExplained` (the last reply decides the result),
  `OfflineMutationIsKept` (which requests are queued, with verbs and paths written out) and
  `TokenIsLastWritten` (what the session holds).
 */
module ApiOutcomes {
  import opened Options
  import opened ApiClient

  /** The status of the last reply to a call, if there was one. */
  function LastReply(evs: seq<Event>, c: nat): Option<nat> {
    if evs == [] then None
    else
      var e := evs[|evs| - 1];
      if e.Reply? && e.c == c then Some(e.status) else LastReply(evs[..|evs| - 1], c)
  }

  lemma LastReplyStep(evs: seq<Event>, e: Event, c: nat)
    ensures LastReply(evs + [e], c) == if e.Reply? && e.c == c then Some(e.status) else LastReply(evs, c)
  {
    assert (evs + [e])[..|evs|] == evs;
  }

  // ---------- results ----------

  /** What a result says of the events that led to it. */
  ghost predicate ResultTold(evs: seq<Event>, c: nat, r: Result) {
    match r
    case Value(None) => LastReply(evs, c) == Some(204)
    case Value(Some(body)) =>
      && LastReply(evs, c).Some? && 200 <= LastReply(evs, c).value < 300 && LastReply(evs, c) != Some(204)
      && Text(c, body) in evs
    case ApiError(status) => LastReply(evs, c) == Some(status) && !(200 <= status < 300)
    case BodyError => LastReply(evs, c).Some? && LastReply(evs, c) != Some(204) && NoText(c) in evs
    case NetworkError => Down(c) in evs
    case Queued(_) => Down(c) in evs && Stored(c) in evs
  }

  ghost predicate PhaseTold(evs: seq<Event>, c: nat, call: Call) {
    match call.phase
    case Sending(skip) => LastReply(evs, c) == if skip && call.owner == User then Some(401) else None
    case Refreshing(_) => LastReply(evs, c) == Some(401)
    case Reading(status) => LastReply(evs, c) == Some(status) && status != 204
    case Enqueueing => Down(c) in evs
    case Done(r) => ResultTold(evs, c, r)
  }

  /** The state of call `c`, if there is one, against the events so far. */
  ghost predicate Told(s: State, evs: seq<Event>, c: nat) {
    if c >= |s.calls| then LastReply(evs, c) == None && Reply(c, 401) !in evs
    else
      && PhaseTold(evs, c, s.calls[c])
      && (s.calls[c].owner == User ==> (s.calls[c].joined.Some? <==> Reply(c, 401) in evs))
      && (s.calls[c].owner.Round? && s.calls[c].phase.Sending? ==> s.calls[c].phase.skipRefresh)
      && (s.calls[c].phase == Sending(true) && s.calls[c].owner == User ==> s.calls[c].joined.Some?)
      && (s.calls[c].phase.Refreshing? ==> s.calls[c].owner == User && s.calls[c].joined.Some?)
  }

  lemma ToldStep(s: State, before: seq<Event>, e: Event, c: nat)
    requires Told(s, before, c) && Enabled(s, e)
    ensures Told(Apply(s, e), before + [e], c)
  {
    var now := before + [e];
    LastReplyStep(before, e, c);
    hide LastReply;
    assert forall x :: x in now <==> x in before || x == e;
  }

  lemma {:induction false} ToldRun(s: State, before: seq<Event>, evs: seq<Event>, t: State, c: nat)
    requires Told(s, before, c) && Reaches(s, evs, t)
    ensures Told(t, before + evs, c)
    decreases |evs|
  {
    if evs == [] {
      assert before + evs == before;
    } else {
      ToldStep(s, before, evs[0], c);
      ToldRun(Apply(s, evs[0]), before + [evs[0]], evs[1..], t, c);
      assert before + evs == before + [evs[0]] + evs[1..];
    }
  }

  /**
    In every run the result of a call is what its last reply calls for: a 2xx gives its text, 204
    nothing to read, any other status an ApiError with that status; and it joined a refresh if and
    only if it was answered with a 401.
   */
  lemma OutcomeIsExplained(evs: seq<Event>, s: State, c: nat)
    requires Reaches(INITIAL, evs, s) && c < |s.calls|
    ensures s.calls[c].phase.Done? ==> ResultTold(evs, c, s.calls[c].phase.result)
    ensures s.calls[c].owner == User ==> (s.calls[c].joined.Some? <==> Reply(c, 401) in evs)
  {
    ToldRun(INITIAL, [], evs, s, c);
    assert [] + evs == evs;
  }

  // ---------- offline ----------

  /** A call that ends offline, against the events so far; verbs and paths are written out. */
  ghost predicate Kept(s: State, evs: seq<Event>, c: nat) {
    c < |s.calls| ==>
      var call := s.calls[c];
      var verb := call.req.verb;
      var mutation := verb == POST || verb == PATCH || verb == PUT || verb == DELETE;
      var excluded := "/auth/" <= call.req.path || "/webhooks/" <= call.req.path || "/uploads/" <= call.req.path;
      && (call.phase.Enqueueing? ==> mutation && !excluded)
      && (call.phase.Done? && call.phase.result.Queued? ==> mutation && !excluded)
      && (call.phase == Done(NetworkError) && mutation && !excluded ==> NotStored(c) in evs)
  }

  lemma KeptStep(s: State, before: seq<Event>, e: Event, c: nat)
    requires Kept(s, before, c) && Enabled(s, e)
    ensures Kept(Apply(s, e), before + [e], c)
  {
    assert e in before + [e];
    assert forall x :: x in before ==> x in before + [e];
  }

  lemma {:induction false} KeptRun(s: State, before: seq<Event>, evs: seq<Event>, t: State, c: nat)
    requires Kept(s, before, c) && Reaches(s, evs, t)
    ensures Kept(t, before + evs, c)
    decreases |evs|
  {
    if evs == [] {
      assert before + evs == before;
    } else {
      KeptStep(s, before, evs[0], c);
      KeptRun(Apply(s, evs[0]), before + [evs[0]], evs[1..], t, c);
      assert before + evs == before + [evs[0]] + evs[1..];
    }
  }

  /**
    In every run a POST, PATCH, PUT or DELETE to a path outside /auth/, /webhooks/ and /uploads/
    ends in a network error only if storing it failed too; and only such a request ends queued.
   */
  lemma OfflineMutationIsKept(evs: seq<Event>, s: State, c: nat)
    requires Reaches(INITIAL, evs, s) && c < |s.calls|
    ensures var req := s.calls[c].req;
            && s.calls[c].phase == Done(NetworkError)
            && (req.verb == POST || req.verb == PATCH || req.verb == PUT || req.verb == DELETE)
            && !("/auth/" <= req.path) && !("/webhooks/" <= req.path) && !("/uploads/" <= req.path)
            ==> NotStored(c) in evs
    ensures var req := s.calls[c].req;
            s.calls[c].phase.Done? && s.calls[c].phase.result.Queued? ==>
              && (req.verb == POST || req.verb == PATCH || req.verb == PUT || req.verb == DELETE)
              && !("/auth/" <= req.path) && !("/webhooks/" <= req.path) && !("/uploads/" <= req.path)
  {
    KeptRun(INITIAL, [], evs, s, c);
    assert [] + evs == evs;
  }

  // ---------- the session ----------

  /** The last event that wrote the access token. */
  function LastWrite(evs: seq<Event>): Option<Event> {
    if evs == [] then None
    else
      var e := evs[|evs| - 1];
      if e.Session? || e.Settle? then Some(e) else LastWrite(evs[..|evs| - 1])
  }

  lemma LastWriteStep(evs: seq<Event>, e: Event)
    ensures LastWrite(evs + [e]) == if e.Session? || e.Settle? then Some(e) else LastWrite(evs)
  {
    assert (evs + [e])[..|evs|] == evs;
  }

  /** The access token in the text a refresh brought; none in anything else it may have come to. */
  function BroughtBy(r: Result): Option<string> {
    match r
    case Value(Some(Body(_, Some(Tokens(access))))) => access
    case _ => None
  }

  ghost predicate TokenTold(s: State, evs: seq<Event>) {
    match LastWrite(evs)
    case None => s.token == None
    case Some(Session(token)) => s.token == token
    case Some(Settle(g)) =>
      && g < |s.rounds| && s.rounds[g].call < |s.calls| && s.calls[s.rounds[g].call].phase.Done?
      && s.token == BroughtBy(s.calls[s.rounds[g].call].phase.result)
    case Some(_) => false
  }

  lemma TokenStep(s: State, before: seq<Event>, e: Event)
    requires TokenTold(s, before) && Enabled(s, e)
    ensures TokenTold(Apply(s, e), before + [e])
  {
    LastWriteStep(before, e);
    hide LastWrite;
  }

  lemma {:induction false} TokenRun(s: State, before: seq<Event>, evs: seq<Event>, t: State)
    requires TokenTold(s, before) && Reaches(s, evs, t)
    ensures TokenTold(t, before + evs)
    decreases |evs|
  {
    if evs == [] {
      assert before + evs == before;
    } else {
      TokenStep(s, before, evs[0]);
      TokenRun(Apply(s, evs[0]), before + [evs[0]], evs[1..], t);
      assert before + evs == before + [evs[0]] + evs[1..];
    }
  }

  /**
    In every run the session holds what was last written to it: by a login or logout, or by the
    last refresh to settle, which stores the token its request brought and clears the session if
    the request came to anything else.
   */
  lemma TokenIsLastWritten(evs: seq<Event>, s: State)
    requires Reaches(INITIAL, evs, s)
    ensures LastWrite(evs) == None ==> s.token == None
    ensures forall token :: LastWrite(evs) == Some(Session(token)) ==> s.token == token
    ensures forall g: nat :: LastWrite(evs) == Some(Settle(g)) ==>
              && g < |s.rounds| && s.rounds[g].call < |s.calls| && s.calls[s.rounds[g].call].phase.Done?
              && s.token == BroughtBy(s.calls[s.rounds[g].call].phase.result)
  {
    TokenRun(INITIAL, [], evs, s);
    assert [] + evs == evs;
  }
}
