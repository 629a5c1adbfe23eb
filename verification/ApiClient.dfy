/**
  The fetch wrapper of the web client (apps/web/src/lib/api.ts) as a step machine.

  One step is what JavaScript runs between two awaits, so a run is any interleaving of any
  number of concurrent calls with any behaviour of network, server and IndexedDB. A call made
  through `api` and the request a refresh round sends are both `rawFetch` calls.

  Main results, for every reachable state: `SingleFlight`, `QueueMatchesResults`,
  `CallsAreBounded`, and for every run `RunsAreFinite` and `NeverStuck`.
 */
module ApiClient {
  import opened Options

  // ---------- requests ----------

  datatype Verb = GET | POST | PATCH | PUT | DELETE

  datatype Request = Request(path: string, verb: Verb, search: string, body: Option<string>)

  const API_BASE := "/api/v1"
  const REFRESH := Request("/auth/refresh", POST, "", None)

  predicate StartsWith(s: string, prefix: string) {
    prefix <= s
  }

  predicate IsQueueableMutation(path: string, verb: Verb) {
    && verb != GET
    && !StartsWith(path, "/auth/")
    && !StartsWith(path, "/webhooks/")
    && !StartsWith(path, "/uploads/")
  }

  /** A row of the offline queue, as `rawFetch` drafts it. */
  datatype Entry = Entry(verb: Verb, url: string, body: Option<string>)

  function Draft(r: Request): Entry {
    Entry(r.verb, API_BASE + r.path + r.search, r.body)
  }

  // ---------- calls and refresh rounds ----------

  /** The `tokens` of a response; its `accessToken` may be missing. */
  datatype Tokens = Tokens(access: Option<string>)

  /** A response text, and what a caller finds under `tokens` in it, if that is anything at all. */
  datatype Body = Body(text: string, tokens: Option<Tokens>)

  datatype Result =
    | Queued(id: nat)             // { queued: true, queuedId }
    | Value(body: Option<Body>)   // None for 204
    | NetworkError
    | BodyError                   // the response text could not be read
    | ApiError(status: nat)

  datatype Phase =
    | Sending(skipRefresh: bool)  // awaiting fetch
    | Refreshing(round: nat)      // awaiting the promise of a refresh round
    | Enqueueing                  // awaiting offlineQueue.enqueue
    | Reading(status: nat)        // awaiting res.text()
    | Done(result: Result)

  datatype Owner = User | Round(round: nat)

  /** `saw` records the boolean a call got from the refresh round it joined. */
  datatype Call = Call(owner: Owner, req: Request, phase: Phase, sends: nat, joined: Option<nat>, saw: Option<bool>)

  /** A refresh round: the call that started it, its own request, and its promise's value once settled. */
  datatype RefreshRound = RefreshRound(starter: nat, call: nat, settled: Option<bool>)

  /** A successful `enqueue`: the key IndexedDB assigned, what was stored, and for which call. */
  datatype Created = Created(id: nat, entry: Entry, call: nat)

  datatype State = State(
    calls: seq<Call>,
    rounds: seq<RefreshRound>,
    gate: Option<nat>,            // refreshPromise, as the number of its round
    log: seq<Created>,
    nextKey: nat,
    token: Option<string>)        // the auth store's access token

  const INITIAL := State([], [], None, [], 1, None)

  datatype Event =
    | Start(req: Request)
    | Reply(c: nat, status: nat)
    | Down(c: nat)
    | Stored(c: nat)
    | NotStored(c: nat)
    | Text(c: nat, body: Body)
    | NoText(c: nat)
    | Settle(g: nat)
    | Resume(c: nat)
    | OtherTab                    // another tab takes a queue key
    | Session(token: Option<string>)  // login or logout outside this module

  /** Steps of the wrapper itself, as opposed to new calls and the outside world. */
  predicate Internal(e: Event) {
    !e.Start? && !e.OtherTab? && !e.Session?
  }

  predicate Enabled(s: State, e: Event) {
    match e
    case Start(_) => true
    case OtherTab => true
    case Session(_) => true
    case Reply(c, _) => c < |s.calls| && s.calls[c].phase.Sending?
    case Down(c) => c < |s.calls| && s.calls[c].phase.Sending?
    case Stored(c) => c < |s.calls| && s.calls[c].phase.Enqueueing?
    case NotStored(c) => c < |s.calls| && s.calls[c].phase.Enqueueing?
    case Text(c, _) => c < |s.calls| && s.calls[c].phase.Reading?
    case NoText(c) => c < |s.calls| && s.calls[c].phase.Reading?
    case Settle(g) => g < |s.rounds| && s.rounds[g].settled.None? &&
                      s.rounds[g].call < |s.calls| && s.calls[s.rounds[g].call].phase.Done?
    case Resume(c) => c < |s.calls| && s.calls[c].phase.Refreshing? &&
                      s.calls[c].phase.round < |s.rounds| && s.rounds[s.calls[c].phase.round].settled.Some?
  }

  function SetPhase(s: State, c: nat, p: Phase): State
    requires c < |s.calls|
  {
    s.(calls := s.calls[c := s.calls[c].(phase := p)])
  }

  /** `tryRefresh` for call `c`: join the round behind the gate, or open a new one. */
  function JoinRefresh(s: State, c: nat): State
    requires c < |s.calls|
  {
    match s.gate
    case Some(g) =>
      s.(calls := s.calls[c := s.calls[c].(phase := Refreshing(g), joined := Some(g))])
    case None =>
      var g := |s.rounds|;
      var joined := s.calls[c := s.calls[c].(phase := Refreshing(g), joined := Some(g))];
      s.(calls := joined + [Call(Round(g), REFRESH, Sending(true), 1, None, None)],
         rounds := s.rounds + [RefreshRound(c, |joined|, None)],
         gate := Some(g))
  }

  predicate IsOk(status: nat) { 200 <= status < 300 }

  /** The tokens a refresh round finds in its request's result; anything else makes it throw. */
  function TokensIn(r: Result): Option<Tokens> {
    if r.Value? && r.body.Some? then r.body.value.tokens else None
  }

  function Apply(s: State, e: Event): State
    requires Enabled(s, e)
  {
    match e
    case Start(req) => s.(calls := s.calls + [Call(User, req, Sending(false), 1, None, None)])
    case OtherTab => s.(nextKey := s.nextKey + 1)
    case Session(token) => s.(token := token)
    case Reply(c, status) =>
      if status == 401 && !s.calls[c].phase.skipRefresh then JoinRefresh(s, c)
      else if status == 204 then SetPhase(s, c, Done(Value(None)))
      else SetPhase(s, c, Reading(status))
    case Down(c) =>
      SetPhase(s, c, if IsQueueableMutation(s.calls[c].req.path, s.calls[c].req.verb)
                     then Enqueueing else Done(NetworkError))
    case Stored(c) =>
      SetPhase(s, c, Done(Queued(s.nextKey))).(
        log := s.log + [Created(s.nextKey, Draft(s.calls[c].req), c)],
        nextKey := s.nextKey + 1)
    case NotStored(c) => SetPhase(s, c, Done(NetworkError))
    case Text(c, body) =>
      var status := s.calls[c].phase.status;
      SetPhase(s, c, Done(if IsOk(status) then Value(Some(body)) else ApiError(status)))
    case NoText(c) => SetPhase(s, c, Done(BodyError))
    case Settle(g) =>
      var tokens := TokensIn(s.calls[s.rounds[g].call].phase.result);
      s.(rounds := s.rounds[g := s.rounds[g].(settled := Some(tokens.Some?))], gate := None,
         token := if tokens.Some? then tokens.value.access else None)
    case Resume(c) =>
      var refreshed := s.rounds[s.calls[c].phase.round].settled.value;
      s.(calls := s.calls[c := s.calls[c].(
           phase := if refreshed then Sending(true) else Reading(401),
           sends := s.calls[c].sends + (if refreshed then 1 else 0),
           saw := Some(refreshed))])
  }

  // ---------- the invariant ----------

  ghost predicate RoundOk(s: State, g: nat)
    requires g < |s.rounds|
  {
    var r := s.rounds[g];
    && r.call < |s.calls| && s.calls[r.call].owner == Round(g)
    && r.starter < |s.calls| && s.calls[r.starter].owner == User && s.calls[r.starter].joined == Some(g)
    && (r.settled.None? <==> s.gate == Some(g))
    && (r.settled.Some? ==>
          s.calls[r.call].phase.Done? && (r.settled.value <==> TokensIn(s.calls[r.call].phase.result).Some?))
  }

  ghost predicate RoundCallOk(s: State, c: nat)
    requires c < |s.calls| && s.calls[c].owner.Round?
  {
    var call := s.calls[c];
    && call.owner.round < |s.rounds| && s.rounds[call.owner.round].call == c
    && call.req == REFRESH && call.sends == 1 && call.joined.None? && call.saw.None?
    && !call.phase.Refreshing? && !call.phase.Enqueueing?
    && (call.phase.Sending? ==> call.phase.skipRefresh)
    && (call.phase.Done? ==> !call.phase.result.Queued?)
  }

  ghost predicate UserCallOk(s: State, c: nat)
    requires c < |s.calls| && s.calls[c].owner.User?
  {
    var call := s.calls[c];
    && (call.joined.Some? ==> call.joined.value < |s.rounds|)
    && (call.saw.Some? ==> call.joined.Some? && s.rounds[call.joined.value].settled == call.saw)
    && call.sends == (if call.saw == Some(true) then 2 else 1)
    && (call.phase.Sending? ==> if call.phase.skipRefresh then call.saw == Some(true) else call.joined.None?)
    && (call.phase.Refreshing? ==> call.joined == Some(call.phase.round) && call.saw.None?)
    && (call.joined.Some? && call.saw.None? ==> call.phase.Refreshing?)
    && (call.phase == Reading(401) || call.phase == Done(ApiError(401)) ==> call.saw.Some?)
    && (call.phase.Enqueueing? ==> IsQueueableMutation(call.req.path, call.req.verb))
    && (call.phase.Done? && call.phase.result.Queued? ==> IsQueueableMutation(call.req.path, call.req.verb))
  }

  ghost predicate CallOk(s: State, c: nat)
    requires c < |s.calls|
  {
    && (s.calls[c].phase.Reading? ==> s.calls[c].phase.status != 204)
    && (s.calls[c].phase.Done? && s.calls[c].phase.result.ApiError? ==> !IsOk(s.calls[c].phase.result.status))
    && if s.calls[c].owner.Round? then RoundCallOk(s, c) else UserCallOk(s, c)
  }

  ghost predicate IsLogged(s: State, c: nat, id: nat) {
    exists k :: 0 <= k < |s.log| && s.log[k].call == c && s.log[k].id == id
  }

  ghost predicate LogOk(s: State) {
    && (forall k :: 0 <= k < |s.log| ==>
          s.log[k].id < s.nextKey && s.log[k].call < |s.calls|
          && s.calls[s.log[k].call].phase == Done(Queued(s.log[k].id))
          && s.log[k].entry == Draft(s.calls[s.log[k].call].req))
    && (forall j, k :: 0 <= j < k < |s.log| ==> s.log[j].id < s.log[k].id)
    && (forall c: nat :: c < |s.calls| && s.calls[c].phase.Done? && s.calls[c].phase.result.Queued? ==>
          IsLogged(s, c, s.calls[c].phase.result.id))
  }

  ghost predicate Inv(s: State) {
    && (s.gate.Some? ==> s.gate.value < |s.rounds|)
    && (forall g: nat :: g < |s.rounds| ==> RoundOk(s, g))
    && (forall c: nat :: c < |s.calls| ==> CallOk(s, c))
    && LogOk(s)
  }

  lemma InitInv()
    ensures Inv(INITIAL)
  {
  }

  /** The log and the calls it speaks of are untouched. */
  lemma LogKept(s: State, s': State)
    requires LogOk(s) && s'.log == s.log && s'.nextKey >= s.nextKey && |s'.calls| >= |s.calls|
    requires forall c: nat :: c < |s.calls| ==> s'.calls[c].req == s.calls[c].req
    requires forall c: nat :: c < |s.calls| && s.calls[c].phase.Done? ==> s'.calls[c].phase == s.calls[c].phase
    requires forall c: nat :: c < |s'.calls| && s'.calls[c].phase.Done? && s'.calls[c].phase.result.Queued? ==>
               c < |s.calls| && s.calls[c].phase == s'.calls[c].phase
    ensures LogOk(s')
  {
    forall c: nat | c < |s'.calls| && s'.calls[c].phase.Done? && s'.calls[c].phase.result.Queued?
      ensures IsLogged(s', c, s'.calls[c].phase.result.id)
    {
      assert IsLogged(s, c, s.calls[c].phase.result.id);
    }
  }

  /** A call moves on without touching the gate, the rounds or the queue. */
  lemma MoveKeepsInv(s: State, c: nat, p: Phase)
    requires Inv(s) && c < |s.calls|
    requires !s.calls[c].phase.Done? && !s.calls[c].phase.Refreshing?
    requires p.Reading? || (p.Done? && !p.result.Queued?)
             || (p.Enqueueing? && IsQueueableMutation(s.calls[c].req.path, s.calls[c].req.verb))
    requires (p.Reading? ==> p.status != 204) && (p.Done? && p.result.ApiError? ==> !IsOk(p.result.status))
    requires p == Reading(401) || p == Done(ApiError(401)) ==>
               s.calls[c].phase == Sending(true) || s.calls[c].phase == Reading(401)
    ensures Inv(SetPhase(s, c, p))
  {
    var s' := SetPhase(s, c, p);
    assert CallOk(s, c);
    forall g: nat | g < |s'.rounds| ensures RoundOk(s', g) { assert RoundOk(s, g); }
    forall d: nat | d < |s'.calls| ensures CallOk(s', d) { assert CallOk(s, d); }
    LogKept(s, s');
  }

  lemma JoinKeepsInv(s: State, c: nat)
    requires Inv(s) && c < |s.calls| && s.calls[c].phase == Sending(false)
    ensures Inv(JoinRefresh(s, c))
  {
    var s' := JoinRefresh(s, c);
    assert CallOk(s, c);
    forall g: nat | g < |s'.rounds| ensures RoundOk(s', g) {
      if g < |s.rounds| { assert RoundOk(s, g); }
    }
    forall d: nat | d < |s'.calls| ensures CallOk(s', d) {
      if d < |s.calls| { assert CallOk(s, d); }
    }
    LogKept(s, s');
  }

  lemma StoredKeepsInv(s: State, c: nat)
    requires Inv(s) && c < |s.calls| && s.calls[c].phase.Enqueueing?
    ensures Inv(Apply(s, Stored(c)))
  {
    var s' := Apply(s, Stored(c));
    assert CallOk(s, c);
    forall g: nat | g < |s'.rounds| ensures RoundOk(s', g) { assert RoundOk(s, g); }
    forall d: nat | d < |s'.calls| ensures CallOk(s', d) { assert CallOk(s, d); }
    StoredKeepsLog(s, c);
  }

  lemma StoredKeepsLog(s: State, c: nat)
    requires LogOk(s) && c < |s.calls| && s.calls[c].phase.Enqueueing?
    ensures LogOk(Apply(s, Stored(c)))
  {
    var s' := Apply(s, Stored(c));
    forall d: nat | d < |s'.calls| && s'.calls[d].phase.Done? && s'.calls[d].phase.result.Queued?
      ensures IsLogged(s', d, s'.calls[d].phase.result.id)
    {
      if d == c {
        assert s'.log[|s.log|].call == c;
      } else {
        LoggedStays(s, s', d, s.calls[d].phase.result.id);
      }
    }
  }

  lemma LoggedStays(s: State, s': State, c: nat, id: nat)
    requires IsLogged(s, c, id) && s.log <= s'.log
    ensures IsLogged(s', c, id)
  {
    var k :| 0 <= k < |s.log| && s.log[k].call == c && s.log[k].id == id;
    assert s'.log[k] == s.log[k];
  }

  lemma SettleKeepsInv(s: State, g: nat)
    requires Inv(s) && Enabled(s, Settle(g))
    ensures Inv(Apply(s, Settle(g)))
  {
    var s' := Apply(s, Settle(g));
    assert RoundOk(s, g);
    forall h: nat | h < |s'.rounds| ensures RoundOk(s', h) { assert RoundOk(s, h); }
    forall d: nat | d < |s'.calls| ensures CallOk(s', d) { assert CallOk(s, d); }
    LogKept(s, s');
  }

  lemma ResumeKeepsInv(s: State, c: nat)
    requires Inv(s) && Enabled(s, Resume(c))
    ensures Inv(Apply(s, Resume(c)))
  {
    var s' := Apply(s, Resume(c));
    assert CallOk(s, c);
    forall g: nat | g < |s'.rounds| ensures RoundOk(s', g) { assert RoundOk(s, g); }
    forall d: nat | d < |s'.calls| ensures CallOk(s', d) { assert CallOk(s, d); }
    LogKept(s, s');
  }

  lemma OutsideKeepsInv(s: State, e: Event)
    requires Inv(s) && !Internal(e)
    ensures Inv(Apply(s, e))
  {
    var s' := Apply(s, e);
    forall g: nat | g < |s'.rounds| ensures RoundOk(s', g) { assert RoundOk(s, g); }
    forall d: nat | d < |s'.calls| ensures CallOk(s', d) { if d < |s.calls| { assert CallOk(s, d); } }
    LogKept(s, s');
  }

  /** Every step keeps the invariant. */
  lemma StepKeepsInv(s: State, e: Event)
    requires Inv(s) && Enabled(s, e)
    ensures Inv(Apply(s, e))
  {
    match e
    case Reply(c, status) =>
      if status == 401 && !s.calls[c].phase.skipRefresh {
        JoinKeepsInv(s, c);
      } else {
        MoveKeepsInv(s, c, if status == 204 then Done(Value(None)) else Reading(status));
      }
    case Down(c) =>
      MoveKeepsInv(s, c, if IsQueueableMutation(s.calls[c].req.path, s.calls[c].req.verb)
                         then Enqueueing else Done(NetworkError));
    case Stored(c) => StoredKeepsInv(s, c);
    case NotStored(c) => MoveKeepsInv(s, c, Done(NetworkError));
    case Text(c, body) =>
      var status := s.calls[c].phase.status;
      MoveKeepsInv(s, c, Done(if IsOk(status) then Value(Some(body)) else ApiError(status)));
    case NoText(c) => MoveKeepsInv(s, c, Done(BodyError));
    case Settle(g) => SettleKeepsInv(s, g);
    case Resume(c) => ResumeKeepsInv(s, c);
    case Start(_) => OutsideKeepsInv(s, e);
    case OtherTab => OutsideKeepsInv(s, e);
    case Session(_) => OutsideKeepsInv(s, e);
  }

  // ---------- runs ----------

  /** The events `evs` lead from `s` to `t`, each enabled when it happens. */
  ghost predicate Reaches(s: State, evs: seq<Event>, t: State)
    decreases |evs|
  {
    if evs == [] then s == t else Enabled(s, evs[0]) && Reaches(Apply(s, evs[0]), evs[1..], t)
  }

  lemma {:induction false} RunKeepsInv(s: State, evs: seq<Event>, t: State)
    requires Inv(s) && Reaches(s, evs, t)
    ensures Inv(t)
    decreases |evs|
  {
    if evs != [] {
      StepKeepsInv(s, evs[0]);
      RunKeepsInv(Apply(s, evs[0]), evs[1..], t);
    }
  }

  ghost predicate InFlight(s: State, g: nat) {
    g < |s.rounds| && s.rounds[g].settled.None?
  }

  /** A refresh request that has not been answered yet. */
  predicate OnTheWire(s: State, c: nat) {
    c < |s.calls| && s.calls[c].owner.Round? && !s.calls[c].phase.Done?
  }

  /** What a call was told is what the round it joined settled with. */
  predicate SawItsRound(s: State, call: Call) {
    call.joined.Some? && call.joined.value < |s.rounds| && s.rounds[call.joined.value].settled == call.saw
  }

  /**
    In every run: the gate holds a round exactly while that round is unsettled, so at most one
    is; at most one refresh request is on the wire; everyone who joined a round and is done got
    a value, the one it settled with; and the refresh request neither joins a round nor is repeated.
   */
  lemma SingleFlight(evs: seq<Event>, s: State)
    requires Reaches(INITIAL, evs, s)
    ensures forall g: nat :: s.gate == Some(g) <==> InFlight(s, g)
    ensures forall g: nat, h: nat :: InFlight(s, g) && InFlight(s, h) ==> g == h
    ensures forall c: nat, d: nat :: OnTheWire(s, c) && OnTheWire(s, d) ==> c == d
    ensures forall c: nat :: c < |s.calls| && s.calls[c].saw.Some? ==> SawItsRound(s, s.calls[c])
    ensures forall c: nat :: c < |s.calls| && s.calls[c].joined.Some? && s.calls[c].phase.Done? ==> s.calls[c].saw.Some?
    ensures forall c: nat :: c < |s.calls| && s.calls[c].owner.Round? ==>
              && s.calls[c].req == Request("/auth/refresh", POST, "", None)
              && s.calls[c].joined.None? && s.calls[c].sends == 1
  {
    RunKeepsInv(INITIAL, evs, s);
    forall g: nat ensures s.gate == Some(g) <==> InFlight(s, g) {
      if g < |s.rounds| { assert RoundOk(s, g); }
    }
    forall c: nat | c < |s.calls|
      ensures s.calls[c].saw.Some? ==> SawItsRound(s, s.calls[c])
      ensures s.calls[c].joined.Some? && s.calls[c].phase.Done? ==> s.calls[c].saw.Some?
      ensures s.calls[c].owner.Round? ==>
              s.calls[c].req == REFRESH && s.calls[c].joined.None? && s.calls[c].sends == 1
      ensures OnTheWire(s, c) ==> s.gate.Some? && s.gate.value < |s.rounds| && s.rounds[s.gate.value].call == c
    {
      assert CallOk(s, c);
      if s.calls[c].owner.Round? {
        var g := s.calls[c].owner.round;
        assert RoundOk(s, g) && s.rounds[g].call == c;
      }
    }
  }

  lemma {:induction false} SettledStays(s: State, evs: seq<Event>, t: State, g: nat)
    requires Inv(s) && Reaches(s, evs, t) && g < |s.rounds| && s.rounds[g].settled.Some?
    ensures g < |t.rounds| && t.rounds[g] == s.rounds[g]
    decreases |evs|
  {
    if evs != [] {
      StepKeepsInv(s, evs[0]);
      assert RoundOk(s, g);
      SettledStays(Apply(s, evs[0]), evs[1..], t, g);
    }
  }

  /**
    Between any two points of a run: a round settled at the first has not changed at the second,
    and it settled with success exactly if its request, long done, brought a text with `tokens`.
   */
  lemma RoundsSettleOnce(before: seq<Event>, s: State, after: seq<Event>, t: State, g: nat)
    requires Reaches(INITIAL, before, s) && Reaches(s, after, t) && g < |s.rounds| && s.rounds[g].settled.Some?
    ensures g < |t.rounds| && t.rounds[g] == s.rounds[g]
    ensures t.rounds[g].call < |t.calls| && t.calls[t.rounds[g].call].phase.Done?
    ensures var r := t.calls[t.rounds[g].call].phase.result;
            t.rounds[g].settled.value <==> r.Value? && r.body.Some? && r.body.value.tokens.Some?
  {
    RunKeepsInv(INITIAL, before, s);
    SettledStays(s, after, t, g);
    RunKeepsInv(s, after, t);
    assert RoundOk(t, g);
  }

  // ---------- the offline queue ----------

  ghost function QueuedCalls(s: State): set<nat> {
    set c: nat | c < |s.calls| && s.calls[c].phase.Done? && s.calls[c].phase.result.Queued?
  }

  /** The calls that rows were created for. */
  ghost function Callers(log: seq<Created>): set<nat> {
    if log == [] then {} else Callers(log[..|log| - 1]) + {log[|log| - 1].call}
  }

  lemma {:induction false} CallersAreInLog(log: seq<Created>, c: nat)
    ensures c in Callers(log) <==> exists k :: 0 <= k < |log| && log[k].call == c
    decreases |log|
  {
    if log != [] {
      var init := log[..|log| - 1];
      CallersAreInLog(init, c);
      if k :| 0 <= k < |init| && init[k].call == c { assert log[k].call == c; }
      if k :| 0 <= k < |log| - 1 && log[k].call == c { assert init[k].call == c; }
    }
  }

  lemma {:induction false} CallersCount(log: seq<Created>)
    requires forall j, k :: 0 <= j < k < |log| ==> log[j].call != log[k].call
    ensures |Callers(log)| == |log|
    decreases |log|
  {
    if log != [] {
      var init, last := log[..|log| - 1], log[|log| - 1].call;
      CallersCount(init);
      CallersAreInLog(init, last);
    }
  }

  lemma QueuedCallsAreLogged(s: State)
    requires Inv(s)
    ensures forall c :: c in QueuedCalls(s) ==>
              exists k :: 0 <= k < |s.log| && s.log[k] == Created(s.calls[c].phase.result.id, Draft(s.calls[c].req), c)
    ensures forall c :: c in QueuedCalls(s) ==>
              s.calls[c].owner == User && IsQueueableMutation(s.calls[c].req.path, s.calls[c].req.verb)
  {
    forall c | c in QueuedCalls(s)
      ensures exists k :: 0 <= k < |s.log| && s.log[k] == Created(s.calls[c].phase.result.id, Draft(s.calls[c].req), c)
      ensures s.calls[c].owner == User && IsQueueableMutation(s.calls[c].req.path, s.calls[c].req.verb)
    {
      assert CallOk(s, c) && IsLogged(s, c, s.calls[c].phase.result.id);
      var k :| 0 <= k < |s.log| && s.log[k].call == c && s.log[k].id == s.calls[c].phase.result.id;
      assert s.log[k] == Created(s.calls[c].phase.result.id, Draft(s.calls[c].req), c);
    }
  }

  /** The row names the verb, the whole URL and the body of the very call it was created for. */
  predicate CarriesOwnRequest(s: State, row: Created) {
    && row.call < |s.calls|
    && var req := s.calls[row.call].req;
       row.entry.verb == req.verb && row.entry.url == "/api/v1" + req.path + req.search && row.entry.body == req.body
  }

  lemma OneRowEach(s: State)
    requires LogOk(s)
    ensures |s.log| == |QueuedCalls(s)|
    ensures forall j, k :: 0 <= j < k < |s.log| ==> s.log[j].call != s.log[k].call
  {
    CallersCount(s.log);
    forall c: nat ensures c in QueuedCalls(s) <==> c in Callers(s.log) {
      CallersAreInLog(s.log, c);
      if c in QueuedCalls(s) { assert IsLogged(s, c, s.calls[c].phase.result.id); }
    }
    assert Callers(s.log) == QueuedCalls(s);
  }

  /**
    In every run: as many rows were created as calls returned a queued result; the row of each
    such call carries its own verb, URL and body under the id returned; keys never repeat; and
    no refresh request is ever queued.
   */
  lemma QueueMatchesResults(evs: seq<Event>, s: State)
    requires Reaches(INITIAL, evs, s)
    ensures |s.log| == |QueuedCalls(s)|
    ensures forall c :: c in QueuedCalls(s) ==>
              exists k :: 0 <= k < |s.log| && s.log[k] == Created(s.calls[c].phase.result.id, Draft(s.calls[c].req), c)
    ensures forall j, k :: 0 <= j < k < |s.log| ==> s.log[j].id < s.log[k].id && s.log[j].call != s.log[k].call
    ensures forall k :: 0 <= k < |s.log| ==> CarriesOwnRequest(s, s.log[k])
    ensures forall c :: c in QueuedCalls(s) ==>
              s.calls[c].owner == User && IsQueueableMutation(s.calls[c].req.path, s.calls[c].req.verb)
  {
    RunKeepsInv(INITIAL, evs, s);
    QueuedCallsAreLogged(s);
    OneRowEach(s);
  }

  /** The call is not over with a network error yet, or its causes are among the events so far. */
  ghost predicate Explained(s: State, evs: seq<Event>, c: nat) {
    c < |s.calls| ==>
      && (s.calls[c].phase == Enqueueing ==> Down(c) in evs)
      && (s.calls[c].phase == Done(NetworkError) ==> Down(c) in evs)
      && (s.calls[c].phase == Done(NetworkError) && IsQueueableMutation(s.calls[c].req.path, s.calls[c].req.verb) ==>
            NotStored(c) in evs)
  }

  lemma {:induction false} RunExplains(s: State, before: seq<Event>, evs: seq<Event>, t: State, c: nat)
    requires Explained(s, before, c) && Reaches(s, evs, t)
    ensures Explained(t, before + evs, c)
    decreases |evs|
  {
    if evs == [] {
      assert before + evs == before;
    } else {
      var now := before + [evs[0]];
      assert evs[0] in now;
      RunExplains(Apply(s, evs[0]), now, evs[1..], t, c);
      assert before + evs == now + evs[1..];
    }
  }

  /**
    A call fails with a network error only after its own request met one, and a mutation that
    can be queued only after storing it failed as well: no edit is given up that could be kept.
   */
  lemma FailureIsReal(evs: seq<Event>, s: State, c: nat)
    requires Reaches(INITIAL, evs, s) && c < |s.calls| && s.calls[c].phase == Done(NetworkError)
    ensures Down(c) in evs
    ensures IsQueueableMutation(s.calls[c].req.path, s.calls[c].req.verb) ==> NotStored(c) in evs
  {
    RunExplains(INITIAL, [], evs, s, c);
    assert [] + evs == evs;
  }

  // ---------- bounds ----------

  ghost function Sum(calls: seq<Call>, f: Call -> nat): nat {
    if calls == [] then 0 else Sum(calls[..|calls| - 1], f) + f(calls[|calls| - 1])
  }

  lemma SumAppend(calls: seq<Call>, x: Call, f: Call -> nat)
    ensures Sum(calls + [x], f) == Sum(calls, f) + f(x)
  {
    assert (calls + [x])[..|calls|] == calls;
  }

  lemma {:induction false} SumUpdate(calls: seq<Call>, c: nat, x: Call, f: Call -> nat)
    requires c < |calls|
    ensures Sum(calls[c := x], f) + f(calls[c]) == Sum(calls, f) + f(x)
    decreases |calls|
  {
    var n := |calls| - 1;
    if c == n {
      assert calls[c := x][..n] == calls[..n];
    } else {
      SumUpdate(calls[..n], c, x, f);
      assert calls[c := x][..n] == calls[..n][c := x];
    }
  }

  /** How many more steps a call can take, counting those of a round it may have to open. */
  function Rank(call: Call): nat {
    match call.phase
    case Sending(skip) => if skip then 2 else 7
    case Refreshing(_) => 3
    case Enqueueing => 1
    case Reading(_) => 1
    case Done(_) => 0
  }

  ghost function Measure(s: State): nat {
    Sum(s.calls, Rank) + if s.gate.Some? then 1 else 0
  }

  /** What a call has put on the wire and may still put there, counting a round it may have to open. */
  function Cost(call: Call): nat {
    call.sends + if call.phase == Sending(false) then 2 else if call.phase.Refreshing? then 1 else 0
  }

  ghost predicate Charged(s: State, t: State, start: bool) {
    && Sum(t.calls, Cost) <= Sum(s.calls, Cost) + (if start then 3 else 0)
    && Measure(t) <= Measure(s) + (if start then 7 else 0)
  }

  lemma JoinCharges(s: State, c: nat)
    requires Inv(s) && c < |s.calls| && s.calls[c].phase == Sending(false)
    ensures Charged(s, JoinRefresh(s, c), false) && Measure(JoinRefresh(s, c)) < Measure(s)
  {
    var g := if s.gate.Some? then s.gate.value else |s.rounds|;
    var call := s.calls[c].(phase := Refreshing(g), joined := Some(g));
    SumUpdate(s.calls, c, call, Rank);
    SumUpdate(s.calls, c, call, Cost);
    if s.gate.None? {
      var request := Call(Round(g), REFRESH, Sending(true), 1, None, None);
      SumAppend(s.calls[c := call], request, Rank);
      SumAppend(s.calls[c := call], request, Cost);
    }
  }

  lemma UpdateCharges(s: State, t: State, c: nat)
    requires c < |s.calls| && c < |t.calls| && t.calls == s.calls[c := t.calls[c]] && t.gate == s.gate
    requires Rank(t.calls[c]) < Rank(s.calls[c]) && Cost(t.calls[c]) <= Cost(s.calls[c])
    ensures Charged(s, t, false) && Measure(t) < Measure(s)
  {
    SumUpdate(s.calls, c, t.calls[c], Rank);
    SumUpdate(s.calls, c, t.calls[c], Cost);
  }

  /** A step that moves one call on, without touching gate or rounds. */
  lemma MoveCharges(s: State, e: Event)
    requires Inv(s) && Enabled(s, e)
    requires e.Down? || e.Stored? || e.NotStored? || e.Text? || e.NoText? || e.Resume?
    ensures Charged(s, Apply(s, e), false) && Measure(Apply(s, e)) < Measure(s)
  {
    UpdateCharges(s, Apply(s, e), e.c);
  }

  /** Every step of the wrapper uses up some of what a call may still do; only a new call adds to it. */
  lemma StepCharges(s: State, e: Event)
    requires Inv(s) && Enabled(s, e)
    ensures Charged(s, Apply(s, e), e.Start?)
    ensures Internal(e) ==> Measure(Apply(s, e)) < Measure(s)
  {
    if e.Start? {
      SumAppend(s.calls, Call(User, e.req, Sending(false), 1, None, None), Rank);
      SumAppend(s.calls, Call(User, e.req, Sending(false), 1, None, None), Cost);
    } else if e.Reply? {
      if e.status == 401 && !s.calls[e.c].phase.skipRefresh {
        JoinCharges(s, e.c);
      } else {
        UpdateCharges(s, Apply(s, e), e.c);
      }
    } else if e.Settle? {
      assert RoundOk(s, e.g);
    } else if Internal(e) {
      MoveCharges(s, e);
    }
  }

  function Starts(evs: seq<Event>): nat {
    if evs == [] then 0 else (if evs[0].Start? then 1 else 0) + Starts(evs[1..])
  }

  function Steps(evs: seq<Event>): nat {
    if evs == [] then 0 else (if Internal(evs[0]) then 1 else 0) + Steps(evs[1..])
  }

  lemma {:induction false} RunCharges(s: State, evs: seq<Event>, t: State)
    requires Inv(s) && Reaches(s, evs, t)
    ensures Steps(evs) + Measure(t) <= Measure(s) + 7 * Starts(evs)
    ensures Sum(t.calls, Cost) <= Sum(s.calls, Cost) + 3 * Starts(evs)
    decreases |evs|
  {
    if evs != [] {
      StepKeepsInv(s, evs[0]);
      StepCharges(s, evs[0]);
      RunCharges(Apply(s, evs[0]), evs[1..], t);
    }
  }

  /** No interleaving runs on for ever: n calls take at most 7n steps, and put at most 3n requests on the wire. */
  lemma RunsAreFinite(evs: seq<Event>, s: State)
    requires Reaches(INITIAL, evs, s)
    ensures Steps(evs) <= 7 * Starts(evs)
    ensures Sum(s.calls, (call: Call) => call.sends) <= 3 * Starts(evs)
  {
    RunCharges(INITIAL, evs, s);
    SumBelow(s.calls, (call: Call) => call.sends, Cost);
  }

  lemma {:induction false} SumBelow(calls: seq<Call>, f: Call -> nat, g: Call -> nat)
    requires forall x :: f(x) <= g(x)
    ensures Sum(calls, f) <= Sum(calls, g)
    decreases |calls|
  {
    if calls != [] { SumBelow(calls[..|calls| - 1], f, g); }
  }

  ghost predicate AllDone(s: State) {
    s.gate.None? && forall c: nat :: c < |s.calls| ==> s.calls[c].phase.Done?
  }

  /** A step some call can take by itself, whatever the network does. */
  function Next(s: State, c: nat): Event
    requires c < |s.calls|
  {
    match s.calls[c].phase
    case Sending(_) => Down(c)
    case Enqueueing => NotStored(c)
    case Reading(_) => NoText(c)
    case Refreshing(g) => Resume(c)
    case Done(_) => Settle(if s.gate.Some? then s.gate.value else 0)
  }

  /** As long as a call or a round is unfinished, some step of the wrapper is possible: nothing waits for ever. */
  lemma NeverStuck(evs: seq<Event>, s: State)
    requires Reaches(INITIAL, evs, s) && !AllDone(s)
    ensures exists e :: Internal(e) && Enabled(s, e)
  {
    RunKeepsInv(INITIAL, evs, s);
    if s.gate.Some? {
      var g := s.gate.value;
      assert RoundOk(s, g);
      var c := s.rounds[g].call;
      assert CallOk(s, c);
      assert Internal(Next(s, c)) && Enabled(s, Next(s, c));
    } else {
      var c: nat :| c < |s.calls| && !s.calls[c].phase.Done?;
      assert CallOk(s, c);
      if s.calls[c].phase.Refreshing? { assert RoundOk(s, s.calls[c].phase.round); }
      assert Internal(Next(s, c)) && Enabled(s, Next(s, c));
    }
  }

  /**
    In every run: a call sends its request at most twice, the second time only after a refresh
    that succeeded, never reports a 401 without having waited for a refresh, and throws an
    ApiError only for a status that is not 2xx.
   */
  lemma CallsAreBounded(evs: seq<Event>, s: State, c: nat)
    requires Reaches(INITIAL, evs, s) && c < |s.calls|
    ensures s.calls[c].sends <= 2
    ensures s.calls[c].sends == 2 <==> s.calls[c].saw == Some(true)
    ensures s.calls[c].owner == User && s.calls[c].phase == Done(ApiError(401)) ==> s.calls[c].saw.Some?
    ensures s.calls[c].phase.Done? && s.calls[c].phase.result.ApiError? ==>
              !(200 <= s.calls[c].phase.result.status < 300)
  {
    RunKeepsInv(INITIAL, evs, s);
    assert CallOk(s, c);
  }

  // ---------- the module's own state, changed segment by segment ----------

  /**
    The module-level variables of the wrapper with the auth store and the queue. Each method is
    the code between two awaits; its contract is the step it takes.
   */
  class Client {
    var calls: seq<Call>
    var rounds: seq<RefreshRound>
    var refreshPromise: Option<nat>
    var log: seq<Created>
    var nextKey: nat
    var accessToken: Option<string>

    ghost function View(): State
      reads this
    {
      State(calls, rounds, refreshPromise, log, nextKey, accessToken)
    }

    ghost predicate Valid()
      reads this
    {
      Inv(View())
    }

    constructor ()
      ensures Valid() && View() == INITIAL
    {
      calls, rounds, refreshPromise, log, nextKey, accessToken := [], [], None, [], 1, None;
      new;
      InitInv();
    }

    /** `rawFetch` up to its first await. */
    method Send(req: Request) returns (c: nat)
      requires Valid()
      modifies this
      ensures Valid() && View() == Apply(old(View()), Start(req))
      ensures c == old(|calls|) && calls[c].req == req
    {
      StepKeepsInv(View(), Start(req));
      c := |calls|;
      calls := calls + [Call(User, req, Sending(false), 1, None, None)];
    }

    /** `tryRefresh`: join the promise behind the gate, or start the only round there is. */
    method TryRefresh(c: nat)
      requires Valid() && c < |calls| && calls[c].phase == Sending(false)
      modifies this
      ensures Valid() && View() == JoinRefresh(old(View()), c)
      ensures old(refreshPromise).Some? ==> rounds == old(rounds) && refreshPromise == old(refreshPromise)
    {
      JoinKeepsInv(View(), c);
      if refreshPromise.None? {
        calls := calls + [Call(Round(|rounds|), REFRESH, Sending(true), 1, None, None)];
        refreshPromise := Some(|rounds|);
        rounds := rounds + [RefreshRound(c, |calls| - 1, None)];
      }
      calls := calls[c := calls[c].(phase := Refreshing(refreshPromise.value), joined := refreshPromise)];
      assert calls == JoinRefresh(old(View()), c).calls;
    }

    /** A response arrived. */
    method OnResponse(c: nat, status: nat)
      requires Valid() && Enabled(View(), Reply(c, status))
      modifies this
      ensures Valid() && View() == Apply(old(View()), Reply(c, status))
    {
      StepKeepsInv(View(), Reply(c, status));
      if status == 401 && !calls[c].phase.skipRefresh {
        TryRefresh(c);
      } else if status == 204 {
        calls := calls[c := calls[c].(phase := Done(Value(None)))];
      } else {
        calls := calls[c := calls[c].(phase := Reading(status))];
      }
    }

    /** `fetch` threw: queue the mutation or give up. */
    method OnNetworkError(c: nat)
      requires Valid() && Enabled(View(), Down(c))
      modifies this
      ensures Valid() && View() == Apply(old(View()), Down(c))
    {
      StepKeepsInv(View(), Down(c));
      var call := calls[c];
      if IsQueueableMutation(call.req.path, call.req.verb) {
        calls := calls[c := call.(phase := Enqueueing)];
      } else {
        calls := calls[c := call.(phase := Done(NetworkError))];
      }
    }

    /** IndexedDB assigned a key, or failed. */
    method OnEnqueued(c: nat, ok: bool)
      requires Valid() && Enabled(View(), Stored(c))
      modifies this
      ensures Valid() && View() == Apply(old(View()), if ok then Stored(c) else NotStored(c))
    {
      StepKeepsInv(View(), if ok then Stored(c) else NotStored(c));
      if ok {
        log := log + [Created(nextKey, Draft(calls[c].req), c)];
        calls := calls[c := calls[c].(phase := Done(Queued(nextKey)))];
        nextKey := nextKey + 1;
      } else {
        calls := calls[c := calls[c].(phase := Done(NetworkError))];
      }
    }

    /** The response text was read, or could not be. */
    method OnText(c: nat, body: Option<Body>)
      requires Valid() && c < |calls| && calls[c].phase.Reading?
      modifies this
      ensures Valid() && View() == Apply(old(View()), if body.Some? then Text(c, body.value) else NoText(c))
    {
      StepKeepsInv(View(), if body.Some? then Text(c, body.value) else NoText(c));
      var status := calls[c].phase.status;
      var result := if body.None? then BodyError else if IsOk(status) then Value(body) else ApiError(status);
      calls := calls[c := calls[c].(phase := Done(result))];
    }

    /** The refresh round's request is over: store the tokens or log out, and clear the gate. */
    method OnRefreshed(g: nat)
      requires Valid() && Enabled(View(), Settle(g))
      modifies this
      ensures Valid() && View() == Apply(old(View()), Settle(g))
    {
      StepKeepsInv(View(), Settle(g));
      var result := calls[rounds[g].call].phase.result;
      if result.Value? && result.body.Some? && result.body.value.tokens.Some? {
        accessToken := result.body.value.tokens.value.access;
        rounds := rounds[g := rounds[g].(settled := Some(true))];
      } else {
        accessToken := None;
        rounds := rounds[g := rounds[g].(settled := Some(false))];
      }
      refreshPromise := None;
    }

    /** A call that awaited a round learns its outcome: retry once, or report the 401. */
    method OnRefreshAwaited(c: nat)
      requires Valid() && Enabled(View(), Resume(c))
      modifies this
      ensures Valid() && View() == Apply(old(View()), Resume(c))
    {
      StepKeepsInv(View(), Resume(c));
      var call := calls[c];
      var refreshed := rounds[call.phase.round].settled.value;
      if refreshed {
        calls := calls[c := call.(phase := Sending(true), sends := call.sends + 1, saw := Some(true))];
      } else {
        calls := calls[c := call.(phase := Reading(401), saw := Some(false))];
      }
    }
  }
}
