/**
  The service worker (apps/web/public/sw.js): routing, the two fetch strategies, and the purge
  and clear steps over the browser's cache storage, with fetch events interleaved at every await.

  A `Cache` object is a handle on a store. Deleting a cache unbinds its name; a handle opened
  before keeps working on the unbound store.

  Main results, for every run: `EntriesAreServed` (what the cache can hold), `AnswersAreHonest` and
  `FailureHasCause` (what a page can get), `CacheFirstIsTransparent`, `OnlyCurrentCacheAfterActivate`,
  `ClearForgets` (nothing fetched before a clear is ever found in a cache opened after it), and
  what the cache is there for: `OkReplyIsHeld` and `HeldEntryServes`.
 */
module ServiceWorker {
  import opened Options

  datatype Url = Url(origin: string, pathname: string, search: string)

  datatype Request = Request(verb: string, url: Url, document: bool)

  datatype Response = Response(status: nat, content: string) {
    predicate Ok() { 200 <= status < 300 }
  }

  /** What the network does with a request. */
  datatype Net = Reply(r: Response) | Down

  const CACHE := "amass-shell-v5"

  // ---------- routing ----------

  datatype Strategy = NetworkFirst | CacheFirst

  predicate StartsWith(s: string, prefix: string) { prefix <= s }

  /** The fetch listener: `None` leaves the request to the browser. */
  function Route(req: Request): (r: Option<Strategy>)
    ensures r.Some? <==> req.verb == "GET" && !("/api/" <= req.url.pathname)
    ensures r == Some(NetworkFirst) <==> r.Some? && req.document && !("/assets/" <= req.url.pathname)
  {
    if req.verb != "GET" then None
    else if StartsWith(req.url.pathname, "/api/") then None
    else if StartsWith(req.url.pathname, "/assets/") then Some(CacheFirst)
    else if req.document then Some(NetworkFirst)
    else Some(CacheFirst)
  }

  function Home(origin: string): Url { Url(origin, "/", "") }

  function StaticAssets(origin: string): seq<Url> {
    [Url(origin, "/manifest.webmanifest", ""), Url(origin, "/icon-192.svg", ""), Url(origin, "/icon-512.svg", "")]
  }

  // ---------- cache storage ----------

  type Entries = map<Url, Response>

  datatype Storage = Storage(names: map<string, nat>, stores: map<nat, Entries>, next: nat)

  /** caches.open(CACHE) */
  function Open(st: Storage): (r: (Storage, nat)) {
    if CACHE in st.names then (st, st.names[CACHE])
    else (Storage(st.names[CACHE := st.next], st.stores[st.next := map[]], st.next + 1), st.next)
  }

  /** cache.match */
  function Find(st: Storage, id: nat, u: Url): Option<Response> {
    if id in st.stores && u in st.stores[id] then Some(st.stores[id][u]) else None
  }

  /** cache.put */
  function PutIn(st: Storage, id: nat, u: Url, r: Response): Storage {
    if id in st.stores then st.(stores := st.stores[id := st.stores[id][u := r]]) else st
  }

  /** caches.delete of every name that is not kept */
  function KeepOnly(st: Storage, kept: set<string>): Storage {
    st.(names := map k | k in st.names && k in kept :: st.names[k])
  }

  predicate AllOk(nets: seq<Net>) {
    forall k :: 0 <= k < |nets| ==> nets[k].Reply? && nets[k].r.Ok()
  }

  /** cache.addAll when every request was answered with an ok response. */
  function AddAll(st: Storage, id: nat, urls: seq<Url>, nets: seq<Net>): Storage
    requires |urls| == |nets| && AllOk(nets)
    decreases |urls|
  {
    if urls == [] then st else AddAll(PutIn(st, id, urls[0], nets[0].r), id, urls[1..], nets[1..])
  }

  // ---------- fetch events in flight ----------

  datatype Source = FromNetwork | FromCache | FromHome

  /** `ErrorResponse` is the strategy's own; on `StorageError` its promise is rejected. To a page both are a failure. */
  datatype Answer = Given(r: Response, source: Source) | ErrorResponse | StorageError

  datatype Stage =
    | Opening                 // awaiting caches.open
    | Looking(id: nat)        // cacheFirst: awaiting cache.match(request)
    | Asking(id: nat)         // awaiting fetch
    | FallingBack(id: nat)    // networkFirst: awaiting cache.match(request)
    | LastResort(id: nat)     // networkFirst: awaiting cache.match('/')
    | Done(answer: Answer)

  /** `asked` is what the network did for this very event, if it was asked. */
  datatype Task = Task(url: Url, strategy: Strategy, stage: Stage, asked: Option<Net>)

  /** A cache.put that has been started and not awaited. */
  datatype Put = Put(id: nat, url: Url, r: Response)

  datatype Served = Served(url: Url, r: Response)

  /** The answers among what the network did. */
  function Replies(urls: seq<Url>, nets: seq<Net>): seq<Served>
    requires |urls| == |nets|
  {
    if urls == [] then []
    else (if nets[0].Reply? then [Served(urls[0], nets[0].r)] else []) + Replies(urls[1..], nets[1..])
  }

  datatype State = State(st: Storage, tasks: seq<Task>, puts: seq<Put>, served: seq<Served>)

  datatype Event =
    | Fetch(req: Request)
    | Opened(t: nat)
    | Looked(t: nat)
    | Answered(t: nat, net: Net)
    | FellBack(t: nat)
    | SawHome(t: nat)
    | Rejected(t: nat)         // caches.open or cache.match is rejected
    | Stored(p: nat)
    | NotStored(p: nat)
    | Install(nets: seq<Net>)  // what the network does with each static asset
    | Activate
    | ClearCaches

  predicate Enabled(origin: string, s: State, e: Event) {
    match e
    case Fetch(_) => true
    case Opened(t) => t < |s.tasks| && s.tasks[t].stage.Opening?
    case Looked(t) => t < |s.tasks| && s.tasks[t].stage.Looking?
    case Answered(t, _) => t < |s.tasks| && s.tasks[t].stage.Asking?
    case FellBack(t) => t < |s.tasks| && s.tasks[t].stage.FallingBack?
    case SawHome(t) => t < |s.tasks| && s.tasks[t].stage.LastResort?
    case Rejected(t) => t < |s.tasks| && !s.tasks[t].stage.Asking? && !s.tasks[t].stage.Done?
    case Stored(p) => p < |s.puts|
    case NotStored(p) => p < |s.puts|
    case Install(nets) => |nets| == |StaticAssets(origin)|
    case Activate => true
    case ClearCaches => true
  }

  function Move(s: State, t: nat, stage: Stage): State
    requires t < |s.tasks|
  {
    s.(tasks := s.tasks[t := s.tasks[t].(stage := stage)])
  }

  function FromStore(r: Option<Response>, source: Source, otherwise: Stage): Stage {
    if r.Some? then Done(Given(r.value, source)) else otherwise
  }

  function Apply(origin: string, s: State, e: Event): State
    requires Enabled(origin, s, e)
  {
    match e
    case Fetch(req) =>
      var route := Route(req);
      if route.None? then s else s.(tasks := s.tasks + [Task(req.url, route.value, Opening, None)])
    case Opened(t) =>
      var (st, id) := Open(s.st);
      Move(s, t, if s.tasks[t].strategy.CacheFirst? then Looking(id) else Asking(id)).(st := st)
    case Looked(t) =>
      var id := s.tasks[t].stage.id;
      Move(s, t, FromStore(Find(s.st, id, s.tasks[t].url), FromCache, Asking(id)))
    case Answered(t, net) =>
      var task, id := s.tasks[t], s.tasks[t].stage.id;
      var stage := match net
        case Reply(r) => Done(Given(r, FromNetwork))
        case Down => if task.strategy.CacheFirst? then Done(ErrorResponse) else FallingBack(id);
      s.(tasks := s.tasks[t := task.(stage := stage, asked := Some(net))],
         served := if net.Reply? then s.served + [Served(task.url, net.r)] else s.served,
         puts := if net.Reply? && net.r.Ok() then s.puts + [Put(id, task.url, net.r)] else s.puts)
    case FellBack(t) =>
      var id := s.tasks[t].stage.id;
      Move(s, t, FromStore(Find(s.st, id, s.tasks[t].url), FromCache, LastResort(id)))
    case SawHome(t) =>
      Move(s, t, FromStore(Find(s.st, s.tasks[t].stage.id, Home(origin)), FromHome, Done(ErrorResponse)))
    case Rejected(t) => Move(s, t, Done(StorageError))
    case Stored(p) =>
      var put := s.puts[p];
      s.(st := PutIn(s.st, put.id, put.url, put.r), puts := s.puts[..p] + s.puts[p + 1..])
    case NotStored(p) => s.(puts := s.puts[..p] + s.puts[p + 1..])
    case Install(nets) =>
      var (st, id) := Open(s.st);
      s.(st := if AllOk(nets) then AddAll(st, id, StaticAssets(origin), nets) else st,
         served := s.served + Replies(StaticAssets(origin), nets))
    case Activate => s.(st := KeepOnly(s.st, {CACHE}))
    case ClearCaches => s.(st := KeepOnly(s.st, {}))
  }

  ghost predicate Reaches(origin: string, s: State, evs: seq<Event>, t: State)
    decreases |evs|
  {
    if evs == [] then s == t
    else Enabled(origin, s, evs[0]) && Reaches(origin, Apply(origin, s, evs[0]), evs[1..], t)
  }

  // ---------- where entries and answers come from ----------

  /** The network answered `u` with `r` at some point since the `k`-th answer of the run. */
  predicate WasServed(s: State, k: nat, u: Url, r: Response) {
    k <= |s.served| && Served(u, r) in s.served[k..]
  }

  /** What the worker may keep: an ok answer of the network, since `k`, to that very URL, outside the API. */
  predicate GoodEntry(s: State, k: nat, u: Url, r: Response) {
    r.Ok() && !StartsWith(u.pathname, "/api/") && WasServed(s, k, u, r)
  }

  /** The handle a stage works on. */
  function Handle(stage: Stage): Option<nat> {
    match stage
    case Opening => None
    case Looking(id) => Some(id)
    case Asking(id) => Some(id)
    case FallingBack(id) => Some(id)
    case LastResort(id) => Some(id)
    case Done(_) => None
  }

  /** Where an answer may come from, given what the network did for this event. */
  ghost predicate AnswerOk(origin: string, s: State, k: nat, task: Task, a: Answer) {
    match a
    case ErrorResponse => task.asked == Some(Down)
    case StorageError => task.asked.None? || (task.strategy.NetworkFirst? && task.asked == Some(Down))
    case Given(r, FromNetwork) => task.asked == Some(Reply(r)) && WasServed(s, k, task.url, r)
    case Given(r, FromCache) =>
      GoodEntry(s, k, task.url, r) && task.asked == (if task.strategy.CacheFirst? then None else Some(Down))
    case Given(r, FromHome) =>
      GoodEntry(s, k, Home(origin), r) && task.strategy.NetworkFirst? && task.asked == Some(Down)
  }

  ghost predicate TaskOk(origin: string, s: State, n: nat, k: nat, task: Task) {
    && (Handle(task.stage).Some? ==> n <= Handle(task.stage).value)
    && (task.stage.Opening? || task.stage.Looking? || task.stage.Asking? ==> task.asked.None?)
    && (task.stage.Looking? ==> task.strategy.CacheFirst?)
    && (task.stage.FallingBack? || task.stage.LastResort? ==> task.strategy.NetworkFirst? && task.asked == Some(Down))
    && (task.stage.Done? ==> AnswerOk(origin, s, k, task, task.stage.answer))
  }

  ghost predicate StoreOk(s: State, n: nat, k: nat, id: nat)
    requires id in s.st.stores
  {
    n <= id ==> forall u :: u in s.st.stores[id] ==> GoodEntry(s, k, u, s.st.stores[id][u])
  }

  ghost predicate PutOk(s: State, n: nat, k: nat, p: Put) {
    p.id < s.st.next && !StartsWith(p.url.pathname, "/api/") && (n <= p.id ==> GoodEntry(s, k, p.url, p.r))
  }

  ghost predicate StorageOk(st: Storage) {
    && (forall id :: id in st.stores ==> id < st.next)
    && (forall name :: name in st.names ==> st.names[name] in st.stores)
  }

  /** What holds of every task, however old its handle. */
  predicate Sane(s: State, task: Task) {
    && !StartsWith(task.url.pathname, "/api/")
    && (Handle(task.stage).Some? ==> Handle(task.stage).value < s.st.next)
  }

  /**
    Everything from store `n` and task `m` on knows only what was served since answer `k`:
    the current cache is such a store, and it, the puts on their way to it and the answers
    given from it hold nothing older.
   */
  ghost predicate Since(origin: string, s: State, n: nat, k: nat, m: nat) {
    && StorageOk(s.st) && n <= s.st.next && k <= |s.served|
    && (CACHE in s.st.names ==> n <= s.st.names[CACHE])
    && (forall id :: id in s.st.stores ==> StoreOk(s, n, k, id))
    && (forall p :: 0 <= p < |s.puts| ==> PutOk(s, n, k, s.puts[p]))
    && (forall t :: 0 <= t < |s.tasks| ==> Sane(s, s.tasks[t]))
    && (forall t :: m <= t < |s.tasks| ==> TaskOk(origin, s, n, k, s.tasks[t]))
  }

  /** Later states have served at least as much. */
  lemma ServedGrows(s: State, s': State, k: nat)
    requires s.served <= s'.served
    ensures forall u, r :: WasServed(s, k, u, r) ==> WasServed(s', k, u, r)
  {
    forall u, r | WasServed(s, k, u, r) ensures WasServed(s', k, u, r) {
      var j :| k <= j < |s.served| && s.served[j] == Served(u, r);
      assert s'.served[j] == Served(u, r);
      assert s'.served[k..][j - k] == Served(u, r);
    }
  }

  /** Moves of one task that leave storage, puts and answers as they are. */
  lemma MoveKeeps(origin: string, s: State, t: nat, stage: Stage, n: nat, k: nat, m: nat)
    requires Since(origin, s, n, k, m) && t < |s.tasks|
    requires Sane(s, s.tasks[t].(stage := stage))
    requires m <= t ==> TaskOk(origin, s, n, k, s.tasks[t].(stage := stage))
    ensures Since(origin, Move(s, t, stage), n, k, m)
  {
    var s' := Move(s, t, stage);
    ServedGrows(s, s', k);
    forall id | id in s'.st.stores ensures StoreOk(s', n, k, id) { assert StoreOk(s, n, k, id); }
    forall i | m <= i < |s'.tasks| ensures TaskOk(origin, s', n, k, s'.tasks[i]) {
      if i != t { assert TaskOk(origin, s, n, k, s.tasks[i]); }
    }
    forall p | 0 <= p < |s'.puts| ensures PutOk(s', n, k, s'.puts[p]) { assert PutOk(s, n, k, s.puts[p]); }
  }

  /** What a lookup in a current store finds is a good entry. */
  lemma FoundIsGood(origin: string, s: State, id: nat, u: Url, n: nat, k: nat, m: nat)
    requires Since(origin, s, n, k, m) && n <= id && Find(s.st, id, u).Some?
    ensures GoodEntry(s, k, u, Find(s.st, id, u).value)
  {
    assert StoreOk(s, n, k, id);
  }

  /** Changes of the storage that keep what `Since` says of it. */
  lemma StorageKeeps(origin: string, s: State, st: Storage, n: nat, k: nat, m: nat)
    requires Since(origin, s, n, k, m) && StorageOk(st) && s.st.next <= st.next
    requires CACHE in st.names ==> n <= st.names[CACHE]
    requires forall id :: id in st.stores ==> StoreOk(s.(st := st), n, k, id)
    ensures Since(origin, s.(st := st), n, k, m)
  {
    var s' := s.(st := st);
    forall i | m <= i < |s'.tasks| ensures TaskOk(origin, s', n, k, s'.tasks[i]) {
      assert TaskOk(origin, s, n, k, s.tasks[i]);
    }
    forall p | 0 <= p < |s'.puts| ensures PutOk(s', n, k, s'.puts[p]) { assert PutOk(s, n, k, s.puts[p]); }
  }

  lemma OpenKeeps(origin: string, s: State, n: nat, k: nat, m: nat)
    requires Since(origin, s, n, k, m)
    ensures Since(origin, s.(st := Open(s.st).0), n, k, m) && n <= Open(s.st).1 < Open(s.st).0.next
  {
    var (st, id) := Open(s.st);
    forall i | i in st.stores ensures StoreOk(s.(st := st), n, k, i) {
      if i in s.st.stores && i != s.st.next { assert StoreOk(s, n, k, i); }
    }
    StorageKeeps(origin, s, st, n, k, m);
  }

  lemma PutKeeps(origin: string, s: State, id: nat, u: Url, r: Response, n: nat, k: nat, m: nat)
    requires Since(origin, s, n, k, m) && (n <= id ==> GoodEntry(s, k, u, r))
    ensures Since(origin, s.(st := PutIn(s.st, id, u, r)), n, k, m)
  {
    var st := PutIn(s.st, id, u, r);
    forall i | i in st.stores ensures StoreOk(s.(st := st), n, k, i) { assert StoreOk(s, n, k, i); }
    StorageKeeps(origin, s, st, n, k, m);
  }

  lemma {:induction false} AddAllKeeps(
    origin: string, s: State, id: nat, urls: seq<Url>, nets: seq<Net>, n: nat, k: nat, m: nat)
    requires Since(origin, s, n, k, m) && |urls| == |nets| && AllOk(nets)
    requires forall i :: 0 <= i < |urls| ==> GoodEntry(s, k, urls[i], nets[i].r)
    ensures Since(origin, s.(st := AddAll(s.st, id, urls, nets)), n, k, m)
    decreases |urls|
  {
    if urls != [] {
      PutKeeps(origin, s, id, urls[0], nets[0].r, n, k, m);
      AddAllKeeps(origin, s.(st := PutIn(s.st, id, urls[0], nets[0].r)), id, urls[1..], nets[1..], n, k, m);
    }
  }

  lemma {:induction false} RepliesToAll(urls: seq<Url>, nets: seq<Net>)
    requires |urls| == |nets| && AllOk(nets)
    ensures |Replies(urls, nets)| == |urls|
    ensures forall i :: 0 <= i < |urls| ==> Replies(urls, nets)[i] == Served(urls[i], nets[i].r)
    decreases |urls|
  {
    if urls != [] { RepliesToAll(urls[1..], nets[1..]); }
  }

  /** More answers of the network, and nothing else. */
  lemma ServingKeeps(origin: string, s: State, more: seq<Served>, n: nat, k: nat, m: nat)
    requires Since(origin, s, n, k, m)
    ensures Since(origin, s.(served := s.served + more), n, k, m)
    ensures forall i :: 0 <= i < |more| ==> WasServed(s.(served := s.served + more), k, more[i].url, more[i].r)
  {
    var s' := s.(served := s.served + more);
    ServedGrows(s, s', k);
    forall id | id in s'.st.stores ensures StoreOk(s', n, k, id) { assert StoreOk(s, n, k, id); }
    forall i | m <= i < |s'.tasks| ensures TaskOk(origin, s', n, k, s'.tasks[i]) {
      assert TaskOk(origin, s, n, k, s.tasks[i]);
    }
    forall p | 0 <= p < |s'.puts| ensures PutOk(s', n, k, s'.puts[p]) { assert PutOk(s, n, k, s.puts[p]); }
    forall i | 0 <= i < |more| ensures WasServed(s', k, more[i].url, more[i].r) {
      assert s'.served[k..][|s.served| - k + i] == more[i];
    }
  }

  lemma AnsweredKeeps(origin: string, s: State, t: nat, net: Net, n: nat, k: nat, m: nat)
    requires Since(origin, s, n, k, m) && Enabled(origin, s, Answered(t, net))
    ensures Since(origin, Apply(origin, s, Answered(t, net)), n, k, m)
  {
    hide Home, StorageOk;
    var task, id := s.tasks[t], s.tasks[t].stage.id;
    var s' := Apply(origin, s, Answered(t, net));
    var more := if net.Reply? then [Served(task.url, net.r)] else [];
    ServingKeeps(origin, s, more, n, k, m);
    var s1 := s.(served := s.served + more);
    assert s'.served == s1.served;
    if net.Reply? { assert WasServed(s1, k, more[0].url, more[0].r); }
    forall i | m <= i < |s'.tasks| ensures TaskOk(origin, s', n, k, s'.tasks[i]) {
      assert TaskOk(origin, s1, n, k, s1.tasks[i]);
    }
    forall p | 0 <= p < |s'.puts| ensures PutOk(s', n, k, s'.puts[p]) {
      if p < |s.puts| { assert PutOk(s1, n, k, s1.puts[p]); }
    }
    forall i | i in s'.st.stores ensures StoreOk(s', n, k, i) { assert StoreOk(s1, n, k, i); }
  }

  lemma StepKeepsSince(origin: string, s: State, e: Event, n: nat, k: nat, m: nat)
    requires Since(origin, s, n, k, m) && m <= |s.tasks| && Enabled(origin, s, e)
    ensures Since(origin, Apply(origin, s, e), n, k, m) && m <= |Apply(origin, s, e).tasks|
  {
    match e
    case Fetch(req) => FetchKeeps(origin, s, req, n, k, m);
    case Opened(t) =>
      OpenKeeps(origin, s, n, k, m);
      var (st, id) := Open(s.st);
      MoveKeeps(origin, s.(st := st), t, if s.tasks[t].strategy.CacheFirst? then Looking(id) else Asking(id), n, k, m);
    case Looked(t) => LookupKeeps(origin, s, e, n, k, m);
    case FellBack(t) => LookupKeeps(origin, s, e, n, k, m);
    case SawHome(t) => LookupKeeps(origin, s, e, n, k, m);
    case Answered(t, net) => AnsweredKeeps(origin, s, t, net, n, k, m);
    case Rejected(t) => RejectedKeeps(origin, s, t, n, k, m);
    case Stored(p) =>
      var put := s.puts[p];
      assert PutOk(s, n, k, put);
      PutKeeps(origin, s, put.id, put.url, put.r, n, k, m);
      DropPutKeeps(origin, s.(st := PutIn(s.st, put.id, put.url, put.r)), p, n, k, m);
    case NotStored(p) => DropPutKeeps(origin, s, p, n, k, m);
    case Install(nets) => InstallKeeps(origin, s, nets, n, k, m);
    case Activate => PurgeKeeps(origin, s, {CACHE}, n, k, m);
    case ClearCaches => PurgeKeeps(origin, s, {}, n, k, m);
  }

  lemma RejectedKeeps(origin: string, s: State, t: nat, n: nat, k: nat, m: nat)
    requires Since(origin, s, n, k, m) && Enabled(origin, s, Rejected(t))
    ensures Since(origin, Apply(origin, s, Rejected(t)), n, k, m)
  {
    assert Sane(s, s.tasks[t]) && (m <= t ==> TaskOk(origin, s, n, k, s.tasks[t]));
    MoveKeeps(origin, s, t, Done(StorageError), n, k, m);
  }

  lemma FetchKeeps(origin: string, s: State, req: Request, n: nat, k: nat, m: nat)
    requires Since(origin, s, n, k, m) && m <= |s.tasks|
    ensures Since(origin, Apply(origin, s, Fetch(req)), n, k, m) && m <= |Apply(origin, s, Fetch(req)).tasks|
  {
    var s' := Apply(origin, s, Fetch(req));
    forall i | m <= i < |s'.tasks| ensures TaskOk(origin, s', n, k, s'.tasks[i]) {
      if i < |s.tasks| { assert TaskOk(origin, s, n, k, s.tasks[i]); }
    }
    forall p | 0 <= p < |s'.puts| ensures PutOk(s', n, k, s'.puts[p]) { assert PutOk(s, n, k, s.puts[p]); }
    forall i | i in s'.st.stores ensures StoreOk(s', n, k, i) { assert StoreOk(s, n, k, i); }
  }

  lemma LookupKeeps(origin: string, s: State, e: Event, n: nat, k: nat, m: nat)
    requires Since(origin, s, n, k, m) && Enabled(origin, s, e) && (e.Looked? || e.FellBack? || e.SawHome?)
    ensures Since(origin, Apply(origin, s, e), n, k, m)
  {
    var task := s.tasks[e.t];
    var id, u := task.stage.id, if e.SawHome? then Home(origin) else task.url;
    if m <= e.t {
      assert TaskOk(origin, s, n, k, task);
      if Find(s.st, id, u).Some? { FoundIsGood(origin, s, id, u, n, k, m); }
    }
    assert Sane(s, task);
    MoveKeeps(origin, s, e.t, Apply(origin, s, e).tasks[e.t].stage, n, k, m);
  }

  lemma DropPutKeeps(origin: string, s: State, p: nat, n: nat, k: nat, m: nat)
    requires Since(origin, s, n, k, m) && p < |s.puts|
    ensures Since(origin, s.(puts := s.puts[..p] + s.puts[p + 1..]), n, k, m)
  {
    var s' := s.(puts := s.puts[..p] + s.puts[p + 1..]);
    forall i | m <= i < |s'.tasks| ensures TaskOk(origin, s', n, k, s'.tasks[i]) {
      assert TaskOk(origin, s, n, k, s.tasks[i]);
    }
    forall i | 0 <= i < |s'.puts| ensures PutOk(s', n, k, s'.puts[i]) {
      assert PutOk(s, n, k, s.puts[if i < p then i else i + 1]);
    }
    forall i | i in s'.st.stores ensures StoreOk(s', n, k, i) { assert StoreOk(s, n, k, i); }
  }

  /** Assets that were all answered with ok are good entries. */
  lemma AssetsAreGood(origin: string, s: State, nets: seq<Net>, k: nat)
    requires |nets| == |StaticAssets(origin)| && AllOk(nets) && k <= |s.served|
    requires forall i :: 0 <= i < |nets| ==> WasServed(s, k, StaticAssets(origin)[i], nets[i].r)
    ensures forall i :: 0 <= i < |nets| ==> GoodEntry(s, k, StaticAssets(origin)[i], nets[i].r)
  {
    forall i | 0 <= i < |nets| ensures !StartsWith(StaticAssets(origin)[i].pathname, "/api/") {
      assert StaticAssets(origin)[i].pathname[1] != 'a';
    }
  }

  lemma InstallKeeps(origin: string, s: State, nets: seq<Net>, n: nat, k: nat, m: nat)
    requires Since(origin, s, n, k, m) && |nets| == |StaticAssets(origin)|
    ensures Since(origin, Apply(origin, s, Install(nets)), n, k, m)
  {
    hide Since, Open, StaticAssets, GoodEntry, WasServed;
    var assets := StaticAssets(origin);
    var more := Replies(assets, nets);
    OpenKeeps(origin, s, n, k, m);
    var (st, id) := Open(s.st);
    var s1 := s.(st := st);
    ServingKeeps(origin, s1, more, n, k, m);
    if AllOk(nets) {
      var s2 := s1.(served := s1.served + more);
      RepliesToAll(assets, nets);
      SinceBounds(origin, s2, n, k, m);
      forall i | 0 <= i < |nets| ensures WasServed(s2, k, assets[i], nets[i].r) {
        assert WasServed(s2, k, more[i].url, more[i].r);
      }
      AssetsAreGood(origin, s2, nets, k);
      AddAllKeeps(origin, s2, id, assets, nets, n, k, m);
    }
  }

  lemma SinceBounds(origin: string, s: State, n: nat, k: nat, m: nat)
    requires Since(origin, s, n, k, m)
    ensures k <= |s.served|
  {
  }

  lemma PurgeKeeps(origin: string, s: State, kept: set<string>, n: nat, k: nat, m: nat)
    requires Since(origin, s, n, k, m)
    ensures Since(origin, s.(st := KeepOnly(s.st, kept)), n, k, m)
  {
    var st := KeepOnly(s.st, kept);
    forall i | i in st.stores ensures StoreOk(s.(st := st), n, k, i) { assert StoreOk(s, n, k, i); }
    StorageKeeps(origin, s, st, n, k, m);
  }

  lemma {:induction false} RunKeepsSince(origin: string, s: State, evs: seq<Event>, t: State, n: nat, k: nat, m: nat)
    requires Since(origin, s, n, k, m) && m <= |s.tasks| && Reaches(origin, s, evs, t)
    ensures Since(origin, t, n, k, m) && m <= |t.tasks|
    decreases |evs|
  {
    if evs != [] {
      StepKeepsSince(origin, s, evs[0], n, k, m);
      RunKeepsSince(origin, Apply(origin, s, evs[0]), evs[1..], t, n, k, m);
    }
  }

  // ---------- runs ----------

  /** This version of the worker starts: other caches may exist, its own does not. */
  ghost predicate Starts(s: State) {
    StorageOk(s.st) && CACHE !in s.st.names && s.tasks == [] && s.puts == [] && s.served == []
  }

  /**
    In every run: each entry of the worker's cache is keyed by a URL outside /api/ and holds an
    ok response that the network gave for that same URL.
   */
  lemma EntriesAreServed(origin: string, s0: State, evs: seq<Event>, s: State, u: Url)
    requires Starts(s0) && Reaches(origin, s0, evs, s)
    requires CACHE in s.st.names && Find(s.st, s.st.names[CACHE], u).Some?
    ensures var r := Find(s.st, s.st.names[CACHE], u).value;
            200 <= r.status <= 299 && !("/api/" <= u.pathname) && Served(u, r) in s.served
  {
    RunKeepsSince(origin, s0, evs, s, s0.st.next, 0, 0);
    FoundIsGood(origin, s, s.st.names[CACHE], u, s0.st.next, 0, 0);
    assert s.served[0..] == s.served;
  }

  /** A fetch event keeps its URL and strategy, and its answer once it has one. */
  lemma {:induction false} TaskStays(origin: string, s: State, evs: seq<Event>, t: State, i: nat)
    requires Reaches(origin, s, evs, t) && i < |s.tasks|
    ensures i < |t.tasks| && t.tasks[i].url == s.tasks[i].url && t.tasks[i].strategy == s.tasks[i].strategy
    ensures s.tasks[i].stage.Done? ==> t.tasks[i] == s.tasks[i]
    decreases |evs|
  {
    if evs != [] { TaskStays(origin, Apply(origin, s, evs[0]), evs[1..], t, i); }
  }

  /** The lookup of the event's own URL. */
  predicate IsLookup(e: Event, i: nat) { e == Looked(i) || e == FellBack(i) }

  /** In the run, event `i` looked its own URL up in the store it had opened, and the store did not hold it. */
  ghost predicate MissedOwn(origin: string, s: State, evs: seq<Event>, i: nat, u: Url) {
    exists k: nat, m: State :: k < |evs| && Reaches(origin, s, evs[..k], m) && Misses(origin, m, evs[k], i, u)
  }

  predicate Misses(origin: string, m: State, e: Event, i: nat, u: Url) {
    IsLookup(e, i) && Enabled(origin, m, e) && Find(m.st, m.tasks[i].stage.id, u).None?
  }

  /** The event has not got past the lookup of its own URL. */
  predicate BeforeLookup(task: Task) {
    match task.strategy
    case CacheFirst => task.stage.Opening? || task.stage.Looking?
    case NetworkFirst => task.stage.Opening? || task.stage.Asking? || task.stage.FallingBack?
  }

  /** An answer that comes last: from the network for cache-first, from "/" for network-first, or an error. */
  predicate IsFallback(task: Task) {
    && task.stage.Done? && !task.stage.answer.StorageError?
    && (task.stage.answer.Given? ==>
          task.stage.answer.source == if task.strategy.CacheFirst? then FromNetwork else FromHome)
  }

  lemma {:induction false} FallbackMissed(origin: string, s: State, evs: seq<Event>, t: State, i: nat)
    requires Reaches(origin, s, evs, t) && i < |t.tasks| && IsFallback(t.tasks[i])
    requires i < |s.tasks| ==> BeforeLookup(s.tasks[i])
    ensures MissedOwn(origin, s, evs, i, t.tasks[i].url)
    decreases |evs|
  {
    var e, rest, s1 := evs[0], evs[1..], Apply(origin, s, evs[0]);
    var u := t.tasks[i].url;
    if i < |s.tasks| { TaskStays(origin, s, evs, t, i); }
    if i < |s1.tasks| { TaskStays(origin, s1, rest, t, i); }
    if i < |s.tasks| && IsLookup(e, i) {
      assert evs[..0] == [] && Reaches(origin, s, evs[..0], s) && Misses(origin, s, evs[0], i, u);
    } else {
      FallbackMissed(origin, s1, rest, t, i);
      var k: nat, m: State :| k < |rest| && Reaches(origin, s1, rest[..k], m) && Misses(origin, m, rest[k], i, u);
      assert evs[..k + 1][1..] == rest[..k] && evs[k + 1] == rest[k];
      assert Reaches(origin, s, evs[..k + 1], m);
    }
  }

  /** What is recorded of event `i`, if it is there yet, against the events so far. */
  ghost predicate Traced(s: State, evs: seq<Event>, i: nat) {
    if i >= |s.tasks| then Rejected(i) !in evs && forall net :: Answered(i, net) !in evs
    else
      var task := s.tasks[i];
      && (task.stage == Done(StorageError) <==> Rejected(i) in evs)
      && (forall net :: task.asked == Some(net) <==> Answered(i, net) in evs)
      && (task.stage.Opening? || task.stage.Looking? || task.stage.Asking? ==> task.asked.None?)
  }

  lemma TracedStep(origin: string, s: State, before: seq<Event>, e: Event, i: nat)
    requires Traced(s, before, i) && Enabled(origin, s, e)
    ensures Traced(Apply(origin, s, e), before + [e], i)
  {
    var now := before + [e];
    assert Rejected(i) in now <==> Rejected(i) in before || e == Rejected(i);
    assert forall net :: Answered(i, net) in now <==> Answered(i, net) in before || e == Answered(i, net);
    hide AddAll, KeepOnly, Open, Replies, StaticAssets, PutIn;
  }

  lemma {:induction false} TracedRun(
    origin: string, s: State, before: seq<Event>, evs: seq<Event>, t: State, i: nat)
    requires Traced(s, before, i) && Reaches(origin, s, evs, t)
    ensures Traced(t, before + evs, i)
    decreases |evs|
  {
    if evs == [] {
      assert before + evs == before;
    } else {
      TracedStep(origin, s, before, evs[0], i);
      TracedRun(origin, Apply(origin, s, evs[0]), before + [evs[0]], evs[1..], t, i);
      assert before + evs == before + [evs[0]] + evs[1..];
    }
  }

  /**
    In every run a fetch fails only if the network or the storage did. Its promise is rejected
    if and only if one of its own accesses to the storage was; the strategy's error response
    comes only after its own request failed; and what is recorded of its request is what happened.
   */
  lemma FailureHasCause(origin: string, s0: State, evs: seq<Event>, s: State, t: nat)
    requires Starts(s0) && Reaches(origin, s0, evs, s) && t < |s.tasks|
    ensures forall net :: s.tasks[t].asked == Some(net) <==> Answered(t, net) in evs
    ensures s.tasks[t].stage == Done(StorageError) <==> Rejected(t) in evs
    ensures s.tasks[t].stage == Done(ErrorResponse) ==> Answered(t, Down) in evs
  {
    TracedRun(origin, s0, [], evs, s, t);
    assert [] + evs == evs;
    RunKeepsSince(origin, s0, evs, s, s0.st.next, 0, 0);
    assert TaskOk(origin, s, s0.st.next, 0, s.tasks[t]);
  }

  /**
    In every run: a page is answered with the network's own answer to this request; or, if it
    asks cache-first or the network is down, with an ok answer the network once gave for the
    same URL; or, network-first and down, with one for "/"; or, only when down, with an error;
    or, only when the storage rejects an access of this event, with nothing at all. What comes
    last in a strategy comes only after the request's own URL was looked up and missed.
   */
  lemma AnswersAreHonest(origin: string, s0: State, evs: seq<Event>, s: State, t: nat)
    requires Starts(s0) && Reaches(origin, s0, evs, s) && t < |s.tasks| && s.tasks[t].stage.Done?
    ensures !StartsWith(s.tasks[t].url.pathname, "/api/")
    ensures AnswerOk(origin, s, 0, s.tasks[t], s.tasks[t].stage.answer)
    ensures s.tasks[t].stage.answer.StorageError? <==> Rejected(t) in evs
    ensures IsFallback(s.tasks[t]) ==> MissedOwn(origin, s0, evs, t, s.tasks[t].url)
  {
    FailureHasCause(origin, s0, evs, s, t);
    RunKeepsSince(origin, s0, evs, s, s0.st.next, 0, 0);
    assert TaskOk(origin, s, s0.st.next, 0, s.tasks[t]) && Sane(s, s.tasks[t]);
    if IsFallback(s.tasks[t]) { FallbackMissed(origin, s0, evs, s, t); }
  }

  /** The network never gives anything but `r` for `u`. */
  ghost predicate Constant(s: State, u: Url, r: Response) {
    forall k :: 0 <= k < |s.served| && s.served[k].url == u ==> s.served[k].r == r
  }

  /**
    When the content behind a URL never changes, cache-first cannot be told from asking the
    network: every answer is that content, or an error for a request the network failed or for
    a rejected access to the storage.
   */
  lemma CacheFirstIsTransparent(origin: string, s0: State, evs: seq<Event>, s: State, t: nat, r: Response)
    requires Starts(s0) && Reaches(origin, s0, evs, s) && t < |s.tasks| && s.tasks[t].stage.Done?
    requires s.tasks[t].strategy.CacheFirst? && Constant(s, s.tasks[t].url, r)
    ensures match s.tasks[t].stage.answer
            case Given(got, _) => got == r
            case ErrorResponse => s.tasks[t].asked == Some(Down)
            case StorageError => Rejected(t) in evs
  {
    AnswersAreHonest(origin, s0, evs, s, t);
    assert s.served[0..] == s.served;
  }

  /**
    Network-first gives the network's answer whenever there is one, and asks the network if and
    only if the cache could be opened: `caches.open` stands before the `try`.
   */
  lemma NetworkFirstPrefersNetwork(origin: string, s0: State, evs: seq<Event>, s: State, t: nat)
    requires Starts(s0) && Reaches(origin, s0, evs, s) && t < |s.tasks| && s.tasks[t].stage.Done?
    requires s.tasks[t].strategy.NetworkFirst?
    ensures s.tasks[t].asked.Some? <==> Opened(t) in evs
    ensures s.tasks[t].asked.None? ==> Rejected(t) in evs && s.tasks[t].stage.answer == StorageError
    ensures forall r :: s.tasks[t].asked == Some(Reply(r)) <==> s.tasks[t].stage.answer == Given(r, FromNetwork)
  {
    AnswersAreHonest(origin, s0, evs, s, t);
    OpenedRun(origin, s0, [], evs, s, t);
    assert [] + evs == evs;
  }

  /** A network-first event has been opened exactly if it got as far as its request. */
  predicate OpenedIsKnown(s: State, evs: seq<Event>, i: nat) {
    if i >= |s.tasks| then Opened(i) !in evs
    else
      var task := s.tasks[i];
      task.strategy.NetworkFirst? ==>
        && !task.stage.Looking?
        && (task.stage.Opening? ==> Opened(i) !in evs && task.asked.None?)
        && (task.stage.Asking? ==> Opened(i) in evs)
        && (task.stage.FallingBack? || task.stage.LastResort? || task.stage.Done? ==>
              (task.asked.Some? <==> Opened(i) in evs))
  }

  lemma OpenedStep(origin: string, s: State, before: seq<Event>, e: Event, i: nat)
    requires OpenedIsKnown(s, before, i) && Enabled(origin, s, e)
    ensures OpenedIsKnown(Apply(origin, s, e), before + [e], i)
  {
    assert Opened(i) in before + [e] <==> Opened(i) in before || e == Opened(i);
    hide AddAll, KeepOnly, Open, Replies, StaticAssets, PutIn;
  }

  lemma {:induction false} OpenedRun(
    origin: string, s: State, before: seq<Event>, evs: seq<Event>, t: State, i: nat)
    requires OpenedIsKnown(s, before, i) && Reaches(origin, s, evs, t)
    ensures OpenedIsKnown(t, before + evs, i)
    decreases |evs|
  {
    if evs == [] {
      assert before + evs == before;
    } else {
      OpenedStep(origin, s, before, evs[0], i);
      OpenedRun(origin, Apply(origin, s, evs[0]), before + [evs[0]], evs[1..], t, i);
      assert before + evs == before + [evs[0]] + evs[1..];
    }
  }

  lemma OnlyCurrentStep(origin: string, s: State, e: Event)
    requires s.st.names.Keys <= {CACHE} && Enabled(origin, s, e)
    ensures Apply(origin, s, e).st.names.Keys <= {CACHE}
  {
    if e.Install? {
      var (st, id) := Open(s.st);
      if AllOk(e.nets) { AddAllKeepsNames(st, id, StaticAssets(origin), e.nets); }
    }
  }

  lemma {:induction false} AddAllKeepsNames(st: Storage, id: nat, urls: seq<Url>, nets: seq<Net>)
    requires |urls| == |nets| && AllOk(nets)
    ensures AddAll(st, id, urls, nets).names == st.names
    decreases |urls|
  {
    if urls != [] { AddAllKeepsNames(PutIn(st, id, urls[0], nets[0].r), id, urls[1..], nets[1..]); }
  }

  /** Once activated, the worker's own cache is the only one there ever is. */
  lemma OnlyCurrentCacheAfterActivate(origin: string, s: State, evs: seq<Event>, t: State)
    requires Reaches(origin, Apply(origin, s, Activate), evs, t)
    ensures t.st.names.Keys <= {"amass-shell-v5"}
  {
    OnlyCurrentRun(origin, Apply(origin, s, Activate), evs, t);
  }

  lemma {:induction false} OnlyCurrentRun(origin: string, s: State, evs: seq<Event>, t: State)
    requires s.st.names.Keys <= {CACHE} && Reaches(origin, s, evs, t)
    ensures t.st.names.Keys <= {CACHE}
    decreases |evs|
  {
    if evs != [] {
      OnlyCurrentStep(origin, s, evs[0]);
      OnlyCurrentRun(origin, Apply(origin, s, evs[0]), evs[1..], t);
    }
  }

  /**
    A clear forgets for good: whatever a request made after it finds in a cache, and whatever
    the cache then holds, the network served after the clear. Puts still on their way from
    before it end up in a store that no name leads to.
   */
  lemma ClearForgets(origin: string, s0: State, before: seq<Event>, s: State, after: seq<Event>, t: State)
    requires Starts(s0) && Reaches(origin, s0, before, s) && Reaches(origin, Apply(origin, s, ClearCaches), after, t)
    ensures forall i :: |s.tasks| <= i < |t.tasks| && t.tasks[i].stage.Done? ==>
              AnswerOk(origin, t, |s.served|, t.tasks[i], t.tasks[i].stage.answer)
    ensures forall u :: CACHE in t.st.names && Find(t.st, t.st.names[CACHE], u).Some? ==>
              WasServed(t, |s.served|, u, Find(t.st, t.st.names[CACHE], u).value)
  {
    RunKeepsSince(origin, s0, before, s, s0.st.next, 0, 0);
    var c := Apply(origin, s, ClearCaches);
    var n, k, m := s.st.next, |s.served|, |s.tasks|;
    forall id | id in c.st.stores ensures StoreOk(c, n, k, id) { assert StoreOk(s, s0.st.next, 0, id); }
    forall p | 0 <= p < |c.puts| ensures PutOk(c, n, k, c.puts[p]) { assert PutOk(s, s0.st.next, 0, s.puts[p]); }
    assert Since(origin, c, n, k, m);
    RunKeepsSince(origin, c, after, t, n, k, m);
    forall i | |s.tasks| <= i < |t.tasks| && t.tasks[i].stage.Done?
      ensures AnswerOk(origin, t, k, t.tasks[i], t.tasks[i].stage.answer)
    {
      assert TaskOk(origin, t, n, k, t.tasks[i]);
    }
    forall u | CACHE in t.st.names && Find(t.st, t.st.names[CACHE], u).Some?
      ensures WasServed(t, k, u, Find(t.st, t.st.names[CACHE], u).value)
    {
      FoundIsGood(origin, t, t.st.names[CACHE], u, n, k, m);
    }
  }

  // ---------- what the cache is there for ----------

  /** The store `id` is the worker's cache and holds the URL. */
  predicate HoldsIn(s: State, id: nat, u: Url) {
    CACHE in s.st.names && s.st.names[CACHE] == id && Find(s.st, id, u).Some?
  }

  /** The worker's cache holds the URL. */
  predicate Holds(s: State, u: Url) {
    CACHE in s.st.names && HoldsIn(s, s.st.names[CACHE], u)
  }

  /**
    Where a fetch event for a URL that the cache `id` holds stands, and what it is answered from,
    unless an access to the storage is rejected.
   */
  predicate InReach(task: Task, id: nat) {
    match task.stage
    case Opening => task.asked.None?
    case Looking(h) => h == id && task.strategy.CacheFirst?
    case Asking(h) => h == id && task.strategy.NetworkFirst?
    case FallingBack(h) => h == id && task.asked == Some(Down)
    case LastResort(_) => false
    case Done(a) =>
      a.StorageError?
      || (a.Given? && a.source == if task.strategy.CacheFirst? || task.asked == Some(Down)
                                  then FromCache else FromNetwork)
  }

  lemma {:induction false} AddAllKeepsFound(st: Storage, id: nat, urls: seq<Url>, nets: seq<Net>, i: nat, u: Url)
    requires |urls| == |nets| && AllOk(nets) && id in st.stores
    ensures Find(st, i, u).Some? ==> Find(AddAll(st, id, urls, nets), i, u).Some?
    ensures u in urls ==> Find(AddAll(st, id, urls, nets), id, u).Some?
    decreases |urls|
  {
    if urls != [] {
      var st1 := PutIn(st, id, urls[0], nets[0].r);
      AddAllKeepsFound(st1, id, urls[1..], nets[1..], i, u);
      if u == urls[0] { AddAllKeepsFound(st1, id, urls[1..], nets[1..], id, u); }
    }
  }

  /** Nothing but a clear takes an entry out of the worker's cache. */
  lemma HeldStep(origin: string, s: State, e: Event, id: nat, u: Url)
    requires HoldsIn(s, id, u) && Enabled(origin, s, e) && !e.ClearCaches?
    ensures HoldsIn(Apply(origin, s, e), id, u)
  {
    if e.Install? && AllOk(e.nets) {
      AddAllKeepsNames(s.st, id, StaticAssets(origin), e.nets);
      AddAllKeepsFound(s.st, id, StaticAssets(origin), e.nets, id, u);
    }
  }

  lemma {:induction false} HeldRun(origin: string, s: State, evs: seq<Event>, t: State, id: nat, u: Url, m: nat)
    requires Reaches(origin, s, evs, t) && ClearCaches !in evs && HoldsIn(s, id, u) && m <= |s.tasks|
    requires forall i :: m <= i < |s.tasks| && s.tasks[i].url == u ==> InReach(s.tasks[i], id)
    ensures HoldsIn(t, id, u)
    ensures forall i :: m <= i < |t.tasks| && t.tasks[i].url == u ==> InReach(t.tasks[i], id)
    decreases |evs|
  {
    if evs != [] {
      assert evs[0] != ClearCaches;
      HeldStep(origin, s, evs[0], id, u);
      HeldRun(origin, Apply(origin, s, evs[0]), evs[1..], t, id, u, m);
    }
  }

  /**
    What the cache holds it goes on to hold and to serve, until a clear: every later request for
    the URL gets an answer, cache-first from the cache, network-first from the network if it
    answers and from the cache if it does not. Neither "/" nor an error is served in its place;
    it fails only if the storage rejects one of its own accesses.
   */
  lemma HeldEntryServes(origin: string, s: State, evs: seq<Event>, t: State, u: Url)
    requires Holds(s, u) && Reaches(origin, s, evs, t) && ClearCaches !in evs
    ensures Holds(t, u)
    ensures forall i :: |s.tasks| <= i < |t.tasks| && t.tasks[i].url == u && t.tasks[i].stage.Done? ==>
              && InReach(t.tasks[i], t.st.names[CACHE])
              && (t.tasks[i].stage.answer.StorageError? <==> Rejected(i) in evs)
  {
    HeldRun(origin, s, evs, t, s.st.names[CACHE], u, |s.tasks|);
    forall i: nat | |s.tasks| <= i < |t.tasks|
      ensures t.tasks[i].stage == Done(StorageError) <==> Rejected(i) in evs
    {
      TracedRun(origin, s, [], evs, t, i);
      assert [] + evs == evs;
    }
  }

  /** Where a page request stands that looks up, if need be, the store `id`, which holds "/". */
  predicate HomeInReach(task: Task, id: nat) {
    task.strategy.NetworkFirst? ==>
      && (Handle(task.stage).Some? ==> Handle(task.stage) == Some(id))
      && !task.stage.Looking?
      && task.stage != Done(ErrorResponse)
  }

  lemma {:induction false} HomeRun(origin: string, s: State, evs: seq<Event>, t: State, id: nat, m: nat)
    requires Reaches(origin, s, evs, t) && ClearCaches !in evs && HoldsIn(s, id, Url(origin, "/", "")) && m <= |s.tasks|
    requires forall i :: m <= i < |s.tasks| ==> HomeInReach(s.tasks[i], id)
    ensures forall i :: m <= i < |t.tasks| ==> HomeInReach(t.tasks[i], id)
    decreases |evs|
  {
    if evs != [] {
      assert evs[0] != ClearCaches;
      HeldStep(origin, s, evs[0], id, Url(origin, "/", ""));
      HomeStep(origin, s, evs[0], id, m);
      HomeRun(origin, Apply(origin, s, evs[0]), evs[1..], t, id, m);
    }
  }

  lemma HomeStep(origin: string, s: State, e: Event, id: nat, m: nat)
    requires HoldsIn(s, id, Url(origin, "/", "")) && Enabled(origin, s, e) && m <= |s.tasks|
    requires forall i :: m <= i < |s.tasks| ==> HomeInReach(s.tasks[i], id)
    ensures var s' := Apply(origin, s, e);
            m <= |s'.tasks| && forall i :: m <= i < |s'.tasks| ==> HomeInReach(s'.tasks[i], id)
  {
    hide AddAll, KeepOnly, Replies, StaticAssets, PutIn;
  }

  /**
    As long as the cache holds "/" and is not cleared, no later page request ends in the error
    response; and one that is answered from "/" gets an ok answer the network gave for "/".
   */
  lemma HomeIsLastResort(origin: string, s0: State, before: seq<Event>, s: State, evs: seq<Event>, t: State)
    requires Starts(s0) && Reaches(origin, s0, before, s) && Holds(s, Url(origin, "/", ""))
    requires Reaches(origin, s, evs, t) && ClearCaches !in evs
    ensures forall i :: |s.tasks| <= i < |t.tasks| && t.tasks[i].strategy.NetworkFirst? ==>
              t.tasks[i].stage != Done(ErrorResponse)
    ensures forall i, r :: |s.tasks| <= i < |t.tasks| && t.tasks[i].stage == Done(Given(r, FromHome)) ==>
              200 <= r.status <= 299 && Served(Url(origin, "/", ""), r) in t.served
  {
    HomeRun(origin, s, evs, t, s.st.names[CACHE], |s.tasks|);
    RunKeepsSince(origin, s0, before, s, s0.st.next, 0, 0);
    RunKeepsSince(origin, s, evs, t, s0.st.next, 0, 0);
    assert t.served[0..] == t.served;
    forall i, r | |s.tasks| <= i < |t.tasks| && t.tasks[i].stage == Done(Given(r, FromHome))
      ensures 200 <= r.status <= 299 && Served(Url(origin, "/", ""), r) in t.served
    {
      assert TaskOk(origin, t, s0.st.next, 0, t.tasks[i]);
    }
  }

  /** From an install that fetched everything on, every static asset is held, until a clear. */
  lemma InstalledAssetsAreHeld(origin: string, s: State, nets: seq<Net>, evs: seq<Event>, t: State, u: Url)
    requires StorageOk(s.st) && |nets| == |StaticAssets(origin)|
    requires forall k :: 0 <= k < |nets| ==> nets[k].Reply? && 200 <= nets[k].r.status <= 299
    requires u.origin == origin && u.search == ""
    requires u.pathname in ["/manifest.webmanifest", "/icon-192.svg", "/icon-512.svg"]
    requires Reaches(origin, Apply(origin, s, Install(nets)), evs, t) && ClearCaches !in evs
    ensures Holds(t, u)
  {
    var (st, id) := Open(s.st);
    AddAllKeepsNames(st, id, StaticAssets(origin), nets);
    AddAllKeepsFound(st, id, StaticAssets(origin), nets, id, u);
    HeldEntryServes(origin, Apply(origin, s, Install(nets)), evs, t, u);
  }

  /** Event `i`, for `u`, works on the store `id`, which is the worker's cache. */
  predicate Tracks(s: State, i: nat, id: nat, u: Url) {
    && CACHE in s.st.names && s.st.names[CACHE] == id && id in s.st.stores
    && i < |s.tasks| && s.tasks[i].url == u && !s.tasks[i].stage.Opening?
    && (Handle(s.tasks[i].stage).Some? ==> Handle(s.tasks[i].stage) == Some(id))
  }

  /** The URL is in the store `id`, or a put on its way will bring it there. */
  ghost predicate OnItsWay(s: State, id: nat, u: Url) {
    Find(s.st, id, u).Some? || exists p :: 0 <= p < |s.puts| && s.puts[p].id == id && s.puts[p].url == u
  }

  lemma TracksStep(origin: string, s: State, e: Event, i: nat, id: nat, u: Url)
    requires Tracks(s, i, id, u) && Enabled(origin, s, e) && !e.ClearCaches?
    ensures Tracks(Apply(origin, s, e), i, id, u)
    ensures Find(s.st, id, u).Some? ==> Find(Apply(origin, s, e).st, id, u).Some?
  {
    if e.Install? && AllOk(e.nets) {
      hide StaticAssets;
      AddAllKeepsNames(s.st, id, StaticAssets(origin), e.nets);
      AddAllKeepsFound(s.st, id, StaticAssets(origin), e.nets, id, u);
      AddAllKeepsStores(s.st, id, StaticAssets(origin), e.nets);
    }
  }

  lemma OnItsWayStep(origin: string, s: State, e: Event, i: nat, id: nat, u: Url)
    requires Tracks(s, i, id, u) && Enabled(origin, s, e) && !e.ClearCaches? && !e.NotStored?
    ensures OnItsWay(s, id, u) || (e.Answered? && e.t == i && e.net.Reply? && e.net.r.Ok()) ==>
              OnItsWay(Apply(origin, s, e), id, u)
  {
    var s' := Apply(origin, s, e);
    TracksStep(origin, s, e, i, id, u);
    hide AddAll, StaticAssets, KeepOnly, Route, Replies;
    if e.Answered? && e.t == i && e.net.Reply? && e.net.r.Ok() {
      assert s'.puts[|s.puts|].id == id && s'.puts[|s.puts|].url == u;
    } else if OnItsWay(s, id, u) && Find(s.st, id, u).None? {
      var p :| 0 <= p < |s.puts| && s.puts[p].id == id && s.puts[p].url == u;
      if !e.Stored? || p < e.p {
        assert s'.puts[p] == s.puts[p];
      } else if p > e.p {
        assert s'.puts[p - 1] == s.puts[p];
      }
    }
  }

  lemma {:induction false} AddAllKeepsStores(st: Storage, id: nat, urls: seq<Url>, nets: seq<Net>)
    requires |urls| == |nets| && AllOk(nets)
    ensures AddAll(st, id, urls, nets).stores.Keys == st.stores.Keys
    decreases |urls|
  {
    if urls != [] { AddAllKeepsStores(PutIn(st, id, urls[0], nets[0].r), id, urls[1..], nets[1..]); }
  }

  lemma {:induction false} OnItsWayRun(
    origin: string, s: State, evs: seq<Event>, t: State, i: nat, id: nat, u: Url, r: Response)
    requires Tracks(s, i, id, u) && Reaches(origin, s, evs, t) && r.Ok()
    requires forall e :: e in evs ==> !e.ClearCaches? && !e.NotStored?
    requires OnItsWay(s, id, u) || Answered(i, Reply(r)) in evs
    ensures Tracks(t, i, id, u) && OnItsWay(t, id, u)
    decreases |evs|
  {
    if evs != [] {
      assert evs[0] in evs;
      TracksStep(origin, s, evs[0], i, id, u);
      OnItsWayStep(origin, s, evs[0], i, id, u);
      assert evs == [evs[0]] + evs[1..];
      OnItsWayRun(origin, Apply(origin, s, evs[0]), evs[1..], t, i, id, u, r);
    }
  }

  /**
    An ok reply is kept: if, from the moment a fetch event opened the cache, no clear came and
    no put failed, then once the puts are through the cache holds the URL the network answered.
   */
  lemma OkReplyIsHeld(origin: string, s: State, i: nat, evs: seq<Event>, t: State, r: Response)
    requires StorageOk(s.st) && Enabled(origin, s, Opened(i)) && Reaches(origin, Apply(origin, s, Opened(i)), evs, t)
    requires forall e :: e in evs ==> !e.ClearCaches? && !e.NotStored?
    requires Answered(i, Reply(r)) in evs && 200 <= r.status <= 299 && t.puts == []
    ensures Holds(t, s.tasks[i].url)
  {
    OnItsWayRun(origin, Apply(origin, s, Opened(i)), evs, t, i, Open(s.st).1, s.tasks[i].url, r);
  }

  // ---------- a fetch event run without interruption ----------

  /** The answer of `networkFirst` over what a store holds: network, else cache, else "/", else an error. */
  function NetworkFirstAnswer(origin: string, st: Storage, id: nat, u: Url, net: Net): Answer {
    if net.Reply? then Given(net.r, FromNetwork)
    else if Find(st, id, u).Some? then Given(Find(st, id, u).value, FromCache)
    else if Find(st, id, Home(origin)).Some? then Given(Find(st, id, Home(origin)).value, FromHome)
    else ErrorResponse
  }

  /** The answer of `cacheFirst`: cache, else network, else an error. */
  function CacheFirstAnswer(st: Storage, id: nat, u: Url, net: Net): Answer {
    if Find(st, id, u).Some? then Given(Find(st, id, u).value, FromCache)
    else if net.Reply? then Given(net.r, FromNetwork)
    else ErrorResponse
  }

  function StrategyAnswer(origin: string, strategy: Strategy, st: Storage, id: nat, u: Url, net: Net): Answer {
    if strategy.NetworkFirst? then NetworkFirstAnswer(origin, st, id, u, net) else CacheFirstAnswer(st, id, u, net)
  }

  /** An ok reply that is returned is also put into the cache. */
  function PutsFor(a: Answer, id: nat, u: Url): seq<Put> {
    if a.Given? && a.source == FromNetwork && a.r.Ok() then [Put(id, u, a.r)] else []
  }

  /** A step of event `i`, whose request, if it is sent, meets `net`. */
  predicate OwnStep(e: Event, i: nat, net: Net) {
    e == Opened(i) || e == Looked(i) || e == Answered(i, net) || e == FellBack(i) || e == SawHome(i)
  }

  /** A step of the event, or a rejected access to the storage. */
  predicate OwnEnd(e: Event, i: nat, net: Net) {
    OwnStep(e, i, net) || e == Rejected(i)
  }

  function StepsLeft(task: Task): nat {
    match task.stage
    case Opening => 4
    case Looking(_) => 2
    case Asking(_) => if task.strategy.CacheFirst? then 1 else 3
    case FallingBack(_) => 2
    case LastResort(_) => 1
    case Done(_) => 0
  }

  /** How far event `i` has come by itself since the fetch reached the worker in state `s`. */
  predicate OnTrack(origin: string, s: State, t: State, req: Request, net: Net)
    requires Route(req).Some?
  {
    var i, strategy, u := |s.tasks|, Route(req).value, req.url;
    var (st, id) := Open(s.st);
    && i < |t.tasks| && t.tasks[i].url == u && t.tasks[i].strategy == strategy
    && t.st == (if t.tasks[i].stage.Opening? then s.st else st)
    && (Handle(t.tasks[i].stage).Some? ==> Handle(t.tasks[i].stage) == Some(id))
    && match t.tasks[i].stage
       case Opening => t.puts == s.puts
       case Looking(_) => t.puts == s.puts && strategy.CacheFirst?
       case Asking(_) => t.puts == s.puts && (strategy.CacheFirst? ==> Find(st, id, u).None?)
       case FallingBack(_) => t.puts == s.puts && strategy.NetworkFirst? && net.Down?
       case LastResort(_) => t.puts == s.puts && strategy.NetworkFirst? && net.Down? && Find(st, id, u).None?
       case Done(a) =>
         && a == StrategyAnswer(origin, strategy, st, id, u, net)
         && t.puts == s.puts + PutsFor(a, id, u)
  }

  lemma TrackStep(origin: string, s: State, t: State, req: Request, net: Net, e: Event)
    requires Route(req).Some? && OnTrack(origin, s, t, req, net) && Enabled(origin, t, e) && OwnStep(e, |s.tasks|, net)
    ensures OnTrack(origin, s, Apply(origin, t, e), req, net)
    ensures StepsLeft(Apply(origin, t, e).tasks[|s.tasks|]) < StepsLeft(t.tasks[|s.tasks|])
  {
  }

  /** The event ended in a rejection, with no put under way. */
  predicate Failed(s: State, t: State) {
    |s.tasks| < |t.tasks| && t.tasks[|s.tasks|].stage == Done(StorageError) && t.puts == s.puts
  }

  /** A fetch event that is done takes no further steps. */
  lemma NothingAfterEnd(origin: string, s: State, evs: seq<Event>, t: State, i: nat, net: Net)
    requires i < |s.tasks| && s.tasks[i].stage.Done? && Reaches(origin, s, evs, t)
    requires forall k :: 0 <= k < |evs| ==> OwnEnd(evs[k], i, net)
    ensures evs == [] && t == s
  {
    assert forall e :: OwnEnd(e, i, net) ==> !Enabled(origin, s, e);
  }

  lemma {:induction false} StaysOnTrack(
    origin: string, s: State, t: State, req: Request, net: Net, evs: seq<Event>, t': State)
    requires Route(req).Some? && OnTrack(origin, s, t, req, net) && Reaches(origin, t, evs, t')
    requires forall k :: 0 <= k < |evs| ==> OwnEnd(evs[k], |s.tasks|, net)
    ensures if Rejected(|s.tasks|) in evs then Failed(s, t') else OnTrack(origin, s, t', req, net)
    ensures |s.tasks| < |t'.tasks|
    ensures |evs| + StepsLeft(t'.tasks[|s.tasks|]) <= StepsLeft(t.tasks[|s.tasks|])
    decreases |evs|
  {
    if evs != [] {
      var i, e := |s.tasks|, evs[0];
      assert OwnEnd(e, i, net) && evs == [e] + evs[1..];
      var t1 := Apply(origin, t, e);
      if e == Rejected(i) {
        NothingAfterEnd(origin, t1, evs[1..], t', i, net);
      } else {
        TrackStep(origin, s, t, req, net, e);
        StaysOnTrack(origin, s, t1, req, net, evs[1..], t');
      }
    }
  }

  /** The next step of a fetch event. */
  function NextStep(task: Task, i: nat, net: Net): Event {
    match task.stage
    case Opening => Opened(i)
    case Looking(_) => Looked(i)
    case Asking(_) => Answered(i, net)
    case FallingBack(_) => FellBack(i)
    case LastResort(_) => SawHome(i)
    case Done(_) => Opened(i)
  }

  /**
    A fetch event that nothing interrupts, whatever order its steps could take: it goes on until
    it is done, after at most four steps. If the storage rejected one, it failed; otherwise it is
    answered as its strategy says from what the store held and what the network did, with a put
    under way exactly for an ok reply it returns.
   */
  lemma UninterruptedFetch(origin: string, s: State, req: Request, net: Net, evs: seq<Event>, t: State)
    requires Route(req).Some? && Reaches(origin, Apply(origin, s, Fetch(req)), evs, t)
    requires forall e :: e in evs ==> OwnEnd(e, |s.tasks|, net)
    ensures |evs| <= 4 && |s.tasks| < |t.tasks|
    ensures var task := t.tasks[|s.tasks|]; !task.stage.Done? ==> Enabled(origin, t, NextStep(task, |s.tasks|, net))
    ensures Rejected(|s.tasks|) in evs ==> Failed(s, t)
    ensures var (stage, (st, id)) := (t.tasks[|s.tasks|].stage, Open(s.st));
            Rejected(|s.tasks|) !in evs && stage.Done? ==>
              && stage.answer == StrategyAnswer(origin, Route(req).value, st, id, req.url, net)
              && t.st == st
              && t.puts == s.puts + PutsFor(stage.answer, id, req.url)
  {
    StaysOnTrack(origin, s, Apply(origin, s, Fetch(req)), req, net, evs, t);
  }

  /** A page is lost although the network would have answered: its cache could not be opened, and nobody asked. */
  lemma UnopenedCacheFailsPage(origin: string, s: State, req: Request) returns (t: State)
    requires Route(req) == Some(NetworkFirst)
    ensures Reaches(origin, s, [Fetch(req), Rejected(|s.tasks|)], t) && Failed(s, t)
    ensures t.tasks[|s.tasks|].asked.None? && t.served == s.served
  {
    var evs := [Fetch(req), Rejected(|s.tasks|)];
    assert evs[1..] == [Rejected(|s.tasks|)] && evs[1..][1..] == [];
    t := Apply(origin, Apply(origin, s, Fetch(req)), Rejected(|s.tasks|));
    assert Reaches(origin, t, [], t);
    assert Reaches(origin, Apply(origin, s, Fetch(req)), evs[1..], t);
  }

  // ---------- the worker's own code, segment by segment ----------

  /**
    The worker over the browser's cache storage. Each method is the code between two awaits; its
    contract is the step it takes.
   */
  class Worker {
    const origin: string
    ghost const first: nat  // stores from here on are this worker's
    var names: map<string, nat>
    var stores: map<nat, Entries>
    var next: nat
    var tasks: seq<Task>
    var puts: seq<Put>
    ghost var served: seq<Served>

    ghost function View(): State
      reads this
    {
      State(Storage(names, stores, next), tasks, puts, served)
    }

    ghost predicate Valid()
      reads this
    {
      Since(origin, View(), first, 0, 0)
    }

    /** The script starts over whatever other versions left in the storage. */
    constructor (origin: string, names: map<string, nat>, stores: map<nat, Entries>, next: nat)
      requires StorageOk(Storage(names, stores, next)) && CACHE !in names
      ensures Valid() && Starts(View()) && View().st == Storage(names, stores, next) && this.origin == origin
    {
      this.origin, this.first, this.names, this.stores, this.next := origin, next, names, stores, next;
      tasks, puts, served := [], [], [];
    }

    /** The fetch listener: answer by a strategy, or leave the request to the browser. */
    method OnFetch(req: Request)
      requires Valid()
      modifies this
      ensures Valid() && View() == Apply(origin, old(View()), Fetch(req))
    {
      StepKeepsSince(origin, View(), Fetch(req), first, 0, 0);
      if req.verb != "GET" || StartsWith(req.url.pathname, "/api/") {
        return;
      }
      if StartsWith(req.url.pathname, "/assets/") {
        tasks := tasks + [Task(req.url, CacheFirst, Opening, None)];
      } else if req.document {
        tasks := tasks + [Task(req.url, NetworkFirst, Opening, None)];
      } else {
        tasks := tasks + [Task(req.url, CacheFirst, Opening, None)];
      }
    }

    /** caches.open(CACHE) */
    method OpenCache() returns (id: nat)
      modifies this`names, this`stores, this`next
      ensures (View().st, id) == Open(old(View().st))
    {
      if CACHE !in names {
        names, stores, next := names[CACHE := next], stores[next := map[]], next + 1;
        return next - 1;
      }
      id := names[CACHE];
    }

    /** The cache is open: `cacheFirst` looks the request up, `networkFirst` sends it. */
    method OnOpened(i: nat)
      requires Valid() && Enabled(origin, View(), Opened(i))
      modifies this
      ensures Valid() && View() == Apply(origin, old(View()), Opened(i))
    {
      StepKeepsSince(origin, View(), Opened(i), first, 0, 0);
      var id := OpenCache();
      var task := tasks[i];
      if task.strategy.CacheFirst? {
        tasks := tasks[i := task.(stage := Looking(id))];
      } else {
        tasks := tasks[i := task.(stage := Asking(id))];
      }
    }

    /** `cacheFirst` after cache.match. */
    method OnLooked(i: nat)
      requires Valid() && Enabled(origin, View(), Looked(i))
      modifies this
      ensures Valid() && View() == Apply(origin, old(View()), Looked(i))
    {
      StepKeepsSince(origin, View(), Looked(i), first, 0, 0);
      var task := tasks[i];
      var id := task.stage.id;
      if id in stores && task.url in stores[id] {
        tasks := tasks[i := task.(stage := Done(Given(stores[id][task.url], FromCache)))];
      } else {
        tasks := tasks[i := task.(stage := Asking(id))];
      }
    }

    /** fetch is back, or threw: keep an ok response, return it, or go on without. */
    method OnAnswered(i: nat, net: Net)
      requires Valid() && Enabled(origin, View(), Answered(i, net))
      modifies this
      ensures Valid() && View() == Apply(origin, old(View()), Answered(i, net))
    {
      StepKeepsSince(origin, View(), Answered(i, net), first, 0, 0);
      var task := tasks[i].(asked := Some(net));
      var id := task.stage.id;
      if net.Reply? {
        served := served + [Served(task.url, net.r)];
        if net.r.Ok() {
          puts := puts + [Put(id, task.url, net.r)];
        }
        task := task.(stage := Done(Given(net.r, FromNetwork)));
      } else if task.strategy.CacheFirst? {
        task := task.(stage := Done(ErrorResponse));
      } else {
        task := task.(stage := FallingBack(id));
      }
      tasks := tasks[i := task];
    }

    /** `networkFirst` after cache.match(request). */
    method OnFellBack(i: nat)
      requires Valid() && Enabled(origin, View(), FellBack(i))
      modifies this
      ensures Valid() && View() == Apply(origin, old(View()), FellBack(i))
    {
      StepKeepsSince(origin, View(), FellBack(i), first, 0, 0);
      var task := tasks[i];
      var id := task.stage.id;
      if id in stores && task.url in stores[id] {
        tasks := tasks[i := task.(stage := Done(Given(stores[id][task.url], FromCache)))];
      } else {
        tasks := tasks[i := task.(stage := LastResort(id))];
      }
    }

    /** `networkFirst` after cache.match('/'). */
    method OnSawHome(i: nat)
      requires Valid() && Enabled(origin, View(), SawHome(i))
      modifies this
      ensures Valid() && View() == Apply(origin, old(View()), SawHome(i))
    {
      StepKeepsSince(origin, View(), SawHome(i), first, 0, 0);
      var task := tasks[i];
      var id := task.stage.id;
      if id in stores && Home(origin) in stores[id] {
        tasks := tasks[i := task.(stage := Done(Given(stores[id][Home(origin)], FromHome)))];
      } else {
        tasks := tasks[i := task.(stage := Done(ErrorResponse))];
      }
    }

    /** caches.open or cache.match is rejected outside every `try`: so is the promise the page waits for. */
    method OnStorageRejected(i: nat)
      requires Valid() && Enabled(origin, View(), Rejected(i))
      modifies this
      ensures Valid() && View() == Apply(origin, old(View()), Rejected(i))
    {
      StepKeepsSince(origin, View(), Rejected(i), first, 0, 0);
      tasks := tasks[i := tasks[i].(stage := Done(StorageError))];
    }

    /** A cache.put that nobody awaits comes through, or fails without anyone noticing. */
    method OnPut(p: nat, works: bool)
      requires Valid() && p < |puts|
      modifies this
      ensures Valid() && View() == Apply(origin, old(View()), if works then Stored(p) else NotStored(p))
    {
      StepKeepsSince(origin, View(), if works then Stored(p) else NotStored(p), first, 0, 0);
      var put := puts[p];
      if works && put.id in stores {
        stores := stores[put.id := stores[put.id][put.url := put.r]];
      }
      puts := puts[..p] + puts[p + 1..];
    }

    /** install: fetch the static assets, and keep them only if every one is answered with ok. */
    method OnInstall(nets: seq<Net>) returns (ok: bool)
      requires Valid() && |nets| == |StaticAssets(origin)|
      modifies this
      ensures ok <==> AllOk(nets)
      ensures Valid() && View() == Apply(origin, old(View()), Install(nets))
    {
      StepKeepsSince(origin, View(), Install(nets), first, 0, 0);
      var id := OpenCache();
      var urls := StaticAssets(origin);
      served := served + Replies(urls, nets);
      for k := 0 to |nets|
        invariant forall j :: 0 <= j < k ==> nets[j].Reply? && nets[j].r.Ok()
      {
        if nets[k].Down? || !nets[k].r.Ok() { return false; }
      }
      PutAll(id, urls, nets);
      ok := true;
    }

    /** The puts of cache.addAll, once every response is there and ok. */
    method PutAll(id: nat, urls: seq<Url>, nets: seq<Net>)
      requires |urls| == |nets| && AllOk(nets)
      modifies this`stores
      ensures View().st == AddAll(old(View().st), id, urls, nets)
    {
      for k := 0 to |urls|
        invariant AddAll(View().st, id, urls[k..], nets[k..]) == AddAll(old(View().st), id, urls, nets)
      {
        if id in stores {
          stores := stores[id := stores[id][urls[k] := nets[k].r]];
        }
        assert urls[k..][1..] == urls[k + 1..] && nets[k..][1..] == nets[k + 1..];
      }
    }

    /** caches.keys() and caches.delete of each name that is not kept. */
    method DeleteOthers(kept: set<string>)
      modifies this`names
      ensures View().st == KeepOnly(old(View().st), kept)
    {
      var keys := names.Keys;
      while keys != {}
        invariant keys <= old(names).Keys
        invariant names.Keys <= old(names).Keys && forall k :: k in names ==> names[k] == old(names)[k]
        invariant forall k :: k in old(names) ==> (k in names <==> k in kept || k in keys)
        decreases keys
      {
        var k :| k in keys;
        keys := keys - {k};
        if k !in kept { names := names - {k}; }
      }
      assert names == KeepOnly(old(View().st), kept).names;
    }

    method OnActivate()
      requires Valid()
      modifies this
      ensures Valid() && View() == Apply(origin, old(View()), Activate)
    {
      StepKeepsSince(origin, View(), Activate, first, 0, 0);
      DeleteOthers({CACHE});
    }

    method OnMessage(kind: string)
      requires Valid()
      modifies this
      ensures Valid()
      ensures View() == if kind == "CLEAR_CACHES" then Apply(origin, old(View()), ClearCaches) else old(View())
    {
      if kind == "CLEAR_CACHES" {
        StepKeepsSince(origin, View(), ClearCaches, first, 0, 0);
        DeleteOthers({});
      }
    }
  }
}
