/**
  The language switch with its one-time load of the English catalogue
  (apps/web/src/i18n/index.ts), as a step machine over concurrent switches.

  Main results: `FetchedAtMostOnce`, `EnglishOnlyWhenComplete`, `CallsGetWhatTheyAskFor`, `UnsupportedChangesNothing`
  (calls with an unsupported locale can be deleted from a run without anything else changing),
  and `EnglishIsReachableIff`: English can still come up exactly as long as its load has not failed.
 */
module Locale {
  import opened Options

  datatype Language = Ro | En

  const DEFAULT_LOCALE := Ro

  /** LocaleSchema.safeParse */
  function ParseLocale(s: string): Option<Language> {
    if s == "ro" then Some(Ro) else if s == "en" then Some(En) else None
  }

  /** The keys of RO_RESOURCES, in order. */
  const NAMESPACES: seq<string> :=
    ["common", "errors", "auth", "companies", "contacts", "clients", "leads", "deals", "invoices"] +
    ["quotes", "contracts", "projects", "tasks", "calendar", "calls", "email", "cockpit", "customFields"] +
    ["notes", "reminders", "attachments", "notifications", "search", "sync", "offline", "tags", "events"] +
    ["pipelines", "products", "orders", "cases", "campaigns", "customerSubscriptions"] +
    ["contactSegments", "emailSequences", "duplicates"] +
    ["savedViews", "exports", "whatsapp", "sms", "outlook", "webhooks", "passkeys", "billing", "gdpr"] +
    ["commissions", "territories", "approvals", "forecasting", "reportBuilder", "anaf", "entityDetail"]

  /** The catalogue files imported by `loadEnResources`, in order. */
  const IMPORTS: seq<string> :=
    ["common", "errors", "auth", "companies", "contacts", "clients", "leads", "deals", "invoices"] +
    ["quotes", "contracts", "projects", "tasks", "calendar", "calls", "email", "cockpit", "customFields"] +
    ["notes", "reminders", "attachments", "notifications", "search", "sync", "offline", "tags", "events"] +
    ["pipelines", "products", "orders", "cases", "campaigns", "customerSubscriptions"] +
    ["contactSegments", "emailSequences", "duplicates"] +
    ["savedViews", "exports", "whatsapp", "sms", "outlook", "webhooks", "passkeys", "billing", "gdpr"] +
    ["commissions", "territories", "approvals", "forecasting", "reportBuilder", "anaf", "entityDetail"]

  // ---------- the catalogue ----------

  /** The English catalogue as it should be: each namespace with the content of its own file. */
  ghost function Catalogue(content: string -> string): map<string, string> {
    map ns | ns in NAMESPACES :: content(ns)
  }

  /** The loop of `loadEnResources`: position i of the namespaces gets the default export of import i. */
  method FillResources(modules: seq<string>) returns (out: map<string, string>)
    requires |modules| == |NAMESPACES|
    ensures forall ns :: ns in out <==> ns in NAMESPACES
    ensures forall ns :: ns in out ==> exists i :: 0 <= i < |NAMESPACES| && NAMESPACES[i] == ns && out[ns] == modules[i]
  {
    hide NAMESPACES;
    var names := NAMESPACES;
    out := map[];
    for i := 0 to |names|
      invariant forall ns :: ns in out <==> ns in names[..i]
      invariant forall ns :: ns in out ==> exists j :: 0 <= j < i && names[j] == ns && out[ns] == modules[j]
    {
      assert names[..i + 1] == names[..i] + [names[i]];
      out := out[names[i] := modules[i]];
    }
    assert names[..|names|] == names;
  }

  /** The import list follows the namespace list, so each namespace gets the content of its own file. */
  method LoadEnResources(content: string -> string) returns (out: map<string, string>)
    ensures out == Catalogue(content)
  {
    var modules := seq(|IMPORTS|, i requires 0 <= i < |IMPORTS| => content(IMPORTS[i]));
    assert IMPORTS == NAMESPACES;
    out := FillResources(modules);
  }

  /** The catalogue has the namespace whose presence stands for the whole of it. */
  lemma CommonIsInCatalogue(content: string -> string)
    ensures "common" in Catalogue(content)
  {
    assert NAMESPACES[0] == "common";
  }

  // ---------- switches in flight, for any catalogue with that namespace ----------

  /** enLoadPromise */
  datatype Gate = NotStarted | Pending | Loaded | Failed

  datatype Phase = AwaitingLoad | Switching(target: Language) | Returned(result: Language) | Threw

  datatype State = State(gate: Gate, bundles: map<string, string>, language: Language, calls: seq<Phase>, fetches: nat)

  datatype Event =
    | Call(locale: string)
    | LoadEnds(ok: bool)       // Promise.all settles and the bundles, if any, are added
    | LoadAwaited(c: nat)
    | Switched(c: nat)

  predicate Enabled(s: State, e: Event) {
    match e
    case Call(_) => true
    case LoadEnds(_) => s.gate == Pending
    case LoadAwaited(c) => c < |s.calls| && s.calls[c] == AwaitingLoad && (s.gate == Loaded || s.gate == Failed)
    case Switched(c) => c < |s.calls| && s.calls[c].Switching?
  }

  ghost function Apply(catalogue: map<string, string>, s: State, e: Event): State
    requires Enabled(s, e)
  {
    match e
    case Call(locale) =>
      var parsed := ParseLocale(locale);
      if parsed.None? then s.(calls := s.calls + [Returned(DEFAULT_LOCALE)])
      else if parsed.value == En && "common" !in s.bundles then
        var s' := s.(calls := s.calls + [AwaitingLoad]);
        if s.gate == NotStarted then s'.(gate := Pending, fetches := s.fetches + 1) else s'
      else s.(calls := s.calls + [Switching(parsed.value)])
    case LoadEnds(ok) =>
      if ok then s.(gate := Loaded, bundles := s.bundles + catalogue) else s.(gate := Failed)
    case LoadAwaited(c) => s.(calls := s.calls[c := if s.gate == Loaded then Switching(En) else Threw])
    case Switched(c) =>
      var target := s.calls[c].target;
      s.(language := target, calls := s.calls[c := Returned(target)])
  }

  ghost predicate Reaches(catalogue: map<string, string>, s: State, evs: seq<Event>, t: State)
    decreases |evs|
  {
    if evs == [] then s == t
    else Enabled(s, evs[0]) && Reaches(catalogue, Apply(catalogue, s, evs[0]), evs[1..], t)
  }

  function Initial(language: Language): State {
    State(NotStarted, map[], language, [], 0)
  }

  /** The English bundles are absent or complete, and English is never under way without them. */
  ghost predicate Inv(catalogue: map<string, string>, s: State) {
    && s.fetches == (if s.gate == NotStarted then 0 else 1)
    && s.bundles == (if s.gate == Loaded then catalogue else map[])
    && forall c :: 0 <= c < |s.calls| && s.calls[c] == Switching(En) ==> s.gate == Loaded
  }

  lemma StepKeepsInv(catalogue: map<string, string>, s: State, e: Event)
    requires "common" in catalogue && Inv(catalogue, s) && Enabled(s, e)
    ensures Inv(catalogue, Apply(catalogue, s, e))
  {
    if e.LoadEnds? && e.ok { assert map[] + catalogue == catalogue; }
  }

  lemma {:induction false} RunKeepsInv(catalogue: map<string, string>, s: State, evs: seq<Event>, t: State)
    requires "common" in catalogue && Inv(catalogue, s) && Reaches(catalogue, s, evs, t)
    ensures Inv(catalogue, t)
    decreases |evs|
  {
    if evs != [] {
      StepKeepsInv(catalogue, s, evs[0]);
      RunKeepsInv(catalogue, Apply(catalogue, s, evs[0]), evs[1..], t);
    }
  }

  /** However many switches overlap, the English catalogue is fetched at most once. */
  lemma FetchedAtMostOnce(catalogue: map<string, string>, language: Language, evs: seq<Event>, s: State)
    requires "common" in catalogue && Reaches(catalogue, Initial(language), evs, s)
    ensures s.fetches <= 1
  {
    RunKeepsInv(catalogue, Initial(language), evs, s);
  }

  /** A step that turns the language to English finds every namespace registered with its own content. */
  lemma EnglishOnlyWhenComplete(
    catalogue: map<string, string>, language: Language, evs: seq<Event>, s: State, e: Event)
    requires "common" in catalogue && Reaches(catalogue, Initial(language), evs, s) && Enabled(s, e)
    requires s.language == Ro && Apply(catalogue, s, e).language == En
    ensures s.bundles == catalogue
    ensures Apply(catalogue, s, e).bundles == catalogue
  {
    RunKeepsInv(catalogue, Initial(language), evs, s);
  }

  // ---------- what a call comes to ----------

  /** The locales asked for in a run, one for each call. */
  function Asked(evs: seq<Event>): seq<string> {
    if evs == [] then []
    else Asked(evs[..|evs| - 1]) + if evs[|evs| - 1].Call? then [evs[|evs| - 1].locale] else []
  }

  /** The call whose switch took effect last. */
  function LastSwitched(evs: seq<Event>): Option<nat> {
    if evs == [] then None
    else if evs[|evs| - 1].Switched? then Some(evs[|evs| - 1].c) else LastSwitched(evs[..|evs| - 1])
  }

  lemma OneEventMore(evs: seq<Event>, e: Event)
    ensures Asked(evs + [e]) == Asked(evs) + if e.Call? then [e.locale] else []
    ensures LastSwitched(evs + [e]) == if e.Switched? then Some(e.c) else LastSwitched(evs)
  {
    assert (evs + [e])[..|evs|] == evs;
  }

  /** How far a call for a locale can have come. */
  predicate IsOnItsWay(locale: string, phase: Phase, gate: Gate) {
    if locale == "en" then phase in [Switching(En), Returned(En), AwaitingLoad] || (phase == Threw && gate == Failed)
    else if locale == "ro" then phase in [Switching(Ro), Returned(Ro)]
    else phase == Returned(Ro)
  }

  ghost predicate Told(language: Language, s: State, evs: seq<Event>) {
    && |Asked(evs)| == |s.calls|
    && (forall c :: 0 <= c < |s.calls| ==> IsOnItsWay(Asked(evs)[c], s.calls[c], s.gate))
    && match LastSwitched(evs)
       case None => s.language == language
       case Some(c) => c < |s.calls| && s.calls[c] == Returned(s.language)
  }

  lemma ToldStep(catalogue: map<string, string>, language: Language, s: State, before: seq<Event>, e: Event)
    requires Told(language, s, before) && Enabled(s, e)
    ensures Told(language, Apply(catalogue, s, e), before + [e])
  {
    OneEventMore(before, e);
    hide Asked, LastSwitched;
  }

  lemma {:induction false} ToldRun(
    catalogue: map<string, string>, language: Language, s: State, before: seq<Event>, evs: seq<Event>, t: State)
    requires Told(language, s, before) && Reaches(catalogue, s, evs, t)
    ensures Told(language, t, before + evs)
    decreases |evs|
  {
    if evs == [] {
      assert before + evs == before;
    } else {
      ToldStep(catalogue, language, s, before, evs[0]);
      ToldRun(catalogue, language, Apply(catalogue, s, evs[0]), before + [evs[0]], evs[1..], t);
      assert before + evs == before + [evs[0]] + evs[1..];
    }
  }

  /**
    In every run a call that returns gives the language it asked for, or Romanian if what it asked
    for is not supported; it throws only if it asked for English and the load failed; and the
    language is the one that the last call to switch returned.
   */
  lemma CallsGetWhatTheyAskFor(catalogue: map<string, string>, language: Language, evs: seq<Event>, s: State)
    requires Reaches(catalogue, Initial(language), evs, s)
    ensures |Asked(evs)| == |s.calls|
    ensures forall c :: 0 <= c < |s.calls| && s.calls[c].Returned? ==>
              s.calls[c].result == if Asked(evs)[c] == "en" then En else Ro
    ensures forall c :: 0 <= c < |s.calls| && s.calls[c] == Threw ==> Asked(evs)[c] == "en" && s.gate == Failed
    ensures LastSwitched(evs) == None ==> s.language == language
    ensures forall c: nat :: LastSwitched(evs) == Some(c) ==> c < |s.calls| && s.calls[c] == Returned(s.language)
  {
    ToldRun(catalogue, language, Initial(language), [], evs, s);
    assert [] + evs == evs;
  }

  // ---------- unsupported locales ----------

  predicate IsUnsupported(e: Event) { e.Call? && e.locale != "ro" && e.locale != "en" }

  /**
    The number each call of a run has once the calls with an unsupported locale are deleted from
    it; `None` for those. `ids` numbers the calls made before, `next` is the next free number.
   */
  function Renumbered(evs: seq<Event>, ids: seq<Option<nat>>, next: nat): seq<Option<nat>> {
    if evs == [] then ids
    else if IsUnsupported(evs[0]) then Renumbered(evs[1..], ids + [None], next)
    else if evs[0].Call? then Renumbered(evs[1..], ids + [Some(next)], next + 1)
    else Renumbered(evs[1..], ids, next)
  }

  /** An event that speaks of a call, under that call's new number. */
  function Renamed(e: Event, ids: seq<Option<nat>>): Event {
    match e
    case LoadAwaited(c) => if c < |ids| && ids[c].Some? then LoadAwaited(ids[c].value) else e
    case Switched(c) => if c < |ids| && ids[c].Some? then Switched(ids[c].value) else e
    case _ => e
  }

  /** The run with its unsupported calls deleted. */
  function Without(evs: seq<Event>, ids: seq<Option<nat>>, next: nat): seq<Event> {
    if evs == [] then []
    else if IsUnsupported(evs[0]) then Without(evs[1..], ids + [None], next)
    else if evs[0].Call? then [evs[0]] + Without(evs[1..], ids + [Some(next)], next + 1)
    else [Renamed(evs[0], ids)] + Without(evs[1..], ids, next)
  }

  /** The second state is the first without the calls that have no number. */
  ghost predicate SameButFor(s: State, s': State, ids: seq<Option<nat>>) {
    && s'.(calls := s.calls) == s && |ids| == |s.calls|
    && (forall c :: 0 <= c < |ids| && ids[c].None? ==> s.calls[c] == Returned(Ro))
    && (forall c :: 0 <= c < |ids| && ids[c].Some? ==>
          ids[c].value < |s'.calls| && s'.calls[ids[c].value] == s.calls[c])
    && (forall c, d :: 0 <= c < d < |ids| && ids[c].Some? && ids[d].Some? ==> ids[c].value < ids[d].value)
  }

  lemma MovedCall(s: State, c: nat, p: Phase, s': State, ids: seq<Option<nat>>)
    requires SameButFor(s, s', ids) && c < |s.calls| && ids[c].Some?
    ensures SameButFor(s.(calls := s.calls[c := p]), s'.(calls := s'.calls[ids[c].value := p]), ids)
  {
  }

  lemma NewCall(s: State, p: Phase, s': State, ids: seq<Option<nat>>)
    requires SameButFor(s, s', ids)
    ensures SameButFor(s.(calls := s.calls + [p]), s'.(calls := s'.calls + [p]), ids + [Some(|s'.calls|)])
  {
  }

  lemma SameCall(s: State, s': State, ids: seq<Option<nat>>, c: nat)
    requires SameButFor(s, s', ids) && c < |s.calls| && s.calls[c] != Returned(Ro)
    ensures |ids| == |s.calls| && ids[c].Some? && ids[c].value < |s'.calls| && s'.calls[ids[c].value] == s.calls[c]
  {
  }

  /** A change of anything but the calls, the same in both. */
  lemma SameChange(s: State, s': State, ids: seq<Option<nat>>, u: State)
    requires SameButFor(s, s', ids) && u.calls == s.calls
    ensures SameButFor(u, u.(calls := s'.calls), ids)
  {
  }

  lemma SameFields(s: State, s': State, ids: seq<Option<nat>>)
    requires SameButFor(s, s', ids)
    ensures s'.(calls := s.calls) == s && |ids| == |s.calls|
  {
  }

  /** A step of the whole run that stays is, renamed, a step of the other. */
  lemma KeptStep(catalogue: map<string, string>, s: State, e: Event, s': State, ids: seq<Option<nat>>)
    requires SameButFor(s, s', ids) && Enabled(s, e) && !IsUnsupported(e)
    ensures Enabled(s', Renamed(e, ids))
    ensures SameButFor(Apply(catalogue, s, e), Apply(catalogue, s', Renamed(e, ids)),
                       if e.Call? then ids + [Some(|s'.calls|)] else ids)
  {
    hide SameButFor;
    SameFields(s, s', ids);
    var t := Apply(catalogue, s, e);
    match e
    case Call(_) =>
      NewCall(s, t.calls[|s.calls|], s', ids);
      SameChange(s.(calls := t.calls), s'.(calls := s'.calls + [t.calls[|s.calls|]]), ids + [Some(|s'.calls|)], t);
    case LoadEnds(_) =>
      SameChange(s, s', ids, t);
    case LoadAwaited(c) =>
      SameCall(s, s', ids, c);
      MovedCall(s, c, t.calls[c], s', ids);
    case Switched(c) =>
      SameCall(s, s', ids, c);
      MovedCall(s, c, t.calls[c], s', ids);
      SameChange(s.(calls := t.calls), s'.(calls := s'.calls[ids[c].value := t.calls[c]]), ids, t);
  }

  lemma CallsGrow(catalogue: map<string, string>, s: State, e: Event)
    requires Enabled(s, e)
    ensures |Apply(catalogue, s, e).calls| == |s.calls| + if e.Call? then 1 else 0
  {
  }

  lemma DeletedStep(catalogue: map<string, string>, s: State, e: Event, s': State, ids: seq<Option<nat>>)
    requires SameButFor(s, s', ids) && IsUnsupported(e)
    ensures SameButFor(Apply(catalogue, s, e), s', ids + [None])
  {
  }

  lemma {:induction false} DeletingKeeps(
    catalogue: map<string, string>, s: State, evs: seq<Event>, t: State, s': State, ids: seq<Option<nat>>)
    returns (t': State)
    requires Reaches(catalogue, s, evs, t) && SameButFor(s, s', ids)
    ensures Reaches(catalogue, s', Without(evs, ids, |s'.calls|), t')
    ensures SameButFor(t, t', Renumbered(evs, ids, |s'.calls|))
    decreases |evs|
  {
    if evs == [] {
      t' := s';
    } else if IsUnsupported(evs[0]) {
      DeletedStep(catalogue, s, evs[0], s', ids);
      t' := DeletingKeeps(catalogue, Apply(catalogue, s, evs[0]), evs[1..], t, s', ids + [None]);
    } else {
      var e, next := Renamed(evs[0], ids), |s'.calls|;
      var ids1 := if e.Call? then ids + [Some(next)] else ids;
      KeptStep(catalogue, s, evs[0], s', ids);
      hide SameButFor, Apply, Enabled;
      var s1 := Apply(catalogue, s', e);
      assert |s1.calls| == |s'.calls| + if e.Call? then 1 else 0 by { CallsGrow(catalogue, s', e); }
      t' := DeletingKeeps(catalogue, Apply(catalogue, s, evs[0]), evs[1..], t, s1, ids1);
      assert ([e] + Without(evs[1..], ids1, |s1.calls|))[1..] == Without(evs[1..], ids1, |s1.calls|);
    }
  }

  /** The calls a run starts with keep their numbers. */
  function Numbers(n: nat): seq<Option<nat>> {
    seq(n, i requires 0 <= i < n => Some(i))
  }

  /**
    From any state on, calls with an unsupported locale all return Romanian, and the run without
    them, but with the same events otherwise, is a run too: it ends in the same language with the
    same bundles, the same gate and as many fetches, and every other call has come just as far.
   */
  lemma UnsupportedChangesNothing(catalogue: map<string, string>, s: State, evs: seq<Event>, t: State)
    returns (t': State)
    requires Reaches(catalogue, s, evs, t)
    ensures Reaches(catalogue, s, Without(evs, Numbers(|s.calls|), |s.calls|), t')
    ensures t'.(calls := t.calls) == t
    ensures var ids := Renumbered(evs, Numbers(|s.calls|), |s.calls|);
            && |ids| == |t.calls|
            && (forall c :: 0 <= c < |ids| && ids[c].None? ==> t.calls[c] == Returned(Ro))
            && (forall c :: 0 <= c < |ids| && ids[c].Some? ==>
                  ids[c].value < |t'.calls| && t'.calls[ids[c].value] == t.calls[c])
    ensures forall e :: e in Without(evs, Numbers(|s.calls|), |s.calls|) ==> !IsUnsupported(e)
  {
    t' := DeletingKeeps(catalogue, s, evs, t, s, Numbers(|s.calls|));
    WithoutHasNone(evs, Numbers(|s.calls|), |s.calls|);
  }

  lemma {:induction false} WithoutHasNone(evs: seq<Event>, ids: seq<Option<nat>>, next: nat)
    ensures forall e :: e in Without(evs, ids, next) ==> !IsUnsupported(e)
    decreases |evs|
  {
    if evs != [] {
      WithoutHasNone(evs[1..], ids + [None], next);
      WithoutHasNone(evs[1..], ids + [Some(next)], next + 1);
      WithoutHasNone(evs[1..], ids, next);
    }
  }

  // ---------- a load that fails ----------

  /** The load failed and English is not up. */
  ghost predicate NoEnglish(s: State) {
    s.gate == Failed && s.bundles == map[] && s.language == Ro
    && forall c :: 0 <= c < |s.calls| ==> s.calls[c] != Switching(En)
  }

  /** The failed promise is kept: whatever follows, the language stays Romanian and nothing is fetched again. */
  lemma {:induction false} FailureIsFinal(catalogue: map<string, string>, s: State, evs: seq<Event>, t: State)
    requires NoEnglish(s) && Reaches(catalogue, s, evs, t)
    ensures NoEnglish(t) && t.fetches == s.fetches
    decreases |evs|
  {
    if evs != [] {
      FailureIsFinal(catalogue, Apply(catalogue, s, evs[0]), evs[1..], t);
    }
  }

  /** A load that failed leaves a session that is in Romanian in such a state. */
  lemma FailedLoadMeansNoEnglish(catalogue: map<string, string>, language: Language, evs: seq<Event>, s: State)
    requires "common" in catalogue && Reaches(catalogue, Initial(language), evs, s)
    requires s.gate == Failed && s.language == Ro
    ensures NoEnglish(s)
  {
    RunKeepsInv(catalogue, Initial(language), evs, s);
  }

  /** Some continuation brings English up. */
  ghost predicate CanReachEnglish(catalogue: map<string, string>, s: State) {
    exists evs, t :: Reaches(catalogue, s, evs, t) && t.language == En
  }

  lemma Prepend(catalogue: map<string, string>, s: State, e: Event)
    requires Enabled(s, e) && CanReachEnglish(catalogue, Apply(catalogue, s, e))
    ensures CanReachEnglish(catalogue, s)
  {
    var evs, t :| Reaches(catalogue, Apply(catalogue, s, e), evs, t) && t.language == En;
    assert ([e] + evs)[1..] == evs;
    assert Reaches(catalogue, s, [e] + evs, t);
  }

  lemma SwitchingArrives(catalogue: map<string, string>, s: State, c: nat)
    requires c < |s.calls| && s.calls[c] == Switching(En)
    ensures CanReachEnglish(catalogue, s)
  {
    var t := Apply(catalogue, s, Switched(c));
    assert Reaches(catalogue, t, [], t);
    Prepend(catalogue, s, Switched(c));
  }

  /** One more call asking for English, with a load that works if one is still to come. */
  lemma EnglishComesUp(catalogue: map<string, string>, s: State)
    requires "common" in catalogue && Inv(catalogue, s) && s.gate != Failed
    ensures CanReachEnglish(catalogue, s)
  {
    var c, s1 := |s.calls|, Apply(catalogue, s, Call("en"));
    if s.gate == Loaded {
      SwitchingArrives(catalogue, s1, c);
    } else {
      var s2 := Apply(catalogue, s1, LoadEnds(true));
      SwitchingArrives(catalogue, Apply(catalogue, s2, LoadAwaited(c)), c);
      Prepend(catalogue, s2, LoadAwaited(c));
      Prepend(catalogue, s1, LoadEnds(true));
    }
    Prepend(catalogue, s, Call("en"));
  }

  /**
    In every run English can still come up, whatever happened before, if and only if it is up
    already or its load has not failed: one failure is final, as the rejected promise is kept.
   */
  lemma EnglishIsReachableIff(catalogue: map<string, string>, language: Language, evs: seq<Event>, s: State)
    requires "common" in catalogue && Reaches(catalogue, Initial(language), evs, s)
    ensures CanReachEnglish(catalogue, s) <==> s.language == En || s.gate != Failed
  {
    if s.language == En {
      assert Reaches(catalogue, s, [], s);
    } else if s.gate != Failed {
      RunKeepsInv(catalogue, Initial(language), evs, s);
      EnglishComesUp(catalogue, s);
    } else if CanReachEnglish(catalogue, s) {
      var more, t :| Reaches(catalogue, s, more, t) && t.language == En;
      FailedLoadMeansNoEnglish(catalogue, language, evs, s);
      FailureIsFinal(catalogue, s, more, t);
    }
  }

  // ---------- the module's own state ----------

  class I18n {
    const content: string -> string
    var enLoadPromise: Gate
    var bundles: map<string, string>
    var language: Language
    var calls: seq<Phase>
    ghost var fetches: nat

    ghost function View(): State
      reads this
    {
      State(enLoadPromise, bundles, language, calls, fetches)
    }

    ghost predicate Valid()
      reads this
    {
      Inv(Catalogue(content), View())
    }

    constructor (content: string -> string, language: Language)
      ensures Valid() && View() == Initial(language) && this.content == content
    {
      this.content, this.language := content, language;
      enLoadPromise, bundles, calls, fetches := NotStarted, map[], [], 0;
    }

    /** Every step keeps `Valid`: the catalogue has the namespace whose presence stands for the whole of it. */
    lemma Keep(e: Event)
      requires Valid() && Enabled(View(), e)
      ensures Inv(Catalogue(content), Apply(Catalogue(content), View(), e))
    {
      CommonIsInCatalogue(content);
      StepKeepsInv(Catalogue(content), View(), e);
    }

    /** `changeLanguageWithLoad` up to its first await. */
    method ChangeLanguageWithLoad(locale: string) returns (c: nat)
      requires Valid()
      modifies this
      ensures Valid() && View() == Apply(Catalogue(content), old(View()), Call(locale)) && c == old(|calls|)
    {
      Keep(Call(locale));
      c := |calls|;
      var parsed := ParseLocale(locale);
      if parsed.None? {
        calls := calls + [Returned(DEFAULT_LOCALE)];
        return;
      }
      if parsed.value == En && "common" !in bundles {
        if enLoadPromise == NotStarted {
          enLoadPromise := Pending;
          fetches := fetches + 1;
        }
        calls := calls + [AwaitingLoad];
      } else {
        calls := calls + [Switching(parsed.value)];
      }
    }

    /** The load settles: add every bundle, or keep the rejection. */
    method OnLoaded(ok: bool)
      requires Valid() && Enabled(View(), LoadEnds(ok))
      modifies this
      ensures Valid() && View() == Apply(Catalogue(content), old(View()), LoadEnds(ok))
    {
      Keep(LoadEnds(ok));
      if !ok {
        enLoadPromise := Failed;
        return;
      }
      hide Catalogue;
      var resources := LoadEnResources(content);
      AddResourceBundles(resources);
      enLoadPromise := Loaded;
    }

    /** i18next.addResourceBundle('en', ns, data) for every entry. */
    method AddResourceBundles(resources: map<string, string>)
      modifies this`bundles
      ensures bundles == old(bundles) + resources
    {
      var todo := resources.Keys;
      while todo != {}
        invariant todo <= resources.Keys
        invariant forall ns :: ns in bundles <==> ns in old(bundles) || (ns in resources && ns !in todo)
        invariant forall ns :: ns in bundles ==>
                    bundles[ns] == if ns in resources && ns !in todo then resources[ns] else old(bundles)[ns]
        decreases todo
      {
        var ns :| ns in todo;
        bundles := bundles[ns := resources[ns]];
        todo := todo - {ns};
      }
    }

    /** A call that awaited the load goes on, or rethrows. */
    method OnLoadAwaited(c: nat)
      requires Valid() && Enabled(View(), LoadAwaited(c))
      modifies this
      ensures Valid() && View() == Apply(Catalogue(content), old(View()), LoadAwaited(c))
    {
      Keep(LoadAwaited(c));
      if enLoadPromise == Loaded {
        calls := calls[c := Switching(En)];
      } else {
        calls := calls[c := Threw];
      }
    }

    /** i18next.changeLanguage took effect. */
    method OnSwitched(c: nat)
      requires Valid() && Enabled(View(), Switched(c))
      modifies this
      ensures Valid() && View() == Apply(Catalogue(content), old(View()), Switched(c))
    {
      Keep(Switched(c));
      language := calls[c].target;
      calls := calls[c := Returned(language)];
    }
  }
}
