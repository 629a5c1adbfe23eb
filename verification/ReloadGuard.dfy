/**
  The automatic reload after a deploy, guarded by a time stamp in sessionStorage that two
  components share: the router's effect (apps/web/src/router.tsx) and the error boundary
  (apps/web/src/components/ErrorBoundary.tsx).

  Main results, over every interleaving of the two: `ReloadsAreSpaced` and `ReloadsInWindow` (not
  too often), and `ReloadsIff` (but whenever a stale chunk is met and the last reload is long ago).
 */
module ReloadGuard {
  import opened Options

  const GUARD_MS := 30_000

  /** The stamp under the shared key; `Garbage` is text that Number() turns into NaN. */
  datatype Stored = Absent | Stamp(at: int) | Garbage

  /** Number(sessionStorage.getItem(flag) ?? '0'), `None` for NaN. */
  function Last(st: Stored): Option<int> {
    match st
    case Absent => Some(0)
    case Stamp(at) => Some(at)
    case Garbage => None
  }

  /** Is `now` more than the guard after the stored stamp? Never, if the stamp is not a number. */
  predicate Elapsed(st: Stored, now: int) {
    Last(st).Some? && now - Last(st).value > GUARD_MS
  }

  /** One run of a handler; the router reads the clock once to decide and once more to store. */
  datatype Event =
    | Boundary(stale: bool, now: int)
    | Router(stale: bool, decided: int, written: int)

  /** `reloads` records the stamp stored for each automatic reload; `clock` is the last reading. */
  datatype State = State(stored: Stored, reloads: seq<int>, clock: int)

  predicate Possible(s: State, e: Event) {
    match e
    case Boundary(_, now) => s.clock <= now
    case Router(_, decided, written) => s.clock <= decided <= written
  }

  function Apply(s: State, e: Event): State {
    match e
    case Boundary(stale, now) =>
      if stale && Elapsed(s.stored, now) then State(Stamp(now), s.reloads + [now], now) else s.(clock := now)
    case Router(stale, decided, written) =>
      if stale && Elapsed(s.stored, decided) then State(Stamp(written), s.reloads + [written], written)
      else s.(clock := written)
  }

  function Run(s: State, evs: seq<Event>): State
    decreases |evs|
  {
    if evs == [] then s else Run(Apply(s, evs[0]), evs[1..])
  }

  ghost predicate AllPossible(s: State, evs: seq<Event>)
    decreases |evs|
  {
    evs == [] || (Possible(s, evs[0]) && AllPossible(Apply(s, evs[0]), evs[1..]))
  }

  ghost predicate Spaced(xs: seq<int>) {
    forall i, j :: 0 <= i < j < |xs| ==> xs[j] - xs[i] > GUARD_MS
  }

  ghost predicate Inv(s: State) {
    Spaced(s.reloads) && (s.reloads != [] ==> s.stored == Stamp(s.reloads[|s.reloads| - 1]))
  }

  lemma StepKeepsInv(s: State, e: Event)
    requires Inv(s) && Possible(s, e)
    ensures Inv(Apply(s, e))
  {
  }

  lemma {:induction false} RunKeepsInv(s: State, evs: seq<Event>)
    requires Inv(s) && AllPossible(s, evs)
    ensures Inv(Run(s, evs))
    decreases |evs|
  {
    if evs != [] {
      StepKeepsInv(s, evs[0]);
      RunKeepsInv(Apply(s, evs[0]), evs[1..]);
    }
  }

  /** Whatever was stored when the session began, any two automatic reloads are more than 30 s apart. */
  lemma ReloadsAreSpaced(stored: Stored, clock: int, evs: seq<Event>)
    requires AllPossible(State(stored, [], clock), evs)
    ensures Spaced(Run(State(stored, [], clock), evs).reloads)
    ensures var xs := Run(State(stored, [], clock), evs).reloads;
            forall i, j :: 0 <= i < j < |xs| ==> xs[j] - xs[i] > 30_000
  {
    RunKeepsInv(State(stored, [], clock), evs);
  }

  /** May a session that has not reloaded yet do so, by the stamp an earlier one left? */
  predicate FreeOf(stored: Stored, now: int) {
    match stored
    case Absent => now > 30_000
    case Stamp(at) => now > at + 30_000
    case Garbage => false
  }

  lemma {:induction false} StampStays(s: State, evs: seq<Event>)
    ensures s.reloads <= Run(s, evs).reloads
    ensures Run(s, evs).reloads == s.reloads ==> Run(s, evs).stored == s.stored
    decreases |evs|
  {
    if evs != [] { StampStays(Apply(s, evs[0]), evs[1..]); }
  }

  /**
    After any run, a handler that meets an error reloads, with its own stamp, if and only if the
    error is a stale chunk and the last reload is more than 30 s ago; with no reload in this
    session so far, if the stamp it began with allows one.
   */
  lemma ReloadsIff(stored: Stored, clock: int, evs: seq<Event>, e: Event)
    requires AllPossible(State(stored, [], clock), evs)
    ensures var s := Run(State(stored, [], clock), evs);
            var (decided, written) := if e.Boundary? then (e.now, e.now) else (e.decided, e.written);
            var due := if s.reloads == [] then FreeOf(stored, decided)
                       else decided - s.reloads[|s.reloads| - 1] > 30_000;
            Apply(s, e).reloads == if e.stale && due then s.reloads + [written] else s.reloads
  {
    RunKeepsInv(State(stored, [], clock), evs);
    StampStays(State(stored, [], clock), evs);
  }

  /** How many of the stamps lie in [from, to]. */
  function CountIn(xs: seq<int>, from: int, to: int): nat {
    if xs == [] then 0
    else CountIn(xs[..|xs| - 1], from, to) + (if from <= xs[|xs| - 1] <= to then 1 else 0)
  }

  lemma {:induction false} CountUpTo(xs: seq<int>, from: int, to: int, below: int)
    requires below <= to && forall i :: 0 <= i < |xs| ==> xs[i] <= below
    ensures CountIn(xs, from, to) == CountIn(xs, from, below)
    decreases |xs|
  {
    if xs != [] { CountUpTo(xs[..|xs| - 1], from, to, below); }
  }

  lemma {:induction false} NoneInEmpty(xs: seq<int>, from: int, to: int)
    requires to < from
    ensures CountIn(xs, from, to) == 0
    decreases |xs|
  {
    if xs != [] { NoneInEmpty(xs[..|xs| - 1], from, to); }
  }

  lemma {:induction false} SpacedCount(xs: seq<int>, from: int, to: int)
    requires Spaced(xs) && from <= to
    ensures CountIn(xs, from, to) <= (to - from) / GUARD_MS + 1
    decreases |xs|
  {
    if xs != [] {
      var init, last := xs[..|xs| - 1], xs[|xs| - 1];
      if from <= last <= to {
        var below := last - GUARD_MS - 1;
        assert forall i :: 0 <= i < |init| ==> init[i] == xs[i];
        CountUpTo(init, from, to, below);
        if below < from { NoneInEmpty(init, from, below); } else { SpacedCount(init, from, below); }
      } else {
        SpacedCount(init, from, to);
      }
    }
  }

  /** Any window of T ms holds at most floor(T / 30000) + 1 automatic reloads. */
  lemma ReloadsInWindow(stored: Stored, clock: int, evs: seq<Event>, from: int, to: int)
    requires AllPossible(State(stored, [], clock), evs) && from <= to
    ensures CountIn(Run(State(stored, [], clock), evs).reloads, from, to) <= (to - from) / 30_000 + 1
  {
    ReloadsAreSpaced(stored, clock, evs);
    SpacedCount(Run(State(stored, [], clock), evs).reloads, from, to);
  }

  /** The session both components share. */
  class Session {
    var stored: Stored
    var reloads: seq<int>
    var clock: int

    ghost function View(): State
      reads this
    {
      State(stored, reloads, clock)
    }

    constructor (stored: Stored, clock: int)
      ensures View() == State(stored, [], clock)
    {
      this.stored, reloads, this.clock := stored, [], clock;
    }

    /** The guard in componentDidCatch; the result says whether the error goes on to be reported. */
    method ComponentDidCatch(stale: bool, now: int) returns (report: bool)
      requires Inv(View()) && Possible(View(), Boundary(stale, now))
      modifies this
      ensures Inv(View()) && View() == Apply(old(View()), Boundary(stale, now))
      ensures report <==> reloads == old(reloads)
    {
      clock := now;
      if stale {
        var last := Last(stored);
        if last.Some? && now - last.value > GUARD_MS {
          stored := Stamp(now);
          reloads := reloads + [now];
          return false;
        }
      }
      report := true;
    }

    /** The effect in DeployRefreshError. */
    method ReloadEffect(stale: bool, decided: int, written: int)
      requires Inv(View()) && Possible(View(), Router(stale, decided, written))
      modifies this
      ensures Inv(View()) && View() == Apply(old(View()), Router(stale, decided, written))
    {
      clock := written;
      if !stale { return; }
      var last := Last(stored);
      if last.Some? && decided - last.value > GUARD_MS {
        stored := Stamp(written);
        reloads := reloads + [written];
      }
    }
  }
}
