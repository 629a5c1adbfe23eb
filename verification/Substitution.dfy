/**
  `Pattern.sub` for patterns of the form \b body \b: replace the leftmost, non-overlapping
  matches by a bracketed token.

  The module is generic in the character table (`word`) and in the pattern (`Matcher`: the
  language of its body and the engine that finds a match at a given start). Main results:
  a pass is a splice (`SubIsSplice`), it leaves no match of its own pattern (`SubCleans`) and
  it never creates a match of another one (`SubKeepsClean`).
 */
module Substitution {
  import opened Options

  datatype Matcher = Matcher(lang: string -> bool, find: (string, nat) -> Option<nat>)

  datatype Span = Span(start: nat, end: nat)

  // ---------- matches guarded by word boundaries ----------

  /** \b at `i` of `u`, when the character before `u` is a word character iff `before`. */
  predicate BoundaryIn(word: char -> bool, before: bool, u: string, i: nat)
    requires i <= |u|
  {
    (if i == 0 then before else word(u[i - 1])) != (i < |u| && word(u[i]))
  }

  /** A guarded match at [i, j) of a text preceded by a character of the given kind. */
  predicate MatchIn(word: char -> bool, lang: string -> bool, before: bool, u: string, i: nat, j: nat) {
    && i <= j <= |u|
    && BoundaryIn(word, before, u, i)
    && BoundaryIn(word, before, u, j)
    && lang(u[i..j])
  }

  /** A guarded match at [i, j) of a whole text. */
  predicate MatchAt(word: char -> bool, lang: string -> bool, s: string, i: nat, j: nat) {
    MatchIn(word, lang, false, s, i, j)
  }

  ghost predicate NoneStartsAt(word: char -> bool, lang: string -> bool, s: string, i: nat) {
    forall j: nat :: !MatchAt(word, lang, s, i, j)
  }

  /** No match anywhere. */
  ghost predicate Clean(word: char -> bool, lang: string -> bool, s: string) {
    forall i: nat :: NoneStartsAt(word, lang, s, i)
  }

  /** The engine reports a match exactly when one starts at the position asked for. */
  ghost predicate Faithful(word: char -> bool, m: Matcher) {
    forall s: string, i: nat :: i <= |s| ==> FaithfulAt(word, m, s, i)
  }

  ghost predicate FaithfulAt(word: char -> bool, m: Matcher, s: string, i: nat) {
    match m.find(s, i)
    case Some(j) => MatchAt(word, m.lang, s, i, j)
    case None => NoneStartsAt(word, m.lang, s, i)
  }

  /** Every body is non-empty, ends in a word character and holds no square bracket. */
  ghost predicate Sealed(word: char -> bool, lang: string -> bool) {
    && !word(']')
    && forall w: string :: lang(w) ==> w != [] && word(w[|w| - 1]) && '[' !in w && ']' !in w
  }

  /** A bracketed token no stretch of which is a body. */
  ghost predicate Inert(lang: string -> bool, token: string) {
    && |token| >= 2 && token[0] == '[' && token[|token| - 1] == ']'
    && forall x: nat, y: nat :: x <= y <= |token| ==> !lang(token[x..y])
  }

  // ---------- one pass ----------

  /** One pass over the text from position `i` on: a match contributes the token, any other position itself. */
  function SubFrom(m: Matcher, token: string, s: string, i: nat): string
    requires i <= |s|
    decreases |s| - i
  {
    if i == |s| then ""
    else
      var r := m.find(s, i);
      if r.Some? && i < r.value <= |s| then token + SubFrom(m, token, s, r.value)
      else [s[i]] + SubFrom(m, token, s, i + 1)
  }

  function Sub(m: Matcher, token: string, s: string): string {
    SubFrom(m, token, s, 0)
  }

  // ---------- a pass is a splice ----------

  /** The spans replaced from position `i` on. */
  function Hits(m: Matcher, s: string, i: nat): (hits: seq<Span>)
    requires i <= |s|
    decreases |s| - i
  {
    if i == |s| then []
    else
      var r := m.find(s, i);
      if r.Some? && i < r.value <= |s| then [Span(i, r.value)] + Hits(m, s, r.value)
      else Hits(m, s, i + 1)
  }

  /**
    Reads `s` from `i` on as gap, span, gap, ..., gap and writes it back with `fill(span)` in
    place of each span. The spans must be non-empty, disjoint and in ascending order.
   */
  ghost function Refill(s: string, i: nat, hits: seq<Span>, fill: Span -> string): string
    requires Ordered(s, i, hits)
    decreases |hits|
  {
    if hits == [] then s[i..]
    else s[i..hits[0].start] + (fill(hits[0]) + Refill(s, hits[0].end, hits[1..], fill))
  }

  ghost predicate Ordered(s: string, i: nat, hits: seq<Span>)
    decreases |hits|
  {
    if hits == [] then i <= |s|
    else i <= hits[0].start < hits[0].end <= |s| && Ordered(s, hits[0].end, hits[1..])
  }

  /** The text of a span of `s`. */
  function Slice(s: string, h: Span): string {
    if h.start <= h.end <= |s| then s[h.start..h.end] else ""
  }

  lemma EarlierStart(s: string, i: nat, hits: seq<Span>, fill: Span -> string)
    requires i < |s| && Ordered(s, i + 1, hits)
    ensures Ordered(s, i, hits)
    ensures Refill(s, i, hits, fill) == [s[i]] + Refill(s, i + 1, hits, fill)
  {
    if hits == [] {
      assert s[i..] == [s[i]] + s[i + 1..];
    } else {
      var tail := fill(hits[0]) + Refill(s, hits[0].end, hits[1..], fill);
      assert s[i..hits[0].start] == [s[i]] + s[i + 1..hits[0].start];
      assert [s[i]] + s[i + 1..hits[0].start] + tail == [s[i]] + (s[i + 1..hits[0].start] + tail);
    }
  }

  lemma SpanAtStart(s: string, h: Span, hits: seq<Span>, fill: Span -> string)
    requires h.start < h.end <= |s| && Ordered(s, h.end, hits)
    ensures Ordered(s, h.start, [h] + hits)
    ensures Refill(s, h.start, [h] + hits, fill) == fill(h) + Refill(s, h.end, hits, fill)
  {
    var all := [h] + hits;
    assert all[1..] == hits;
    assert s[h.start..h.start] == [];
    assert [] + (fill(h) + Refill(s, h.end, hits, fill)) == fill(h) + Refill(s, h.end, hits, fill);
  }

  lemma RefillOfNothing(s: string, fill: Span -> string)
    ensures Ordered(s, |s|, []) && Refill(s, |s|, [], fill) == "" == s[|s|..]
  {
  }

  lemma {:induction false} InputIsRefilled(m: Matcher, s: string, i: nat)
    requires i <= |s|
    ensures Ordered(s, i, Hits(m, s, i))
    ensures s[i..] == Refill(s, i, Hits(m, s, i), h => Slice(s, h))
    decreases |s| - i
  {
    hide Refill, Ordered;
    if i == |s| {
      RefillOfNothing(s, h => Slice(s, h));
    } else {
      var r := m.find(s, i);
      if r.Some? && i < r.value <= |s| {
        InputIsRefilled(m, s, r.value);
        SpanAtStart(s, Span(i, r.value), Hits(m, s, r.value), h => Slice(s, h));
        assert s[i..] == s[i..r.value] + s[r.value..];
      } else {
        InputIsRefilled(m, s, i + 1);
        EarlierStart(s, i, Hits(m, s, i + 1), h => Slice(s, h));
        assert s[i..] == [s[i]] + s[i + 1..];
      }
    }
  }

  lemma {:induction false} OutputIsRefilled(m: Matcher, token: string, s: string, i: nat)
    requires i <= |s|
    ensures Ordered(s, i, Hits(m, s, i))
    ensures SubFrom(m, token, s, i) == Refill(s, i, Hits(m, s, i), _ => token)
    decreases |s| - i
  {
    if i < |s| {
      var r := m.find(s, i);
      if r.Some? && i < r.value <= |s| {
        OutputIsRefilled(m, token, s, r.value);
        SpanAtStart(s, Span(i, r.value), Hits(m, s, r.value), _ => token);
      } else {
        OutputIsRefilled(m, token, s, i + 1);
        EarlierStart(s, i, Hits(m, s, i + 1), _ => token);
      }
    }
  }

  /**
    Input and output share the same gaps in the same order: refilling the replaced spans with
    their own text gives the input, refilling each with the token gives the output.
   */
  lemma SubIsSplice(m: Matcher, token: string, s: string)
    ensures Ordered(s, 0, Hits(m, s, 0))
    ensures s == Refill(s, 0, Hits(m, s, 0), h => Slice(s, h))
    ensures Sub(m, token, s) == Refill(s, 0, Hits(m, s, 0), _ => token)
  {
    InputIsRefilled(m, s, 0);
    OutputIsRefilled(m, token, s, 0);
  }

  /** Every replaced span is a match. */
  lemma {:induction false} HitsAreMatches(word: char -> bool, m: Matcher, s: string, i: nat)
    requires i <= |s| && Faithful(word, m)
    ensures forall h :: h in Hits(m, s, i) ==> MatchAt(word, m.lang, s, h.start, h.end)
    decreases |s| - i
  {
    if i < |s| {
      assert FaithfulAt(word, m, s, i);
      var r := m.find(s, i);
      HitsAreMatches(word, m, s, if r.Some? && i < r.value <= |s| then r.value else i + 1);
    }
  }

  /** No match starts in a gap: every start of a match lies in a replaced span. */
  lemma {:induction false} MatchesAreCovered(word: char -> bool, m: Matcher, s: string, i: nat, a: nat)
    requires i <= a && Faithful(word, m) && Sealed(word, m.lang)
    requires i <= |s| && !NoneStartsAt(word, m.lang, s, a)
    ensures Covered(Hits(m, s, i), a)
    decreases |s| - i
  {
    NoMatchPastEnd(word, m.lang, s);
    if i < |s| {
      assert FaithfulAt(word, m, s, i);
      var r := m.find(s, i);
      var next := if r.Some? && i < r.value <= |s| then r.value else i + 1;
      if a >= next {
        MatchesAreCovered(word, m, s, next, a);
      }
    }
  }

  ghost predicate Covered(hits: seq<Span>, a: nat) {
    hits != [] && (hits[0].start <= a < hits[0].end || Covered(hits[1..], a))
  }

  lemma NoMatchPastEnd(word: char -> bool, lang: string -> bool, s: string)
    requires Sealed(word, lang)
    ensures forall i: nat :: i >= |s| ==> NoneStartsAt(word, lang, s, i)
  {
    forall i: nat, j: nat | i >= |s| ensures !MatchAt(word, lang, s, i, j) {
      if i == j == |s| { assert s[i..j] == []; }
    }
  }

  // ---------- no pass creates a match ----------

  /** No match of `q` starts at a position that the scan for `m` copies. */
  ghost predicate QuietInGaps(word: char -> bool, m: Matcher, q: string -> bool, s: string, i: nat)
    requires i <= |s|
    decreases |s| - i
  {
    i == |s| ||
    var r := m.find(s, i);
    if r.Some? && i < r.value <= |s| then QuietInGaps(word, m, q, s, r.value)
    else NoneStartsAt(word, q, s, i) && QuietInGaps(word, m, q, s, i + 1)
  }

  lemma {:induction false} CleanIsQuiet(word: char -> bool, m: Matcher, q: string -> bool, s: string, i: nat)
    requires i <= |s| && Clean(word, q, s)
    ensures QuietInGaps(word, m, q, s, i)
    decreases |s| - i
  {
    if i < |s| {
      var r := m.find(s, i);
      CleanIsQuiet(word, m, q, s, if r.Some? && i < r.value <= |s| then r.value else i + 1);
    }
  }

  lemma {:induction false} OwnPatternIsQuiet(word: char -> bool, m: Matcher, s: string, i: nat)
    requires i <= |s| && Faithful(word, m) && Sealed(word, m.lang)
    ensures QuietInGaps(word, m, m.lang, s, i)
    decreases |s| - i
  {
    if i < |s| {
      assert FaithfulAt(word, m, s, i);
      var r := m.find(s, i);
      OwnPatternIsQuiet(word, m, s, if r.Some? then r.value else i + 1);
    }
  }

  /**
    A bracket-free stretch at the head of the output is a stretch of the input; what follows
    it is the same character, the end of both texts, or the start of a replaced match.
   */
  lemma {:induction false} HeadComesFromInput(word: char -> bool, m: Matcher, token: string, s: string, i: nat, n: nat)
    requires i <= |s| && Faithful(word, m) && Inert(m.lang, token)
    requires n <= |SubFrom(m, token, s, i)| && '[' !in SubFrom(m, token, s, i)[..n]
    ensures HeadAgrees(word, s, i, SubFrom(m, token, s, i), n)
    decreases n
  {
    if i < |s| {
      assert FaithfulAt(word, m, s, i);
      var r := m.find(s, i);
      if r.Some? && i < r.value <= |s| {
        assert SubFrom(m, token, s, i)[0] == '[';
      } else if n > 0 {
        var out, rest := SubFrom(m, token, s, i), SubFrom(m, token, s, i + 1);
        assert out[..n] == [s[i]] + rest[..n - 1];
        HeadComesFromInput(word, m, token, s, i + 1, n - 1);
        assert s[i..i + n] == [s[i]] + s[i + 1..i + n];
      }
    }
  }

  ghost predicate HeadAgrees(word: char -> bool, s: string, i: nat, out: string, n: nat)
    requires n <= |out|
  {
    && i + n <= |s|
    && out[..n] == s[i..i + n]
    && (i + n == |s| ==> n == |out|)
    && (i + n < |s| ==> (n < |out| && out[n] == s[i + n]) || BoundaryIn(word, false, s, i + n))
  }

  /** How the character before an output position may differ from the one before the input position. */
  ghost predicate Before(word: char -> bool, s: string, i: nat, before: bool) {
    || before == (0 < i <= |s| && word(s[i - 1]))
    || (!before && (i < |s| ==> !word(s[i])))
  }

  /** A match at the head of an output that agrees with the input there is a match of the input. */
  lemma HeadMatchIsInputMatch(
    word: char -> bool, q: string -> bool, s: string, i: nat, before: bool, out: string, b: nat)
    requires Sealed(word, q) && MatchIn(word, q, before, out, 0, b)
    requires HeadAgrees(word, s, i, out, b) && Before(word, s, i, before)
    ensures MatchAt(word, q, s, i, i + b)
  {
    var w := out[..b];
    assert out[0..b] == w;
    assert out[b - 1] == w[b - 1] == s[i + b - 1] && out[0] == w[0] == s[i];
  }

  lemma NoMatchAtHead(
    word: char -> bool, m: Matcher, token: string, q: string -> bool, s: string, i: nat, before: bool, b: nat)
    requires Faithful(word, m) && Inert(m.lang, token) && Sealed(word, q)
    requires i < |s| && NoneStartsAt(word, q, s, i) && Before(word, s, i, before)
    ensures !MatchIn(word, q, before, SubFrom(m, token, s, i), 0, b)
  {
    var out := SubFrom(m, token, s, i);
    if MatchIn(word, q, before, out, 0, b) {
      assert out[0..b] == out[..b];
      HeadComesFromInput(word, m, token, s, i, b);
      HeadMatchIsInputMatch(word, q, s, i, before, out, b);
    }
  }

  /** A match that starts in a token would have to lie inside it. */
  lemma NoMatchInToken(word: char -> bool, q: string -> bool, before: bool, token: string, rest: string, a: nat, b: nat)
    requires Sealed(word, q) && Inert(q, token) && a < |token|
    ensures !MatchIn(word, q, before, token + rest, a, b)
  {
    var u := token + rest;
    if a <= b <= |u| {
      if b <= |token| {
        assert u[a..b] == token[a..b];
      } else {
        assert u[a..b][|token| - 1 - a] == ']';
      }
    }
  }

  /** A match in token + rest would be one in rest, preceded by the token's closing bracket. */
  lemma NoMatchAcrossToken(
    word: char -> bool, q: string -> bool, before: bool, token: string, rest: string, a: nat, b: nat)
    requires Sealed(word, q) && Inert(q, token)
    requires |token| <= a <= b ==> !MatchIn(word, q, false, rest, a - |token|, b - |token|)
    ensures !MatchIn(word, q, before, token + rest, a, b)
  {
    var u := token + rest;
    if a < |token| {
      NoMatchInToken(word, q, before, token, rest, a, b);
    } else if a <= b <= |u| {
      ShiftedText(token, rest, a, b);
      ShiftedBoundary(word, before, token, rest, a);
      ShiftedBoundary(word, before, token, rest, b);
    }
  }

  lemma ShiftedText(token: string, rest: string, a: nat, b: nat)
    requires |token| <= a <= b <= |token| + |rest|
    ensures (token + rest)[a..b] == rest[a - |token|..b - |token|]
  {
  }

  lemma ShiftedBoundary(word: char -> bool, before: bool, token: string, rest: string, a: nat)
    requires |token| > 0 && !word(token[|token| - 1])
    requires |token| <= a <= |token| + |rest|
    ensures BoundaryIn(word, before, token + rest, a) == BoundaryIn(word, false, rest, a - |token|)
  {
  }

  lemma NoMatchAcrossChar(word: char -> bool, q: string -> bool, before: bool, c: char, rest: string, a: nat, b: nat)
    requires 1 <= a <= b ==> !MatchIn(word, q, word(c), rest, a - 1, b - 1)
    requires a == 0 ==> !MatchIn(word, q, before, [c] + rest, a, b)
    ensures !MatchIn(word, q, before, [c] + rest, a, b)
  {
    var u := [c] + rest;
    if 1 <= a <= b <= |u| {
      assert u[1..] == rest;
      ShiftedText([c], rest, a, b);
    }
  }

  /**
    The heart of the fixpoint: seen from position `i`, the output holds no match of `q`.
    `before` describes the output character just before; it may differ from the input's only
    after a token, and then the next input character is not a word character.
   */
  lemma {:induction false} NoMatchFrom(word: char -> bool, m: Matcher, token: string, q: string -> bool,
                                       s: string, i: nat, before: bool, a: nat, b: nat)
    requires Faithful(word, m) && Sealed(word, m.lang) && Inert(m.lang, token)
    requires Sealed(word, q) && Inert(q, token)
    requires i <= |s| && QuietInGaps(word, m, q, s, i) && Before(word, s, i, before)
    ensures !MatchIn(word, q, before, SubFrom(m, token, s, i), a, b)
    decreases |s| - i
  {
    hide Faithful, Inert;
    var r := m.find(s, i);
    if i == |s| {
      assert ""[0..0] == "";
    } else if r.Some? && i < r.value <= |s| {
      HitEndsBeforeNonWord(word, m, s, i);
      if |token| <= a <= b {
        NoMatchFrom(word, m, token, q, s, r.value, false, a - |token|, b - |token|);
      }
      NoMatchAcrossToken(word, q, before, token, SubFrom(m, token, s, r.value), a, b);
    } else {
      if 1 <= a <= b {
        NoMatchFrom(word, m, token, q, s, i + 1, word(s[i]), a - 1, b - 1);
      }
      NoMatchAtHead(word, m, token, q, s, i, before, b);
      NoMatchAcrossChar(word, q, before, s[i], SubFrom(m, token, s, i + 1), a, b);
    }
  }

  lemma HitEndsBeforeNonWord(word: char -> bool, m: Matcher, s: string, i: nat)
    requires Faithful(word, m) && Sealed(word, m.lang) && i <= |s| && m.find(s, i).Some?
    ensures var j := m.find(s, i).value; j < |s| ==> !word(s[j])
  {
    assert FaithfulAt(word, m, s, i);
    var w := s[i..m.find(s, i).value];
    assert w[|w| - 1] == s[i + |w| - 1];
  }

  /** A pass leaves no match of its own pattern. */
  lemma SubCleans(word: char -> bool, m: Matcher, token: string, s: string)
    requires Faithful(word, m) && Sealed(word, m.lang) && Inert(m.lang, token)
    ensures Clean(word, m.lang, Sub(m, token, s))
  {
    OwnPatternIsQuiet(word, m, s, 0);
    forall a: nat, b: nat ensures !MatchAt(word, m.lang, Sub(m, token, s), a, b) {
      NoMatchFrom(word, m, token, m.lang, s, 0, false, a, b);
    }
  }

  /** A pass never creates a match of a language that the text was free of. */
  lemma SubKeepsClean(word: char -> bool, m: Matcher, token: string, q: string -> bool, s: string)
    requires Faithful(word, m) && Sealed(word, m.lang) && Inert(m.lang, token)
    requires Sealed(word, q) && Inert(q, token) && Clean(word, q, s)
    ensures Clean(word, q, Sub(m, token, s))
  {
    CleanIsQuiet(word, m, q, s, 0);
    forall a: nat, b: nat ensures !MatchAt(word, q, Sub(m, token, s), a, b) {
      NoMatchFrom(word, m, token, q, s, 0, false, a, b);
    }
  }

  /** A pass changes a text if and only if its pattern occurs in it. */
  lemma SubIsIdentityIffClean(word: char -> bool, m: Matcher, token: string, s: string)
    requires Faithful(word, m) && Sealed(word, m.lang) && Inert(m.lang, token)
    ensures Sub(m, token, s) == s <==> Clean(word, m.lang, s)
  {
    SubCleans(word, m, token, s);
    if Clean(word, m.lang, s) {
      GapIsCopied(word, m, token, s, 0, |s|);
    }
  }

  // ---------- the scan as a loop ----------

  /** `Pattern.search` from `pos`: the leftmost start at which the pattern matches. */
  method Search(ghost word: char -> bool, m: Matcher, s: string, pos: nat) returns (r: Option<Span>)
    requires Faithful(word, m) && Sealed(word, m.lang) && pos <= |s|
    ensures r.Some? ==>
              pos <= r.value.start < r.value.end <= |s| && MatchAt(word, m.lang, s, r.value.start, r.value.end)
    ensures r.Some? ==> m.find(s, r.value.start) == Some(r.value.end)
    ensures r.Some? ==> forall i: nat :: pos <= i < r.value.start ==> NoneStartsAt(word, m.lang, s, i)
    ensures r.None? ==> forall i: nat :: pos <= i ==> NoneStartsAt(word, m.lang, s, i)
  {
    var i := pos;
    while i < |s|
      invariant pos <= i <= |s|
      invariant forall k: nat :: pos <= k < i ==> NoneStartsAt(word, m.lang, s, k)
    {
      assert FaithfulAt(word, m, s, i);
      var here := m.find(s, i);
      if here.Some? {
        return Some(Span(i, here.value));
      }
      i := i + 1;
    }
    NoMatchPastEnd(word, m.lang, s);
    r := None;
  }

  /** Positions at which no match starts are copied. */
  lemma {:induction false} GapIsCopied(word: char -> bool, m: Matcher, token: string, s: string, pos: nat, i: nat)
    requires Faithful(word, m) && pos <= i <= |s|
    requires forall k: nat :: pos <= k < i ==> NoneStartsAt(word, m.lang, s, k)
    ensures SubFrom(m, token, s, pos) == s[pos..i] + SubFrom(m, token, s, i)
    decreases i - pos
  {
    if pos < i {
      assert FaithfulAt(word, m, s, pos) && NoneStartsAt(word, m.lang, s, pos);
      GapIsCopied(word, m, token, s, pos + 1, i);
      CopyOne(s, pos, i, SubFrom(m, token, s, i));
    }
  }

  lemma CopyOne(s: string, pos: nat, i: nat, rest: string)
    requires pos < i <= |s|
    ensures [s[pos]] + (s[pos + 1..i] + rest) == s[pos..i] + rest
  {
  }

  /** `Pattern.sub`: repeated search, copying each gap and then the token into a buffer. */
  method Substitute(ghost word: char -> bool, m: Matcher, token: string, s: string) returns (out: string)
    requires Faithful(word, m) && Sealed(word, m.lang)
    ensures out == Sub(m, token, s)
  {
    out := "";
    var pos := 0;
    while true
      invariant pos <= |s|
      invariant out + SubFrom(m, token, s, pos) == Sub(m, token, s)
      decreases |s| - pos
    {
      var hit := Search(word, m, s, pos);
      GapIsCopied(word, m, token, s, pos, if hit.Some? then hit.value.start else |s|);
      if hit.None? {
        out := out + s[pos..];
        break;
      }
      Regroup(out, s[pos..hit.value.start], token, SubFrom(m, token, s, hit.value.end));
      out := out + s[pos..hit.value.start] + token;
      pos := hit.value.end;
    }
  }

  lemma Regroup(a: string, b: string, c: string, d: string)
    ensures a + (b + (c + d)) == a + b + c + d
  {
  }
}
