/**
  The fragment of Python's `re` that the redaction patterns use: greedy repetitions of one
  character class, concatenation and a greedy optional group, with a word boundary demanded
  on both sides of the whole body.

  `Ends` is the backtracking matcher (candidate ends in the order the engine tries them);
  `Matches` is the language a body denotes. `EndsExact` says the two agree.
 */
module Regex {
  import opened Options
  import opened Substitution

  /** The Unicode tables behind \w, \d and \s; only the ASCII part is fixed by `Sound`. */
  datatype Tables = Tables(word: char -> bool, digit: char -> bool, space: char -> bool) {
    ghost predicate Sound() {
      && (forall c :: c < 128 as char ==> (word(c) <==> IsUpper(c) || 'a' <= c <= 'z' || IsDigit(c) || c == '_'))
      && (forall c :: c < 128 as char ==> (digit(c) <==> IsDigit(c)))
      && (forall c :: digit(c) ==> word(c))
      && (forall c :: space(c) ==> !word(c) && c != '[' && c != ']')
      && (forall c :: c < 128 as char ==> (space(c) <==> c == ' ' || 9 <= c as int <= 13 || 28 <= c as int <= 31))
      && (forall c :: FoldsToLatin(c) ==> word(c))
    }
  }

  predicate IsUpper(c: char) { 'A' <= c <= 'Z' }

  predicate IsDigit(c: char) { '0' <= c <= '9' }

  /** [a-z] under re.IGNORECASE: the 52 ASCII letters and the four letters that case-fold into them. */
  predicate FoldsToLatin(c: char) {
    IsUpper(c) || 'a' <= c <= 'z' || c in ['\U{0130}', '\U{0131}', '\U{017F}', '\U{212A}']
  }

  datatype Class =
    | Digit          // \d
    | AsciiDigit     // [0-9]
    | Upper          // [A-Z]
    | LatinFold      // [a-z], ignoring case
    | SpaceOrDash    // [\s\-]
    | LocalPart      // [\w.+-]
    | HostPart       // [\w-]
    | Only(c: char)  // a literal

  predicate In(t: Tables, k: Class, c: char) {
    match k
    case Digit => t.digit(c)
    case AsciiDigit => IsDigit(c)
    case Upper => IsUpper(c)
    case LatinFold => FoldsToLatin(c)
    case SpaceOrDash => t.space(c) || c == '-'
    case LocalPart => t.word(c) || c == '.' || c == '+' || c == '-'
    case HostPart => t.word(c) || c == '-'
    case Only(d) => c == d
  }

  datatype Re =
    | Rep(cls: Class, lo: nat, hi: Option<nat>)
    | Cat(first: Re, second: Re)
    | Opt(inner: Re)

  // ---------- the language of a body ----------

  predicate Matches(t: Tables, re: Re, w: string) {
    match re
    case Rep(k, lo, hi) => lo <= |w| && (hi.Some? ==> |w| <= hi.value) && forall c :: c in w ==> In(t, k, c)
    case Cat(a, b) => exists k :: 0 <= k <= |w| && Matches(t, a, w[..k]) && Matches(t, b, w[k..])
    case Opt(a) => w == [] || Matches(t, a, w)
  }

  // ---------- the backtracking matcher ----------

  ghost predicate Within(js: seq<nat>, lo: nat, hi: nat) {
    forall k :: 0 <= k < |js| ==> lo <= js[k] <= hi
  }

  /** Ends of a greedy repetition from `i`, longest first. */
  function RepEnds(t: Tables, k: Class, lo: nat, hi: Option<nat>, s: string, i: nat): (js: seq<nat>)
    requires i <= |s|
    ensures Within(js, i, |s|)
    decreases |s| - i
  {
    (if i < |s| && hi != Some(0) && In(t, k, s[i])
     then RepEnds(t, k, if lo == 0 then 0 else lo - 1, if hi.Some? then Some(hi.value - 1) else None, s, i + 1)
     else [])
    + (if lo == 0 then [i] else [])
  }

  /** Every end the engine tries for `re` from position `i`, in the order it tries them. */
  function Ends(t: Tables, re: Re, s: string, i: nat): (js: seq<nat>)
    requires i <= |s|
    ensures Within(js, i, |s|)
    decreases re, 0
  {
    match re
    case Rep(k, lo, hi) => RepEnds(t, k, lo, hi, s, i)
    case Cat(a, b) => EndsFromAll(t, b, s, i, Ends(t, a, s, i))
    case Opt(a) => Ends(t, a, s, i) + [i]
  }

  function EndsFromAll(t: Tables, re: Re, s: string, i: nat, starts: seq<nat>): (js: seq<nat>)
    requires i <= |s| && Within(starts, i, |s|)
    ensures Within(js, i, |s|)
    decreases re, 1, |starts|
  {
    if starts == [] then []
    else Ends(t, re, s, starts[0]) + EndsFromAll(t, re, s, i, starts[1..])
  }

  /** A repetition takes its first character and leaves a shorter repetition. */
  lemma RepTakesOne(t: Tables, k: Class, lo: nat, hi: Option<nat>, c: char, w: string)
    ensures Matches(t, Rep(k, lo, hi), [c] + w) <==>
            hi != Some(0) && In(t, k, c) &&
            Matches(t, Rep(k, if lo == 0 then 0 else lo - 1,
                           if hi.Some? && hi.value > 0 then Some(hi.value - 1) else None), w)
  {
    var u := [c] + w;
    assert u[0] in u && forall d :: d in u <==> d == c || d in w;
  }

  lemma {:induction false} RepEndsExact(t: Tables, k: Class, lo: nat, hi: Option<nat>, s: string, i: nat, j: nat)
    requires i <= |s|
    ensures j in RepEnds(t, k, lo, hi, s, i) <==> i <= j <= |s| && Matches(t, Rep(k, lo, hi), s[i..j])
    decreases |s| - i
  {
    if i < j <= |s| {
      RepTakesOne(t, k, lo, hi, s[i], s[i + 1..j]);
      assert s[i..j] == [s[i]] + s[i + 1..j];
      if hi != Some(0) && In(t, k, s[i]) {
        RepEndsExact(t, k, if lo == 0 then 0 else lo - 1, if hi.Some? then Some(hi.value - 1) else None, s, i + 1, j);
      }
    }
  }

  lemma {:induction false} EndsFromAllExact(t: Tables, re: Re, s: string, i: nat, starts: seq<nat>, j: nat)
    requires i <= |s| && Within(starts, i, |s|)
    ensures j in EndsFromAll(t, re, s, i, starts) <==>
            exists m :: 0 <= m < |starts| && j in Ends(t, re, s, starts[m])
    decreases |starts|
  {
    if starts != [] {
      var rest := starts[1..];
      EndsFromAllExact(t, re, s, i, rest, j);
      assert j in EndsFromAll(t, re, s, i, starts) <==>
        j in Ends(t, re, s, starts[0]) || j in EndsFromAll(t, re, s, i, rest);
      if j in EndsFromAll(t, re, s, i, rest) {
        var m :| 0 <= m < |rest| && j in Ends(t, re, s, rest[m]);
        assert starts[m + 1] == rest[m];
      }
      if m :| 0 < m < |starts| && j in Ends(t, re, s, starts[m]) {
        assert rest[m - 1] == starts[m];
      }
    }
  }

  /** The backtracking matcher finds exactly the spans in the body's language. */
  lemma {:induction false} EndsExact(t: Tables, re: Re, s: string, i: nat, j: nat)
    requires i <= |s|
    ensures j in Ends(t, re, s, i) <==> i <= j <= |s| && Matches(t, re, s[i..j])
    decreases re, 1
  {
    match re
    case Rep(k, lo, hi) => RepEndsExact(t, k, lo, hi, s, i, j);
    case Opt(a) => EndsExact(t, a, s, i, j);
    case Cat(a, b) =>
      if j in Ends(t, re, s, i) { CatEndIsMatch(t, a, b, s, i, j); }
      if i <= j <= |s| && Matches(t, re, s[i..j]) {
        var m := CatSplit(t, a, b, s, i, j);
        CatMatchIsEnd(t, a, b, s, i, m, j);
      }
  }

  lemma {:induction false} CatEndIsMatch(t: Tables, a: Re, b: Re, s: string, i: nat, j: nat)
    requires i <= |s| && j in Ends(t, Cat(a, b), s, i)
    ensures i <= j <= |s| && Matches(t, Cat(a, b), s[i..j])
    decreases Cat(a, b), 0
  {
    var starts := Ends(t, a, s, i);
    EndsFromAllExact(t, b, s, i, starts, j);
    var k :| 0 <= k < |starts| && j in Ends(t, b, s, starts[k]);
    var m := starts[k];
    EndsExact(t, a, s, i, m);
    EndsExact(t, b, s, m, j);
    CatJoin(t, a, b, s, i, m, j);
  }

  lemma CatJoin(t: Tables, a: Re, b: Re, s: string, i: nat, m: nat, j: nat)
    requires i <= m <= j <= |s| && Matches(t, a, s[i..m]) && Matches(t, b, s[m..j])
    ensures Matches(t, Cat(a, b), s[i..j])
  {
    assert s[i..j][..m - i] == s[i..m] && s[i..j][m - i..] == s[m..j];
  }

  lemma {:induction false} CatMatchIsEnd(t: Tables, a: Re, b: Re, s: string, i: nat, m: nat, j: nat)
    requires i <= m <= j <= |s| && Matches(t, a, s[i..m]) && Matches(t, b, s[m..j])
    ensures j in Ends(t, Cat(a, b), s, i)
    decreases Cat(a, b), 0
  {
    EndsExact(t, a, s, i, m);
    EndsExact(t, b, s, m, j);
    var starts := Ends(t, a, s, i);
    var n :| 0 <= n < |starts| && starts[n] == m;
    EndsFromAllExact(t, b, s, i, starts, j);
  }

  lemma CatSplit(t: Tables, a: Re, b: Re, s: string, i: nat, j: nat) returns (m: nat)
    requires i <= j <= |s| && Matches(t, Cat(a, b), s[i..j])
    ensures i <= m <= j && Matches(t, a, s[i..m]) && Matches(t, b, s[m..j])
  {
    var w := s[i..j];
    var k :| 0 <= k <= |w| && Matches(t, a, w[..k]) && Matches(t, b, w[k..]);
    assert w[..k] == s[i..i + k];
    forall n | 0 <= n < j - i - k ensures w[k..][n] == s[i + k..j][n] {}
    assert w[k..] == s[i + k..j];
    m := i + k;
  }

  // ---------- the engine for \b re \b ----------

  function FirstAtBoundary(word: char -> bool, s: string, js: seq<nat>): (r: Option<nat>)
    requires Within(js, 0, |s|)
    ensures r.Some? ==> r.value in js && BoundaryIn(word, false, s, r.value)
    ensures r.None? ==> forall k :: 0 <= k < |js| ==> !BoundaryIn(word, false, s, js[k])
  {
    if js == [] then None
    else if BoundaryIn(word, false, s, js[0]) then Some(js[0])
    else FirstAtBoundary(word, s, js[1..])
  }

  /** What the engine reports when asked to match \b`re`\b exactly at `i`. */
  function Try(t: Tables, re: Re, s: string, i: nat): (r: Option<nat>) {
    if i <= |s| && BoundaryIn(t.word, false, s, i) then FirstAtBoundary(t.word, s, Ends(t, re, s, i)) else None
  }

  function MatcherFor(t: Tables, re: Re): Matcher {
    Matcher(w => Matches(t, re, w), (s, i) => Try(t, re, s, i))
  }

  /** The engine is sound and complete: it reports a match exactly when one starts at the position. */
  lemma EngineIsFaithful(t: Tables, re: Re)
    ensures Faithful(t.word, MatcherFor(t, re))
  {
    var m := MatcherFor(t, re);
    forall s: string, i: nat | i <= |s| ensures FaithfulAt(t.word, m, s, i) {
      forall j: nat ensures j in Ends(t, re, s, i) <==> i <= j <= |s| && Matches(t, re, s[i..j]) {
        EndsExact(t, re, s, i, j);
      }
    }
  }

  // ---------- syntactic facts about a body ----------

  predicate ClassInWord(k: Class) { k.Digit? || k.AsciiDigit? || k.Upper? || k.LatinFold? }

  /** Every match is non-empty and ends in a word character. */
  predicate EndsInWord(re: Re) {
    match re
    case Rep(k, lo, _) => lo >= 1 && ClassInWord(k)
    case Cat(_, b) => EndsInWord(b)
    case Opt(_) => false
  }

  /** No match contains a square bracket. */
  predicate BracketFree(re: Re) {
    match re
    case Rep(k, _, _) => !(k.Only? && (k.c == '[' || k.c == ']'))
    case Cat(a, b) => BracketFree(a) && BracketFree(b)
    case Opt(a) => BracketFree(a)
  }

  /** Every match contains a digit or an at-sign. */
  predicate Telling(re: Re) {
    match re
    case Rep(k, lo, _) => lo >= 1 && (k.Digit? || k.AsciiDigit? || k == Only('@'))
    case Cat(a, b) => Telling(a) || Telling(b)
    case Opt(_) => false
  }

  /** A bracketed name of capitals and underscores. */
  predicate IsToken(token: string) {
    && |token| >= 2 && token[0] == '[' && token[|token| - 1] == ']'
    && forall i :: 0 < i < |token| - 1 ==> IsUpper(token[i]) || token[i] == '_'
  }

  lemma {:induction false} MatchEndsInWord(t: Tables, re: Re, w: string)
    requires t.Sound() && EndsInWord(re) && Matches(t, re, w)
    ensures w != [] && t.word(w[|w| - 1])
    decreases re
  {
    match re
    case Rep(k, _, _) => assert In(t, k, w[|w| - 1]);
    case Cat(a, b) =>
      var k :| 0 <= k <= |w| && Matches(t, a, w[..k]) && Matches(t, b, w[k..]);
      MatchEndsInWord(t, b, w[k..]);
  }

  lemma {:induction false} MatchAvoidsBrackets(t: Tables, re: Re, w: string)
    requires t.Sound() && BracketFree(re) && Matches(t, re, w)
    ensures '[' !in w && ']' !in w
    decreases re
  {
    match re
    case Rep(k, _, _) => assert forall c :: c in w ==> In(t, k, c);
    case Cat(a, b) =>
      var k :| 0 <= k <= |w| && Matches(t, a, w[..k]) && Matches(t, b, w[k..]);
      MatchAvoidsBrackets(t, a, w[..k]);
      MatchAvoidsBrackets(t, b, w[k..]);
      assert w == w[..k] + w[k..];
    case Opt(a) =>
      if w != [] { MatchAvoidsBrackets(t, a, w); }
  }

  lemma {:induction false} MatchTells(t: Tables, re: Re, w: string)
    requires Telling(re) && Matches(t, re, w)
    ensures exists c :: c in w && (t.digit(c) || IsDigit(c) || c == '@')
    decreases re
  {
    match re
    case Rep(k, _, _) => assert w[0] in w;
    case Cat(a, b) =>
      var k :| 0 <= k <= |w| && Matches(t, a, w[..k]) && Matches(t, b, w[k..]);
      if Telling(a) { MatchTells(t, a, w[..k]); } else { MatchTells(t, b, w[k..]); }
      var c :| (c in w[..k] || c in w[k..]) && (t.digit(c) || IsDigit(c) || c == '@');
      assert w == w[..k] + w[k..] && c in w;
  }

  lemma TokenTellsNothing(t: Tables, token: string, x: nat, y: nat)
    requires t.Sound() && IsToken(token) && x <= y <= |token|
    ensures forall c :: c in token[x..y] ==> !t.digit(c) && !IsDigit(c) && c != '@'
  {
    forall c | c in token[x..y] ensures !t.digit(c) && !IsDigit(c) && c != '@' {
      var k :| 0 <= k < y - x && token[x..y][k] == c;
      assert c == token[x + k];
      assert c == '[' || c == ']' || c == '_' || IsUpper(c);
    }
  }

  /** The syntactic conditions give the generic ones that the fixpoint theorem asks for. */
  lemma SyntaxSuffices(t: Tables, re: Re, token: string)
    requires t.Sound() && EndsInWord(re) && BracketFree(re) && Telling(re) && IsToken(token)
    ensures Sealed(t.word, MatcherFor(t, re).lang) && Inert(MatcherFor(t, re).lang, token)
  {
    forall w: string | Matches(t, re, w) ensures w != [] && t.word(w[|w| - 1]) && '[' !in w && ']' !in w {
      MatchEndsInWord(t, re, w);
      MatchAvoidsBrackets(t, re, w);
    }
    forall x: nat, y: nat | x <= y <= |token| ensures !Matches(t, re, token[x..y]) {
      TokenTellsNothing(t, token, x, y);
      if Matches(t, re, token[x..y]) {
        MatchTells(t, re, token[x..y]);
      }
    }
  }
}
