/**
  The regex redactor and its wrapper around Presidio (apps/ai-worker/app/redaction.py).

  Main results: whichever way `redact` goes, none of the five patterns occurs anywhere in its
  result (`RedactedTextIsClean`); the regex stub is idempotent and changes nothing but what it
  must (`StubIsIdempotent`, `StubIsIdentityIffClean`).
 */
module Redaction {
  import opened Options
  import opened Regex
  import opened Substitution

  datatype Pattern = Pattern(body: Re, token: string)

  const CNP := Pattern(Rep(Digit, 13, Some(13)), "[CNP_REDACTAT]")

  const CI := Pattern(Cat(Rep(Upper, 2, Some(2)), Rep(Digit, 6, Some(6))), "[CI_REDACTAT]")

  const TEL := Pattern(
    Cat(Opt(Cat(Rep(Only('+'), 0, Some(1)),
                Cat(Rep(Only('4'), 0, Some(1)),
                    Cat(Rep(Only('0'), 1, Some(1)), Rep(SpaceOrDash, 0, Some(1)))))),
        Rep(AsciiDigit, 9, Some(10))),
    "[TEL_REDACTAT]")

  const EMAIL := Pattern(
    Cat(Rep(LocalPart, 1, None),
        Cat(Rep(Only('@'), 1, Some(1)),
            Cat(Rep(HostPart, 1, None),
                Cat(Rep(Only('.'), 1, Some(1)), Rep(LatinFold, 2, None))))),
    "[EMAIL_REDACTAT]")

  const FOUR_DIGITS := Rep(Digit, 4, Some(4))
  const GROUP := Cat(FOUR_DIGITS, Rep(SpaceOrDash, 0, Some(1)))

  const CARD := Pattern(Cat(GROUP, Cat(GROUP, Cat(GROUP, FOUR_DIGITS))), "[CARD_REDACTAT]")

  /** In the order the passes run. */
  const PATTERNS := [CNP, CI, TEL, EMAIL, CARD]

  /** The conditions under which a pattern's matches cannot touch a token. */
  predicate Proper(p: Pattern) {
    EndsInWord(p.body) && BracketFree(p.body) && Telling(p.body) && IsToken(p.token)
  }

  predicate AllProperIn(ps: seq<Pattern>) {
    forall k :: 0 <= k < |ps| ==> Proper(ps[k])
  }

  lemma CnpAndCiProper()
    ensures Proper(CNP) && Proper(CI)
  {
  }

  lemma TelProper()
    ensures Proper(TEL)
  {
    var prefix := TEL.body.first.inner;
    assert BracketFree(prefix.second.second);
    assert BracketFree(prefix);
  }

  lemma EmailProper()
    ensures Proper(EMAIL)
  {
    var host := EMAIL.body.second.second;
    assert EndsInWord(host.second) && BracketFree(host.second);
    assert EndsInWord(host) && BracketFree(host);
    assert Telling(EMAIL.body.second);
  }

  lemma CardProper()
    ensures Proper(CARD)
  {
    assert BracketFree(GROUP) && Telling(GROUP);
    var tail := CARD.body.second.second;
    assert EndsInWord(tail) && BracketFree(tail);
  }

  lemma AllProper()
    ensures AllProperIn(PATTERNS)
  {
    CnpAndCiProper();
    TelProper();
    EmailProper();
    CardProper();
  }

  function Lang(t: Tables, p: Pattern): string -> bool {
    MatcherFor(t, p.body).lang
  }

  /** None of the given patterns occurs anywhere in the text. */
  ghost predicate CleanOf(t: Tables, ps: seq<Pattern>, s: string) {
    forall k :: 0 <= k < |ps| ==> Clean(t.word, Lang(t, ps[k]), s)
  }

  /** The passes one after another, each over the output of the one before. */
  function StubFrom(t: Tables, ps: seq<Pattern>, s: string): string {
    if ps == [] then s else StubFrom(t, ps[1..], Sub(MatcherFor(t, ps[0].body), ps[0].token, s))
  }

  function Stub(t: Tables, s: string): string {
    StubFrom(t, PATTERNS, s)
  }

  lemma PassLeavesOwnClean(t: Tables, p: Pattern, s: string)
    requires t.Sound() && Proper(p)
    ensures Clean(t.word, Lang(t, p), Sub(MatcherFor(t, p.body), p.token, s))
  {
    EngineIsFaithful(t, p.body);
    SyntaxSuffices(t, p.body, p.token);
    SubCleans(t.word, MatcherFor(t, p.body), p.token, s);
  }

  lemma PassKeepsClean(t: Tables, p: Pattern, q: Pattern, s: string)
    requires t.Sound() && Proper(p) && Proper(q) && Clean(t.word, Lang(t, q), s)
    ensures Clean(t.word, Lang(t, q), Sub(MatcherFor(t, p.body), p.token, s))
  {
    EngineIsFaithful(t, p.body);
    SyntaxSuffices(t, p.body, p.token);
    SyntaxSuffices(t, q.body, p.token);
    SubKeepsClean(t.word, MatcherFor(t, p.body), p.token, Lang(t, q), s);
  }

  lemma {:induction false} PassesKeepClean(t: Tables, ps: seq<Pattern>, q: Pattern, s: string)
    requires t.Sound() && Proper(q) && AllProperIn(ps) && Clean(t.word, Lang(t, q), s)
    ensures Clean(t.word, Lang(t, q), StubFrom(t, ps, s))
    decreases |ps|
  {
    if ps != [] {
      PassKeepsClean(t, ps[0], q, s);
      PassesKeepClean(t, ps[1..], q, Sub(MatcherFor(t, ps[0].body), ps[0].token, s));
    }
  }

  /** Any sequence of proper passes reaches a text free of every one of its patterns. */
  lemma {:induction false} PassesClean(t: Tables, ps: seq<Pattern>, s: string)
    requires t.Sound() && AllProperIn(ps)
    ensures CleanOf(t, ps, StubFrom(t, ps, s))
    decreases |ps|
  {
    if ps != [] {
      var next := Sub(MatcherFor(t, ps[0].body), ps[0].token, s);
      PassLeavesOwnClean(t, ps[0], s);
      PassesKeepClean(t, ps[1..], ps[0], next);
      PassesClean(t, ps[1..], next);
      forall k | 0 <= k < |ps| ensures Clean(t.word, Lang(t, ps[k]), StubFrom(t, ps, s)) {
        if k > 0 { assert ps[k] == ps[1..][k - 1]; }
      }
    }
  }

  lemma {:induction false} PassesSkipClean(t: Tables, ps: seq<Pattern>, s: string)
    requires t.Sound() && AllProperIn(ps) && CleanOf(t, ps, s)
    ensures StubFrom(t, ps, s) == s
    decreases |ps|
  {
    if ps != [] {
      EngineIsFaithful(t, ps[0].body);
      assert Clean(t.word, Lang(t, ps[0]), s);
      SyntaxSuffices(t, ps[0].body, ps[0].token);
      SubIsIdentityIffClean(t.word, MatcherFor(t, ps[0].body), ps[0].token, s);
      assert CleanOf(t, ps[1..], s);
      PassesSkipClean(t, ps[1..], s);
    }
  }

  /** The stub's result is free of all five patterns, although every pass rewrites what the earlier ones left. */
  lemma StubCleans(t: Tables, s: string)
    requires t.Sound()
    ensures CleanOf(t, PATTERNS, Stub(t, s))
  {
    AllProper();
    PassesClean(t, PATTERNS, s);
  }

  /** The stub changes a text if and only if some pattern occurs in it. */
  lemma StubIsIdentityIffClean(t: Tables, s: string)
    requires t.Sound()
    ensures Stub(t, s) == s <==> CleanOf(t, PATTERNS, s)
  {
    AllProper();
    StubCleans(t, s);
    if CleanOf(t, PATTERNS, s) { PassesSkipClean(t, PATTERNS, s); }
  }

  lemma StubIsIdempotent(t: Tables, s: string)
    requires t.Sound()
    ensures Stub(t, Stub(t, s)) == Stub(t, s)
  {
    StubCleans(t, s);
    StubIsIdentityIffClean(t, Stub(t, s));
  }

  lemma EmptyIsClean(t: Tables, ps: seq<Pattern>)
    requires t.Sound() && AllProperIn(ps)
    ensures CleanOf(t, ps, "")
  {
    forall k | 0 <= k < |ps| ensures Clean(t.word, Lang(t, ps[k]), "") {
      SyntaxSuffices(t, ps[k].body, ps[k].token);
      NoMatchPastEnd(t.word, Lang(t, ps[k]), "");
    }
  }

  // ---------- which token ----------

  /** Letters, digits and underscores only. */
  ghost predicate IsWord(t: Tables, w: string) {
    w != "" && forall k :: 0 <= k < |w| ==> t.word(w[k])
  }

  /** In a text that is one word, a match can only be the whole text. */
  lemma WordMatchesWhole(t: Tables, p: Pattern, w: string, i: nat, j: nat)
    requires t.Sound() && Proper(p) && IsWord(t, w) && MatchAt(t.word, Lang(t, p), w, i, j)
    ensures i == 0 && j == |w|
  {
    SyntaxSuffices(t, p.body, p.token);
    assert w[i..j] != [];
  }

  lemma WordBecomesToken(t: Tables, p: Pattern, w: string)
    requires t.Sound() && Proper(p) && IsWord(t, w) && Matches(t, p.body, w)
    ensures Sub(MatcherFor(t, p.body), p.token, w) == p.token
  {
    var m := MatcherFor(t, p.body);
    EngineIsFaithful(t, p.body);
    assert FaithfulAt(t.word, m, w, 0);
    assert w[0..|w|] == w && MatchAt(t.word, m.lang, w, 0, |w|);
    WordMatchesWhole(t, p, w, 0, m.find(w, 0).value);
    assert SubFrom(m, p.token, w, |w|) == "";
    assert p.token + "" == p.token;
  }

  lemma UnmatchedWordIsClean(t: Tables, p: Pattern, w: string)
    requires t.Sound() && Proper(p) && IsWord(t, w) && !Matches(t, p.body, w)
    ensures Clean(t.word, Lang(t, p), w)
  {
    assert w[0..|w|] == w;
    forall i: nat, j: nat ensures !MatchAt(t.word, Lang(t, p), w, i, j) {
      if MatchAt(t.word, Lang(t, p), w, i, j) {
        WordMatchesWhole(t, p, w, i, j);
      }
    }
  }

  lemma TokenIsClean(t: Tables, ps: seq<Pattern>, token: string)
    requires t.Sound() && AllProperIn(ps) && IsToken(token)
    ensures CleanOf(t, ps, token)
  {
    forall k | 0 <= k < |ps| ensures Clean(t.word, Lang(t, ps[k]), token) {
      SyntaxSuffices(t, ps[k].body, token);
      NoMatchPastEnd(t.word, Lang(t, ps[k]), token);
      forall i: nat, j: nat | i < |token| ensures !MatchAt(t.word, Lang(t, ps[k]), token, i, j) {
        NoMatchInToken(t.word, Lang(t, ps[k]), false, token, "", i, j);
        assert token + "" == token;
      }
    }
  }

  /** The token of the first pattern whose body the word is, or the word itself. */
  function TokenFor(t: Tables, ps: seq<Pattern>, w: string): string {
    if ps == [] then w else if Matches(t, ps[0].body, w) then ps[0].token else TokenFor(t, ps[1..], w)
  }

  /** A text that is one word becomes the token of the first pattern it is, and stays as it is when it is none. */
  lemma {:induction false} WordBecomesFirstToken(t: Tables, ps: seq<Pattern>, w: string)
    requires t.Sound() && AllProperIn(ps) && IsWord(t, w)
    ensures StubFrom(t, ps, w) == TokenFor(t, ps, w)
    decreases |ps|
  {
    if ps != [] {
      var p, rest := ps[0], ps[1..];
      if Matches(t, p.body, w) {
        WordBecomesToken(t, p, w);
        TokenIsClean(t, rest, p.token);
        PassesSkipClean(t, rest, p.token);
      } else {
        UnmatchedWordIsClean(t, p, w);
        EngineIsFaithful(t, p.body);
        SyntaxSuffices(t, p.body, p.token);
        SubIsIdentityIffClean(t.word, MatcherFor(t, p.body), p.token, w);
        WordBecomesFirstToken(t, rest, w);
      }
    }
  }

  /** Thirteen digits alone are reported as a personal code, two capitals and six digits as an identity card. */
  lemma IdentifiersAreNamed(t: Tables, w: string)
    requires t.Sound() && |w| >= 2
    ensures |w| == 13 && (forall k :: 0 <= k < 13 ==> t.digit(w[k])) ==> Stub(t, w) == "[CNP_REDACTAT]"
    ensures |w| == 8 && 'A' <= w[0] <= 'Z' && 'A' <= w[1] <= 'Z' && (forall k :: 2 <= k < 8 ==> t.digit(w[k])) ==>
              Stub(t, w) == "[CI_REDACTAT]"
  {
    AllProper();
    if |w| == 13 && (forall k :: 0 <= k < 13 ==> t.digit(w[k])) {
      WordBecomesFirstToken(t, PATTERNS, w);
      assert Matches(t, PATTERNS[0].body, w);
    } else if |w| == 8 && IsUpper(w[0]) && IsUpper(w[1]) && (forall k :: 2 <= k < 8 ==> t.digit(w[k])) {
      WordBecomesFirstToken(t, PATTERNS, w);
      assert !Matches(t, PATTERNS[0].body, w);
      assert Matches(t, CI.body.first, w[..2]) && Matches(t, CI.body.second, w[2..]);
      assert PATTERNS[1..][0] == CI;
    }
  }

  // ---------- the entry points ----------

  /** What the two Presidio calls do: absent, raising, or returning any text at all. */
  datatype Presidio = Absent | Raises | Returns(anonymized: string)

  /** The result `redact` must give. */
  function Redacted(t: Tables, text: Option<string>, presidio: Presidio): Option<string> {
    if text == None || text == Some("") then text
    else Some(Stub(t, if presidio.Returns? then presidio.anonymized else text.value))
  }

  /** On every path, for every text and every Presidio outcome, no pattern occurs in the result. */
  lemma RedactedTextIsClean(t: Tables, text: Option<string>, presidio: Presidio)
    requires t.Sound()
    ensures Redacted(t, text, presidio).None? <==> text.None?
    ensures text.Some? ==> CleanOf(t, PATTERNS, Redacted(t, text, presidio).value)
  {
    if text == Some("") {
      AllProper();
      EmptyIsClean(t, PATTERNS);
    } else if text.Some? {
      StubCleans(t, if presidio.Returns? then presidio.anonymized else text.value);
    }
  }

  // ---------- the guarantee in plain terms ----------

  /** `w` stands at [i, j) of `s` with no word character on either side. */
  predicate StandsAt(t: Tables, s: string, i: nat, j: nat, w: string) {
    && i < j <= |s| && s[i..j] == w
    && (i > 0 ==> !t.word(s[i - 1])) && (j < |s| ==> !t.word(s[j]))
  }

  /** Nothing in the language of a pattern stands free in a result, if it begins and ends in word characters. */
  lemma NothingStandsFree(t: Tables, text: string, presidio: Presidio, k: nat, w: string, i: nat, j: nat)
    requires t.Sound() && k < |PATTERNS| && Matches(t, PATTERNS[k].body, w)
    requires w != "" && t.word(w[0]) && t.word(w[|w| - 1])
    ensures !StandsAt(t, Redacted(t, Some(text), presidio).value, i, j, w)
  {
    var out := Redacted(t, Some(text), presidio).value;
    RedactedTextIsClean(t, Some(text), presidio);
    hide PATTERNS, Matches, Redacted, Clean;
    assert Clean(t.word, Lang(t, PATTERNS[k]), out);
    if StandsAt(t, out, i, j, w) {
      StandingIsMatch(t, PATTERNS[k], out, i, j, w);
    }
  }

  /** A body that stands free is guarded by boundaries. */
  lemma StandingIsMatch(t: Tables, p: Pattern, s: string, i: nat, j: nat, w: string)
    requires StandsAt(t, s, i, j, w) && Matches(t, p.body, w) && t.word(w[0]) && t.word(w[|w| - 1])
    ensures !Clean(t.word, Lang(t, p), s)
  {
    hide Matches;
    assert s[i] == w[0] && s[j - 1] == w[|w| - 1];
    assert MatchAt(t.word, Lang(t, p), s, i, j);
    assert !NoneStartsAt(t.word, Lang(t, p), s, i);
  }

  predicate AllDigits(t: Tables, w: string) {
    forall k :: 0 <= k < |w| ==> t.digit(w[k])
  }

  /** No thirteen digits, and no two capitals with six digits. */
  lemma NoIdentifierSurvives(t: Tables, text: string, presidio: Presidio, i: nat, j: nat, w: string)
    requires t.Sound()
    requires (|w| == 13 && AllDigits(t, w))
             || (|w| == 8 && 'A' <= w[0] <= 'Z' && 'A' <= w[1] <= 'Z' && AllDigits(t, w[2..]))
    ensures !StandsAt(t, Redacted(t, Some(text), presidio).value, i, j, w)
  {
    if |w| == 13 {
      assert Matches(t, PATTERNS[0].body, w);
      NothingStandsFree(t, text, presidio, 0, w, i, j);
    } else {
      assert Matches(t, CI.body.first, w[..2]) && Matches(t, CI.body.second, w[2..]);
      CatIntro(t, CI.body.first, CI.body.second, w[..2], w[2..]);
      assert w == w[..2] + w[2..] && w[2..][5] == w[7];
      NothingStandsFree(t, text, presidio, 1, w, i, j);
    }
  }

  lemma CatIntro(t: Tables, a: Re, b: Re, u: string, v: string)
    requires Matches(t, a, u) && Matches(t, b, v)
    ensures Matches(t, Cat(a, b), u + v)
  {
    assert (u + v)[..|u|] == u && (u + v)[|u|..] == v;
  }

  /** Four groups of four digits, neighbours apart by at most one space or dash. */
  datatype CardText = CardText(a: string, s1: string, b: string, s2: string, c: string, s3: string, d: string) {
    function Text(): string { a + s1 + (b + s2 + (c + s3 + d)) }

    predicate IsCard(t: Tables) {
      && IsGroup(t, a) && IsGroup(t, b) && IsGroup(t, c) && IsGroup(t, d)
      && IsGap(t, s1) && IsGap(t, s2) && IsGap(t, s3)
    }

    static predicate IsGroup(t: Tables, w: string) { |w| == 4 && AllDigits(t, w) }

    static predicate IsGap(t: Tables, w: string) { w == "" || (|w| == 1 && (t.space(w[0]) || w[0] == '-')) }
  }

  lemma CardMatches(t: Tables, card: CardText)
    requires card.IsCard(t)
    ensures Matches(t, CARD.body, card.Text())
  {
    GroupMatches(t, card.a, card.s1);
    GroupMatches(t, card.b, card.s2);
    GroupMatches(t, card.c, card.s3);
    assert Matches(t, FOUR_DIGITS, card.d);
    hide Matches;
    CatIntro(t, GROUP, FOUR_DIGITS, card.c + card.s3, card.d);
    CatIntro(t, GROUP, Cat(GROUP, FOUR_DIGITS), card.b + card.s2, card.c + card.s3 + card.d);
    CatIntro(t, GROUP, Cat(GROUP, Cat(GROUP, FOUR_DIGITS)),
             card.a + card.s1, card.b + card.s2 + (card.c + card.s3 + card.d));
  }

  lemma GroupMatches(t: Tables, g: string, gap: string)
    requires CardText.IsGroup(t, g) && CardText.IsGap(t, gap)
    ensures Matches(t, GROUP, g + gap)
  {
    assert Matches(t, FOUR_DIGITS, g) && Matches(t, GROUP.second, gap);
    CatIntro(t, FOUR_DIGITS, GROUP.second, g, gap);
  }

  lemma NoCardSurvives(t: Tables, text: string, presidio: Presidio, i: nat, j: nat, card: CardText)
    requires t.Sound() && card.IsCard(t)
    ensures !StandsAt(t, Redacted(t, Some(text), presidio).value, i, j, card.Text())
  {
    CardMatches(t, card);
    hide Matches;
    var w := card.Text();
    assert w[0] == card.a[0] && w[|w| - 1] == card.d[3];
    NothingStandsFree(t, text, presidio, 4, w, i, j);
  }

  /** A name, an at-sign, a host and a dotted suffix of two letters or more. */
  datatype Address = Address(local: string, host: string, suffix: string) {
    function Text(): string { local + ("@" + (host + ("." + suffix))) }

    predicate IsAddress(t: Tables) {
      && local != "" && (forall c :: c in local ==> t.word(c) || c == '.' || c == '+' || c == '-')
      && host != "" && (forall c :: c in host ==> t.word(c) || c == '-')
      && |suffix| >= 2 && (forall c :: c in suffix ==> IsSuffixLetter(c))
    }
  }

  /** A letter of the suffix: a to z or A to Z, or one of the four others that fold into them. */
  predicate IsSuffixLetter(c: char) {
    'a' <= c <= 'z' || 'A' <= c <= 'Z' || c == '\U{0130}' || c == '\U{0131}' || c == '\U{017F}' || c == '\U{212A}'
  }

  lemma AddressMatches(t: Tables, a: Address)
    requires a.IsAddress(t)
    ensures Matches(t, EMAIL.body, a.Text())
  {
    var tail := EMAIL.body.second;
    assert Matches(t, EMAIL.body.first, a.local) && Matches(t, tail.first, "@");
    assert Matches(t, tail.second.first, a.host);
    assert Matches(t, tail.second.second.first, ".") && Matches(t, tail.second.second.second, a.suffix);
    hide Matches;
    CatIntro(t, tail.second.second.first, tail.second.second.second, ".", a.suffix);
    CatIntro(t, tail.second.first, tail.second.second, a.host, "." + a.suffix);
    CatIntro(t, tail.first, tail.second, "@", a.host + ("." + a.suffix));
    CatIntro(t, EMAIL.body.first, tail, a.local, "@" + (a.host + ("." + a.suffix)));
  }

  lemma NoAddressSurvives(t: Tables, text: string, presidio: Presidio, i: nat, j: nat, a: Address)
    requires t.Sound() && a.IsAddress(t) && t.word(a.local[0])
    ensures !StandsAt(t, Redacted(t, Some(text), presidio).value, i, j, a.Text())
  {
    AddressMatches(t, a);
    hide Matches;
    var w, last := a.Text(), a.suffix[|a.suffix| - 1];
    assert last in a.suffix && FoldsToLatin(last);
    assert w[0] == a.local[0] && w[|w| - 1] == last;
    NothingStandsFree(t, text, presidio, 3, w, i, j);
  }

  const PHONE_PREFIXES := ["", "0", "40", "0-", "40-", "0 ", "40 "]

  lemma PrefixMatches(t: Tables, prefix: string)
    requires t.Sound() && prefix in PHONE_PREFIXES
    ensures Matches(t, TEL.body.first, prefix)
  {
    var re := TEL.body.first.inner;
    if prefix != "" {
      var four := if prefix[0] == '4' then "4" else "";
      var sep := prefix[|four| + 1..];
      assert Matches(t, re.first, "") && Matches(t, re.second.first, four);
      assert Matches(t, re.second.second.first, "0") && Matches(t, re.second.second.second, sep);
      assert prefix == "" + (four + ("0" + sep));
      CatIntro(t, re.second.second.first, re.second.second.second, "0", sep);
      CatIntro(t, re.second.first, re.second.second, four, "0" + sep);
      CatIntro(t, re.first, re.second, "", four + ("0" + sep));
    }
  }

  lemma PhoneMatches(t: Tables, prefix: string, number: string)
    requires t.Sound() && prefix in PHONE_PREFIXES
    requires 9 <= |number| <= 10 && forall c :: c in number ==> '0' <= c <= '9'
    ensures Matches(t, TEL.body, prefix + number)
  {
    assert Matches(t, TEL.body.second, number);
    hide Matches;
    PrefixMatches(t, prefix);
    CatIntro(t, TEL.body.first, TEL.body.second, prefix, number);
  }

  /** Nine or ten digits, alone or after 0 or 40 with or without a space or dash. */
  lemma NoPhoneSurvives(t: Tables, text: string, presidio: Presidio, i: nat, j: nat, prefix: string, number: string)
    requires t.Sound() && prefix in PHONE_PREFIXES
    requires 9 <= |number| <= 10 && forall c :: c in number ==> '0' <= c <= '9'
    ensures !StandsAt(t, Redacted(t, Some(text), presidio).value, i, j, prefix + number)
  {
    PhoneMatches(t, prefix, number);
    hide Matches;
    var w, first, last := prefix + number, if prefix == "" then number[0] else prefix[0], number[|number| - 1];
    assert number[0] in number && last in number;
    assert w[0] == first && w[|w| - 1] == last;
    NothingStandsFree(t, text, presidio, 2, w, i, j);
  }

  method RunPasses(t: Tables, ps: seq<Pattern>, text: string) returns (redacted: string)
    requires t.Sound() && AllProperIn(ps)
    ensures redacted == StubFrom(t, ps, text)
  {
    redacted := text;
    for k := 0 to |ps|
      invariant StubFrom(t, ps[k..], redacted) == StubFrom(t, ps, text)
    {
      var p := ps[k];
      EngineIsFaithful(t, p.body);
      SyntaxSuffices(t, p.body, p.token);
      assert ps[k..][1..] == ps[k + 1..];
      redacted := Substitute(t.word, MatcherFor(t, p.body), p.token, redacted);
    }
  }

  method RegexStubRedact(t: Tables, text: string) returns (redacted: string)
    requires t.Sound()
    ensures redacted == Stub(t, text)
  {
    AllProper();
    redacted := RunPasses(t, PATTERNS, text);
  }

  /** `redact`, with Presidio's behaviour as an input. */
  method Redact(t: Tables, text: Option<string>, presidio: Presidio) returns (r: Option<string>)
    requires t.Sound()
    ensures r == Redacted(t, text, presidio)
    ensures text.Some? && text.value != "" && presidio.Returns? ==> r == Some(Stub(t, presidio.anonymized))
    ensures text.Some? && text.value != "" && !presidio.Returns? ==> r == Some(Stub(t, text.value))
    ensures text == None || text == Some("") ==> r == text
    ensures r.Some? ==> CleanOf(t, PATTERNS, r.value)
  {
    RedactedTextIsClean(t, text, presidio);
    if text == None || text == Some("") {
      return text;
    }
    var out;
    match presidio {
      case Absent => out := RegexStubRedact(t, text.value);
      case Returns(anonymized) => out := RegexStubRedact(t, anonymized);
      case Raises => out := RegexStubRedact(t, text.value);
    }
    r := Some(out);
  }
}
