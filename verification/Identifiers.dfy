/**
  What the five redaction patterns (apps/ai-worker/app/redaction.py) say, in plain terms: the
  texts each of them matches, and the result for a text that is one identifier, character by
  character and token by token.

  Main results: `CnpIs`, `CiIs`, `TelIs`, `EmailIs` and `CardIs` (both directions), `EmailIsNamed`,
  `PhoneIsNamed`, `CardIsNamed` (exactly which card numbers become the card token, the others being
  taken for a phone number in part), and `IdentifierHidesAddress` and `LongNameIsAddress` (what the
  order of the passes decides).
 */
module Identifiers {
  import opened Options
  import opened Regex
  import opened Substitution
  import opened Redaction

  // ---------- the five languages ----------

  predicate IsAsciiDigit(c: char) { '0' <= c <= '9' }

  predicate AsciiDigits(w: string) { forall c :: c in w ==> IsAsciiDigit(c) }

  lemma CatSplits(t: Tables, a: Re, b: Re, w: string) returns (u: string, v: string)
    requires Matches(t, Cat(a, b), w)
    ensures w == u + v && Matches(t, a, u) && Matches(t, b, v)
  {
    var k :| 0 <= k <= |w| && Matches(t, a, w[..k]) && Matches(t, b, w[k..]);
    u, v := w[..k], w[k..];
  }

  lemma OneIs(t: Tables, c: char, w: string)
    ensures Matches(t, Rep(Only(c), 1, Some(1)), w) <==> w == [c]
  {
    if |w| == 1 { assert w[0] in w && w == [w[0]]; }
  }

  lemma MaybeIs(t: Tables, c: char, w: string)
    ensures Matches(t, Rep(Only(c), 0, Some(1)), w) <==> w == [] || w == [c]
  {
    if |w| == 1 { assert w[0] in w && w == [w[0]]; }
  }

  /** Thirteen digits. */
  lemma CnpIs(t: Tables, w: string)
    ensures Matches(t, PATTERNS[0].body, w) <==> |w| == 13 && AllDigits(t, w)
  {
    assert forall k :: 0 <= k < |w| ==> w[k] in w;
  }

  predicate IsIdentityCard(t: Tables, w: string) {
    |w| == 8 && 'A' <= w[0] <= 'Z' && 'A' <= w[1] <= 'Z' && AllDigits(t, w[2..])
  }

  /** Two capitals and six digits. */
  lemma CiIs(t: Tables, w: string)
    ensures Matches(t, PATTERNS[1].body, w) <==> IsIdentityCard(t, w)
  {
    if Matches(t, PATTERNS[1].body, w) {
      var u, v := CatSplits(t, CI.body.first, CI.body.second, w);
      assert u[0] in u && u[1] in u && w[2..] == v;
      assert forall k :: 0 <= k < |v| ==> v[k] in v;
    }
    if IsIdentityCard(t, w) {
      assert w == w[..2] + w[2..];
      CatIntro(t, CI.body.first, CI.body.second, w[..2], w[2..]);
    }
  }

  /** Nothing, or an optional plus, an optional 4, a 0 and an optional space or dash. */
  ghost predicate IsPhonePrefix(t: Tables, p: string) {
    p == "" || exists plus, four, sep ::
                 plus in ["", "+"] && four in ["", "4"] && CardText.IsGap(t, sep) && p == plus + (four + ("0" + sep))
  }

  ghost predicate IsPhone(t: Tables, prefix: string, number: string) {
    IsPhonePrefix(t, prefix) && 9 <= |number| <= 10 && AsciiDigits(number)
  }

  lemma GapIs(t: Tables, w: string)
    ensures Matches(t, Rep(SpaceOrDash, 0, Some(1)), w) <==> CardText.IsGap(t, w)
  {
    if |w| == 1 { assert w[0] in w && w == [w[0]]; }
  }

  lemma PhonePrefixIs(t: Tables, p: string)
    ensures Matches(t, TEL.body.first, p) <==> IsPhonePrefix(t, p)
  {
    var re := TEL.body.first.inner;
    if p != "" && Matches(t, TEL.body.first, p) {
      var plus, rest := CatSplits(t, re.first, re.second, p);
      var four, rest' := CatSplits(t, re.second.first, re.second.second, rest);
      var zero, sep := CatSplits(t, re.second.second.first, re.second.second.second, rest');
      MaybeIs(t, '+', plus);
      MaybeIs(t, '4', four);
      OneIs(t, '0', zero);
      GapIs(t, sep);
      hide Matches;
      assert plus in ["", "+"] && four in ["", "4"] && p == plus + (four + ("0" + sep));
    }
    if p != "" && IsPhonePrefix(t, p) {
      var plus, four, sep :|
        plus in ["", "+"] && four in ["", "4"] && CardText.IsGap(t, sep) && p == plus + (four + ("0" + sep));
      MaybeIs(t, '+', plus);
      MaybeIs(t, '4', four);
      OneIs(t, '0', "0");
      GapIs(t, sep);
      hide Matches;
      CatIntro(t, re.second.second.first, re.second.second.second, "0", sep);
      CatIntro(t, re.second.first, re.second.second, four, "0" + sep);
      CatIntro(t, re.first, re.second, plus, four + ("0" + sep));
      OptIntro(t, re, p);
    }
  }

  lemma OptIntro(t: Tables, re: Re, w: string)
    requires Matches(t, re, w)
    ensures Matches(t, Opt(re), w)
  {
  }

  /** A prefix and nine or ten ASCII digits. */
  lemma TelIs(t: Tables, w: string)
    ensures Matches(t, PATTERNS[2].body, w) <==>
            exists prefix, number :: w == prefix + number && IsPhone(t, prefix, number)
  {
    if Matches(t, PATTERNS[2].body, w) {
      var prefix, number := CatSplits(t, TEL.body.first, TEL.body.second, w);
      PhonePrefixIs(t, prefix);
      assert IsPhone(t, prefix, number);
    }
    if prefix, number :| w == prefix + number && IsPhone(t, prefix, number) {
      PhonePrefixIs(t, prefix);
      assert Matches(t, TEL.body.second, number);
      CatIntro(t, TEL.body.first, TEL.body.second, prefix, number);
    }
  }

  /** A name, an at-sign, a host, a dot and a suffix of two letters or more. */
  lemma EmailIs(t: Tables, w: string)
    requires t.Sound()
    ensures Matches(t, PATTERNS[3].body, w) <==> exists a: Address :: w == a.Text() && a.IsAddress(t)
  {
    if Matches(t, PATTERNS[3].body, w) {
      var a := AddressOf(t, w);
    }
    if a: Address :| w == a.Text() && a.IsAddress(t) {
      AddressMatches(t, a);
    }
  }

  lemma AddressOf(t: Tables, w: string) returns (a: Address)
    requires t.Sound() && Matches(t, EMAIL.body, w)
    ensures w == a.Text() && a.IsAddress(t) && 1 <= |a.local| < |w| && w[|a.local|] == '@'
  {
    var tail := EMAIL.body.second;
    var local, w1 := CatSplits(t, EMAIL.body.first, tail, w);
    var at, w2 := CatSplits(t, tail.first, tail.second, w1);
    var host, w3 := CatSplits(t, tail.second.first, tail.second.second, w2);
    var dot, suffix := CatSplits(t, tail.second.second.first, tail.second.second.second, w3);
    OneIs(t, '@', at);
    OneIs(t, '.', dot);
    a := Address(local, host, suffix);
  }

  /** Four groups of four digits with gaps of at most one space or dash. */
  lemma CardIs(t: Tables, w: string)
    ensures Matches(t, PATTERNS[4].body, w) <==> exists card: CardText :: w == card.Text() && card.IsCard(t)
  {
    if Matches(t, PATTERNS[4].body, w) {
      var card := CardOf(t, w);
    }
    if card: CardText :| w == card.Text() && card.IsCard(t) {
      CardMatches(t, card);
    }
  }

  lemma GroupOf(t: Tables, w: string) returns (g: string, gap: string)
    requires Matches(t, GROUP, w)
    ensures w == g + gap && CardText.IsGroup(t, g) && CardText.IsGap(t, gap)
  {
    g, gap := CatSplits(t, FOUR_DIGITS, GROUP.second, w);
    GapIs(t, gap);
    assert forall k :: 0 <= k < |g| ==> g[k] in g;
  }

  lemma CardOf(t: Tables, w: string) returns (card: CardText)
    requires Matches(t, CARD.body, w)
    ensures w == card.Text() && card.IsCard(t)
  {
    var w0, r0 := CatSplits(t, GROUP, Cat(GROUP, Cat(GROUP, FOUR_DIGITS)), w);
    var w1, r1 := CatSplits(t, GROUP, Cat(GROUP, FOUR_DIGITS), r0);
    var w2, d := CatSplits(t, GROUP, FOUR_DIGITS, r1);
    assert forall k :: 0 <= k < |d| ==> d[k] in d;
    var a, s1 := GroupOf(t, w0);
    var b, s2 := GroupOf(t, w1);
    var c, s3 := GroupOf(t, w2);
    hide Matches;
    card := CardText(a, s1, b, s2, c, s3, d);
  }

  // ---------- one identifier at the head of a text ----------

  /** Passes whose patterns do not occur can be left out. */
  lemma {:induction false} CleanPassesSkip(t: Tables, ps: seq<Pattern>, k: nat, s: string)
    requires t.Sound() && AllProperIn(ps) && k <= |ps| && CleanOf(t, ps[..k], s)
    ensures StubFrom(t, ps, s) == StubFrom(t, ps[k..], s)
    decreases k
  {
    hide Matches, Clean, Try;
    if k > 0 {
      var p := ps[0];
      assert ps[..k][0] == p && Clean(t.word, Lang(t, p), s);
      EngineIsFaithful(t, p.body);
      SyntaxSuffices(t, p.body, p.token);
      SubIsIdentityIffClean(t.word, MatcherFor(t, p.body), p.token, s);
      assert ps[..k][1..] == ps[1..][..k - 1] && ps[1..][k - 1..] == ps[k..];
      var before := ps[1..][..k - 1];
      forall m | 0 <= m < |before| ensures Clean(t.word, Lang(t, before[m]), s) {
        assert before[m] == ps[..k][m + 1];
      }
      CleanPassesSkip(t, ps[1..], k - 1, s);
    }
  }

  /** The one match of a pattern in a text is at [i, n). */
  ghost predicate OnlyMatches(t: Tables, p: Pattern, s: string, i: nat, n: nat) {
    && i < n <= |s| && MatchAt(t.word, Lang(t, p), s, i, n)
    && (forall j: nat :: MatchAt(t.word, Lang(t, p), s, i, j) ==> j == n)
    && (forall k: nat :: k < i || n <= k ==> NoneStartsAt(t.word, Lang(t, p), s, k))
  }

  lemma MatchIsReplaced(t: Tables, p: Pattern, s: string, i: nat, n: nat)
    requires t.Sound() && Proper(p) && OnlyMatches(t, p, s, i, n)
    ensures Sub(MatcherFor(t, p.body), p.token, s) == s[..i] + (p.token + s[n..])
  {
    hide Matches, Proper, Tables.Sound;
    var m := MatcherFor(t, p.body);
    EngineIsFaithful(t, p.body);
    assert FaithfulAt(t.word, m, s, i);
    assert m.find(s, i) == Some(n);
    hide Try, Faithful, MatchAt;
    GapIsCopied(t.word, m, p.token, s, 0, i);
    GapIsCopied(t.word, m, p.token, s, n, |s|);
    assert s[n..|s|] + SubFrom(m, p.token, s, |s|) == s[n..] && s[0..i] == s[..i];
  }

  /** The k-th pattern replaces its one match, the passes before it change nothing, and those after it neither. */
  lemma MatchIsNamed(t: Tables, k: nat, s: string, i: nat, n: nat)
    requires t.Sound() && k < |PATTERNS| && OnlyMatches(t, PATTERNS[k], s, i, n)
    requires CleanOf(t, PATTERNS[..k], s) && CleanOf(t, PATTERNS[k + 1..], s[..i] + (PATTERNS[k].token + s[n..]))
    ensures Stub(t, s) == s[..i] + (PATTERNS[k].token + s[n..])
  {
    AllProper();
    assert i <= n <= |s|;
    hide PATTERNS, OnlyMatches, CleanOf, Proper;
    CleanPassesSkip(t, PATTERNS, k, s);
    var p, later := PATTERNS[k], PATTERNS[k + 1..];
    ProperParts(PATTERNS, k);
    MatchIsReplaced(t, p, s, i, n);
    assert PATTERNS[k..][0] == p && PATTERNS[k..][1..] == later;
    PassesSkipClean(t, later, s[..i] + (p.token + s[n..]));
  }

  lemma ProperParts(ps: seq<Pattern>, k: nat)
    requires AllProperIn(ps) && k < |ps|
    ensures Proper(ps[k]) && AllProperIn(ps[k + 1..])
  {
  }

  /** A text that is one match becomes the token alone. */
  lemma WholeIsNamed(t: Tables, k: nat, s: string)
    requires t.Sound() && k < |PATTERNS| && OnlyMatches(t, PATTERNS[k], s, 0, |s|) && CleanOf(t, PATTERNS[..k], s)
    ensures Stub(t, s) == PATTERNS[k].token
  {
    AllProper();
    hide PATTERNS, OnlyMatches, Proper;
    ProperParts(PATTERNS, k);
    assert s[..0] + (PATTERNS[k].token + s[|s|..]) == PATTERNS[k].token;
    assert Proper(PATTERNS[k]);
    TokenIsToken(PATTERNS[k]);
    TokenIsClean(t, PATTERNS[k + 1..], PATTERNS[k].token);
    MatchIsNamed(t, k, s, 0, |s|);
  }

  lemma TokenIsToken(p: Pattern)
    requires Proper(p)
    ensures IsToken(p.token)
  {
  }

  // ---------- what a match must hold ----------

  ghost predicate HasDigit(t: Tables, s: string) { exists c :: c in s && t.digit(c) }

  /** Every pattern but the address needs a digit. */
  lemma MatchHasDigit(t: Tables, k: nat, w: string)
    requires t.Sound() && k in [0, 1, 2, 4] && Matches(t, PATTERNS[k].body, w)
    ensures HasDigit(t, w)
  {
    if k == 0 {
      CnpIs(t, w);
      assert w[0] in w;
    } else if k == 1 {
      CiIs(t, w);
      assert w[2..][0] == w[2] && w[2] in w;
    } else if k == 2 {
      TelIs(t, w);
      hide Matches;
      var prefix, number :| w == prefix + number && IsPhone(t, prefix, number);
      assert number[0] in number && number[0] in w;
    } else {
      var card := CardOf(t, w);
      assert card.a[0] in card.a && card.a[0] in w;
    }
  }

  lemma NoDigitsClean(t: Tables, k: nat, s: string)
    requires t.Sound() && k in [0, 1, 2, 4] && !HasDigit(t, s)
    ensures Clean(t.word, Lang(t, PATTERNS[k]), s)
  {
    SlicesHaveNoDigit(t, s);
    forall i: nat, j: nat ensures !MatchAt(t.word, Lang(t, PATTERNS[k]), s, i, j) {
      if MatchAt(t.word, Lang(t, PATTERNS[k]), s, i, j) {
        MatchHasDigit(t, k, s[i..j]);
      }
    }
  }

  lemma SlicesHaveNoDigit(t: Tables, s: string)
    requires !HasDigit(t, s)
    ensures forall i, j :: 0 <= i <= j <= |s| ==> !HasDigit(t, s[i..j])
  {
    forall i, j | 0 <= i <= j <= |s| ensures !HasDigit(t, s[i..j]) {
      assert forall c :: c in s[i..j] ==> c in s;
    }
  }

  // ---------- an address alone ----------

  function FirstOf(s: string, c: char): nat {
    if s == "" || s[0] == c then 0 else 1 + FirstOf(s[1..], c)
  }

  lemma {:induction false} FirstIsBehind(u: string, c: char, rest: string)
    requires c !in u
    ensures FirstOf(u + ([c] + rest), c) == |u|
    decreases |u|
  {
    var s := u + ([c] + rest);
    if u != "" {
      assert s[0] == u[0] && u[0] in u;
      assert s[1..] == u[1..] + ([c] + rest);
      FirstIsBehind(u[1..], c, rest);
    }
  }

  lemma SameAround(u: string, x: string, v: string, y: string, c: char)
    requires u + ([c] + x) == v + ([c] + y) && c !in u && c !in v
    ensures u == v && x == y
  {
    FirstIsBehind(u, c, x);
    FirstIsBehind(v, c, y);
    var s := u + ([c] + x);
    assert s[..|u|] == u && (v + ([c] + y))[..|u|] == v;
    assert s[|u| + 1..] == x && (v + ([c] + y))[|u| + 1..] == y;
  }

  /** A text that starts with an address can be cut at the at-sign and at the dot in one way only. */
  lemma OneAddress(t: Tables, a: Address, b: Address, rest: string)
    requires t.Sound() && a.IsAddress(t) && b.IsAddress(t) && a.Text() == b.Text() + rest
    ensures a.local == b.local && a.host == b.host && a.suffix == b.suffix + rest
  {
    assert '@' !in a.local && '@' !in b.local && '.' !in a.host && '.' !in b.host;
    hide Tables.Sound, Address.IsAddress;
    var x, y := a.host + ("." + a.suffix), b.host + ("." + (b.suffix + rest));
    assert b.Text() + rest == b.local + ("@" + y);
    SameAround(a.local, x, b.local, y, '@');
    SameAround(a.host, a.suffix, b.host, b.suffix + rest, '.');
  }

  lemma NoBoundaryInSuffix(t: Tables, a: Address)
    requires t.Sound() && a.IsAddress(t)
    ensures forall j: nat :: |a.Text()| - |a.suffix| < j < |a.Text()| ==> !BoundaryIn(t.word, false, a.Text(), j)
  {
    var s, n := a.Text(), |a.Text()| - |a.suffix|;
    assert s[n..] == a.suffix;
    forall j: nat | n < j < |s| ensures !BoundaryIn(t.word, false, s, j) {
      assert s[j - 1] == a.suffix[j - 1 - n] && s[j] == a.suffix[j - n];
      assert a.suffix[j - 1 - n] in a.suffix && a.suffix[j - n] in a.suffix;
      assert FoldsToLatin(s[j - 1]) && FoldsToLatin(s[j]);
    }
  }

  /** A match at the start of an address ends where the address ends. */
  lemma AddressEndsOnce(t: Tables, a: Address, j: nat)
    requires t.Sound() && a.IsAddress(t) && MatchAt(t.word, Lang(t, PATTERNS[3]), a.Text(), 0, j)
    ensures j == |a.Text()|
  {
    var s := a.Text();
    NoBoundaryInSuffix(t, a);
    assert s == s[0..j] + s[j..];
    var b := AddressOf(t, s[0..j]);
    hide Matches;
    OneAddress(t, a, b, s[j..]);
    assert |b.suffix| >= 2;
  }

  /** An address alone becomes its token, unless one of the three passes before finds something in it. */
  lemma AddressIsNamed(t: Tables, a: Address)
    requires t.Sound() && a.IsAddress(t) && t.word(a.local[0]) && CleanOf(t, PATTERNS[..3], a.Text())
    ensures Stub(t, a.Text()) == "[EMAIL_REDACTAT]"
  {
    hide CleanOf;
    AddressIsOnlyMatch(t, a);
    WholeIsNamed(t, 3, a.Text());
  }

  lemma AddressIsOnlyMatch(t: Tables, a: Address)
    requires t.Sound() && a.IsAddress(t) && t.word(a.local[0])
    ensures OnlyMatches(t, PATTERNS[3], a.Text(), 0, |a.Text()|)
  {
    var s := a.Text();
    AddressMatches(t, a);
    var last := a.suffix[|a.suffix| - 1];
    assert last in a.suffix && FoldsToLatin(last) && s[0] == a.local[0] && s[|s| - 1] == last;
    hide Matches, Address.IsAddress;
    forall j: nat | MatchAt(t.word, Lang(t, PATTERNS[3]), s, 0, j) ensures j == |s| { AddressEndsOnce(t, a, j); }
    EmailProper();
    OnlyWholeMatches(t, PATTERNS[3], s);
  }

  /** A text that is one match, and of which no shorter head is one. */
  lemma OnlyWholeMatches(t: Tables, p: Pattern, s: string)
    requires t.Sound() && Proper(p) && Matches(t, p.body, s) && s != "" && t.word(s[0]) && t.word(s[|s| - 1])
    requires forall j: nat :: MatchAt(t.word, Lang(t, p), s, 0, j) ==> j == |s|
    ensures OnlyMatches(t, p, s, 0, |s|)
  {
    SyntaxSuffices(t, p.body, p.token);
    NoMatchPastEnd(t.word, Lang(t, p), s);
    hide Matches, Sealed, Proper;
    assert s[0..|s|] == s;
  }

  predicate IsLetter(c: char) { 'a' <= c <= 'z' || 'A' <= c <= 'Z' }

  /** Letters, dots, pluses, dashes and underscores before the at-sign, letters and dashes after it, a dot, letters. */
  lemma EmailIsNamed(t: Tables, local: string, host: string, suffix: string)
    requires t.Sound()
    requires local != "" && IsLetter(local[0])
    requires forall c :: c in local ==> IsLetter(c) || c == '.' || c == '+' || c == '-' || c == '_'
    requires host != "" && forall c :: c in host ==> IsLetter(c) || c == '-'
    requires |suffix| >= 2 && forall c :: c in suffix ==> IsLetter(c)
    ensures Stub(t, local + "@" + host + "." + suffix) == "[EMAIL_REDACTAT]"
  {
    var a := Address(local, host, suffix);
    assert local + "@" + host + "." + suffix == a.Text();
    assert !HasDigit(t, a.Text());
    NoDigitsClean(t, 0, a.Text());
    NoDigitsClean(t, 1, a.Text());
    NoDigitsClean(t, 2, a.Text());
    AddressIsNamed(t, a);
  }

  // ---------- a phone number alone ----------

  /** Neither a capital nor an at-sign. */
  predicate IsPhoneCharacter(c: char) { !IsUpper(c) && c != '@' }

  /** What a space or a dash is not. */
  predicate IsGapCharacter(t: Tables, c: char) {
    !t.word(c) && !t.digit(c) && IsPhoneCharacter(c) && c != '+'
  }

  lemma GapShape(t: Tables, sep: string)
    requires t.Sound() && CardText.IsGap(t, sep)
    ensures |sep| <= 1 && forall c :: c in sep ==> IsGapCharacter(t, c)
  {
  }

  lemma PrefixShape(t: Tables, prefix: string)
    requires t.Sound() && IsPhonePrefix(t, prefix)
    ensures |prefix| <= 4 && (|prefix| == 4 ==> prefix[0] == '+')
    ensures prefix != "" && prefix[0] != '+' ==> t.digit(prefix[0]) && (|prefix| == 3 ==> !t.digit(prefix[2]))
    ensures forall c :: c in prefix ==> IsPhoneCharacter(c)
  {
    if prefix != "" {
      var plus, four, sep :|
        plus in ["", "+"] && four in ["", "4"] && CardText.IsGap(t, sep) && prefix == plus + (four + ("0" + sep));
      GapShape(t, sep);
      assert t.digit('0') && t.digit('4');
      hide Tables.Sound, CardText.IsGap;
      assert plus == "" || plus == "+";
      assert four == "" || four == "4";
      assert |prefix| == |plus| + |four| + 1 + |sep|;
      if |prefix| == 3 && plus == "" { assert prefix[2] == sep[0] && sep[0] in sep; }
    }
  }

  /** What a phone number is made of, character by character. */
  lemma PhoneShape(t: Tables, prefix: string, number: string)
    requires t.Sound() && IsPhone(t, prefix, number)
    ensures |prefix| <= 4 && (|prefix| == 4 ==> prefix[0] == '+')
    ensures forall k :: 0 <= k < |number| ==> t.digit(number[k])
    ensures prefix != "" && prefix[0] != '+' ==> t.digit(prefix[0]) && (|prefix| == 3 ==> !t.digit(prefix[2]))
    ensures forall c :: c in prefix + number ==> IsPhoneCharacter(c)
  {
    PrefixShape(t, prefix);
    hide IsPhonePrefix;
    assert forall k :: 0 <= k < |number| ==> number[k] in number;
  }

  lemma PhoneMatchIsLong(t: Tables, w: string)
    requires t.Sound() && Matches(t, PATTERNS[2].body, w)
    ensures 9 <= |w| <= 14 && '@' !in w
  {
    TelIs(t, w);
    hide Matches;
    var prefix, number :| w == prefix + number && IsPhone(t, prefix, number);
    PhoneShape(t, prefix, number);
  }

  lemma PhoneHoldsNoIdentifier(t: Tables, prefix: string, number: string)
    requires t.Sound() && IsPhone(t, prefix, number) && (prefix != "" ==> prefix[0] != '+')
    ensures Clean(t.word, Lang(t, PATTERNS[0]), prefix + number)
    ensures Clean(t.word, Lang(t, PATTERNS[1]), prefix + number)
  {
    var s := prefix + number;
    PhoneShape(t, prefix, number);
    forall i: nat, j: nat ensures !MatchAt(t.word, Lang(t, PATTERNS[0]), s, i, j) {
      if i <= j <= |s| {
        CnpIs(t, s[i..j]);
        assert j - i == 13 ==> i == 0 && |prefix| == 3 && s[i..j][2] == prefix[2];
      }
    }
    forall i: nat, j: nat ensures !MatchAt(t.word, Lang(t, PATTERNS[1]), s, i, j) {
      if i <= j <= |s| {
        CiIs(t, s[i..j]);
        assert i < j ==> s[i..j][0] == s[i] && s[i] in s;
      }
    }
  }

  /** A phone number alone, with any of its prefixes but a plus sign, which no word boundary precedes. */
  lemma PhoneIsNamed(t: Tables, prefix: string, number: string)
    requires t.Sound() && IsPhone(t, prefix, number) && (prefix != "" ==> prefix[0] != '+')
    ensures Stub(t, prefix + number) == "[TEL_REDACTAT]"
  {
    PhoneHoldsNoIdentifier(t, prefix, number);
    PhoneIsOnlyMatch(t, prefix, number);
    hide IsPhone, Clean, OnlyMatches;
    assert CleanOf(t, PATTERNS[..2], prefix + number);
    WholeIsNamed(t, 2, prefix + number);
  }

  lemma PhoneEndsInDigits(t: Tables, prefix: string, number: string)
    requires t.Sound() && IsPhone(t, prefix, number) && (prefix != "" ==> prefix[0] != '+')
    ensures var s := prefix + number; s != "" && t.word(s[0]) && t.word(s[|s| - 1])
  {
    PhoneShape(t, prefix, number);
    var s := prefix + number;
    assert s[0] == if prefix == "" then number[0] else prefix[0];
    assert s[|s| - 1] == number[|number| - 1];
    hide IsPhone;
  }

  lemma PhoneIsOnlyMatch(t: Tables, prefix: string, number: string)
    requires t.Sound() && IsPhone(t, prefix, number) && (prefix != "" ==> prefix[0] != '+')
    ensures OnlyMatches(t, PATTERNS[2], prefix + number, 0, |prefix + number|)
  {
    hide Matches, IsPhone, Tables.Sound;
    var s := prefix + number;
    TelIs(t, s);
    PhoneEndsInDigits(t, prefix, number);
    forall j: nat | MatchAt(t.word, Lang(t, PATTERNS[2]), s, 0, j) ensures j == |s| {
      PhoneEndsOnce(t, prefix, number, j);
    }
    TelProper();
    OnlyWholeMatches(t, PATTERNS[2], s);
  }

  lemma PhoneEndsOnce(t: Tables, prefix: string, number: string, j: nat)
    requires t.Sound() && IsPhone(t, prefix, number) && (prefix != "" ==> prefix[0] != '+')
    requires MatchAt(t.word, Lang(t, PATTERNS[2]), prefix + number, 0, j)
    ensures j == |prefix + number|
  {
    var s, n := prefix + number, |prefix|;
    PhoneShape(t, prefix, number);
    PhoneMatchIsLong(t, s[0..j]);
    hide Matches, IsPhone;
    assert n < 9 <= j;
    forall k: nat | n < k < |s| ensures !BoundaryIn(t.word, false, s, k) {
      assert s[k - 1] == number[k - 1 - n] && s[k] == number[k - n];
    }
  }

  /** Ten digits alone, in plain characters. */
  lemma TenDigitsAreNamed(t: Tables, w: string)
    requires t.Sound() && |w| == 10 && forall k :: 0 <= k < 10 ==> '0' <= w[k] <= '9'
    ensures Stub(t, w) == "[TEL_REDACTAT]"
  {
    assert IsPhone(t, "", w) && "" + w == w;
    PhoneIsNamed(t, "", w);
  }

  // ---------- what the order of the passes decides ----------

  /** The first three patterns hold no at-sign, and their lengths tell them apart. */
  lemma ShapeOfIdentifier(t: Tables, k: nat, w: string)
    requires t.Sound() && k < 3 && Matches(t, PATTERNS[k].body, w)
    ensures '@' !in w && (if k == 0 then |w| == 13 else if k == 1 then |w| == 8 else 9 <= |w| <= 14)
  {
    if k == 0 {
      CnpIs(t, w);
    } else if k == 1 {
      CiIs(t, w);
      assert w == [w[0], w[1]] + w[2..];
      assert forall c :: c in w ==> c == w[0] || c == w[1] || c in w[2..];
    } else {
      PhoneMatchIsLong(t, w);
    }
  }

  lemma SliceHolds(s: string, i: nat, j: nat, k: nat)
    requires j <= |s|
    ensures i <= k < j ==> s[k] in s[i..j]
  {
    if i <= k < j { assert s[i..j][k - i] == s[k]; }
  }

  /** A match that starts in a word before an at-sign is the whole word. */
  lemma RunIsWhole(t: Tables, w: string, r: string, i: nat, j: nat)
    requires t.Sound() && IsWord(t, w) && i < |w| && i < j <= |w| + 1 + |r|
    requires var s := w + "@" + r;
             '@' !in s[i..j] && BoundaryIn(t.word, false, s, i) && BoundaryIn(t.word, false, s, j)
    ensures i == 0 && j == |w|
  {
    var s := w + "@" + r;
    SliceHolds(s, i, j, |w|);
    assert forall k :: 0 <= k < |w| ==> s[k] == w[k];
  }

  lemma TailHasNoMatch(t: Tables, k: nat, w: string, r: string)
    requires t.Sound() && k < 3 && !HasDigit(t, r)
    ensures forall i: nat, j: nat :: |w| <= i ==> !MatchAt(t.word, Lang(t, PATTERNS[k]), w + "@" + r, i, j)
  {
    var s, n := w + "@" + r, |w|;
    assert s[n..] == "@" + r && !HasDigit(t, s[n..]);
    SlicesHaveNoDigit(t, s[n..]);
    forall i: nat, j: nat | n <= i <= j <= |s| ensures !HasDigit(t, s[i..j]) {
      SliceOfTail(s, n, i, j);
    }
    hide HasDigit, Matches;
    forall i: nat, j: nat | n <= i ensures !MatchAt(t.word, Lang(t, PATTERNS[k]), s, i, j) {
      if MatchAt(t.word, Lang(t, PATTERNS[k]), s, i, j) { MatchHasDigit(t, k, s[i..j]); }
    }
  }

  /** In a word, an at-sign and a text without digits, the first three patterns can only match the word. */
  lemma IdentifierMatches(t: Tables, k: nat, w: string, r: string, i: nat, j: nat)
    requires t.Sound() && k < 3 && IsWord(t, w) && !HasDigit(t, r)
    requires MatchAt(t.word, Lang(t, PATTERNS[k]), w + "@" + r, i, j)
    ensures i == 0 && j == |w| && Matches(t, PATTERNS[k].body, w)
  {
    var s := w + "@" + r;
    TailHasNoMatch(t, k, w, r);
    ShapeOfIdentifier(t, k, s[i..j]);
    hide Matches, HasDigit;
    RunIsWhole(t, w, r, i, j);
    assert s[0..|w|] == w;
  }

  lemma SliceOfTail(s: string, n: nat, i: nat, j: nat)
    requires n <= i <= j <= |s|
    ensures s[n..][i - n..j - n] == s[i..j]
  {
    forall k | 0 <= k < j - i ensures s[n..][i - n..j - n][k] == s[i..j][k] {}
  }

  /** No address is left when its name has become a token: a bracket stands before the at-sign. */
  lemma NoAddressAfterToken(t: Tables, token: string, r: string)
    requires t.Sound() && IsToken(token) && '@' !in r
    ensures Clean(t.word, Lang(t, PATTERNS[3]), token + "@" + r)
  {
    hide IsToken, Tables.Sound, Matches, MatchAt, Lang;
    forall i: nat, j: nat ensures !MatchAt(t.word, Lang(t, PATTERNS[3]), token + "@" + r, i, j) {
      NoAddressAt(t, token, r, i, j);
    }
  }

  lemma NoAddressAt(t: Tables, token: string, r: string, i: nat, j: nat)
    requires t.Sound() && IsToken(token) && '@' !in r
    ensures !MatchAt(t.word, Lang(t, PATTERNS[3]), token + "@" + r, i, j)
  {
    hide Matches, MatchAt, Lang, IsToken, Tables.Sound, Sealed, Inert;
    if i < |token| {
      AddressIsSealed(t, token);
      Reassociate(token, r);
      NoMatchFromToken(t.word, Lang(t, PATTERNS[3]), token, token + "@" + r, "@" + r, i, j);
    } else {
      NoMatchAfterToken(t, token, r, i, j);
    }
  }

  lemma Reassociate(token: string, r: string)
    ensures token + "@" + r == token + ("@" + r)
  {
  }

  lemma NoMatchFromToken(
    word: char -> bool, lang: string -> bool, token: string, s: string, rest: string, i: nat, j: nat)
    requires Sealed(word, lang) && Inert(lang, token) && i < |token| && s == token + rest
    ensures !MatchAt(word, lang, s, i, j)
  {
    hide Sealed, Inert;
    NoMatchInToken(word, lang, false, token, rest, i, j);
  }

  lemma AddressIsSealed(t: Tables, token: string)
    requires t.Sound() && IsToken(token)
    ensures Sealed(t.word, Lang(t, PATTERNS[3])) && Inert(Lang(t, PATTERNS[3]), token)
  {
    hide Sealed, Inert, Matches;
    EmailProper();
    SyntaxSuffices(t, EMAIL.body, token);
  }

  lemma NoMatchAfterToken(t: Tables, token: string, r: string, i: nat, j: nat)
    requires t.Sound() && '@' !in r && |token| <= i
    ensures !MatchAt(t.word, Lang(t, PATTERNS[3]), token + "@" + r, i, j)
  {
    hide Matches;
    if i <= j <= |token| + 1 + |r| { NameIsMissing(t, token, r, i, j); }
  }

  /** From the at-sign on there is no name before an at-sign. */
  lemma NameIsMissing(t: Tables, token: string, r: string, i: nat, j: nat)
    requires t.Sound() && '@' !in r && |token| <= i <= j <= |token| + 1 + |r|
    ensures !Matches(t, PATTERNS[3].body, (token + "@" + r)[i..j])
  {
    var s := token + "@" + r;
    forall k | 1 <= k < j - i ensures s[i..j][k] != '@' {
      assert s[i..j][k] == s[i + k] == r[i + k - |token| - 1];
    }
    hide Matches;
    if Matches(t, PATTERNS[3].body, s[i..j]) { var a := AddressOf(t, s[i..j]); }
  }

  /**
    A personal code, an identity card or a phone number right before an at-sign: the passes for
    identifiers run before the one for addresses, so the name becomes a token and what follows the
    at-sign stays as it is.
   */
  lemma IdentifierHidesAddress(t: Tables, w: string, r: string)
    requires t.Sound() && IsWord(t, w) && !HasDigit(t, r) && '@' !in r
    requires (|w| == 13 && AllDigits(t, w)) || IsIdentityCard(t, w) || (9 <= |w| <= 10 && AsciiDigits(w))
    ensures Stub(t, w + "@" + r) ==
            (if |w| == 13 then "[CNP_REDACTAT]" else if |w| == 8 then "[CI_REDACTAT]" else "[TEL_REDACTAT]") + "@" + r
  {
    var k := if |w| == 13 then 0 else if |w| == 8 then 1 else 2;
    IdentifierIs(t, k, w);
    hide Matches, Clean, CleanOf, OnlyMatches, IsIdentityCard;
    AllProper();
    TokenBeforeAt(t, k, w, r);
  }

  lemma IdentifierIs(t: Tables, k: nat, w: string)
    requires if k == 0 then |w| == 13 && AllDigits(t, w) else if k == 1 then IsIdentityCard(t, w)
             else k == 2 && 9 <= |w| <= 10 && AsciiDigits(w)
    ensures Matches(t, PATTERNS[k].body, w)
  {
    CnpIs(t, w);
    CiIs(t, w);
    TelIs(t, w);
    hide Matches;
    assert k == 2 ==> IsPhone(t, "", w) && w == "" + w;
  }

  lemma TokenBeforeAt(t: Tables, k: nat, w: string, r: string)
    requires t.Sound() && AllProperIn(PATTERNS) && k < 3 && IsWord(t, w) && Matches(t, PATTERNS[k].body, w)
    requires |w| <= 13 && (k == 2 ==> |w| <= 12) && !HasDigit(t, r) && '@' !in r
    ensures Stub(t, w + "@" + r) == PATTERNS[k].token + "@" + r
  {
    hide Matches, Clean, CleanOf, OnlyMatches, IsWord, HasDigit, Proper, IsToken, Tables.Sound, Stub;
    var s, n, out := w + "@" + r, |w|, PATTERNS[k].token + "@" + r;
    WordBeforeAt(t, k, w, r);
    TokenIsToken(PATTERNS[k]);
    TokenAndRestAreClean(t, PATTERNS[k].token, r);
    LaterAreClean(t, k, out);
    assert s[n..] == "@" + r;
    assert s[..0] + (PATTERNS[k].token + s[n..]) == out;
    MatchIsNamed(t, k, s, 0, n);
  }

  lemma LaterAreClean(t: Tables, k: nat, s: string)
    requires k < |PATTERNS| && forall m :: 0 <= m < |PATTERNS| ==> Clean(t.word, Lang(t, PATTERNS[m]), s)
    ensures CleanOf(t, PATTERNS[k + 1..], s)
  {
    hide Clean;
    var later := PATTERNS[k + 1..];
    forall m | 0 <= m < |later| ensures Clean(t.word, Lang(t, later[m]), s) {
      assert later[m] == PATTERNS[k + 1 + m];
    }
  }

  lemma WordBeforeAt(t: Tables, k: nat, w: string, r: string)
    requires t.Sound() && k < 3 && IsWord(t, w) && !HasDigit(t, r) && Matches(t, PATTERNS[k].body, w)
    requires k == 2 ==> |w| <= 12
    ensures OnlyMatches(t, PATTERNS[k], w + "@" + r, 0, |w|) && CleanOf(t, PATTERNS[..k], w + "@" + r)
  {
    hide HasDigit, Matches;
    var s, n := w + "@" + r, |w|;
    ShapeOfIdentifier(t, k, w);
    assert s[0..n] == w && s[n] == '@' && s[0] == w[0] && s[n - 1] == w[n - 1];
    assert MatchAt(t.word, Lang(t, PATTERNS[k]), s, 0, n);
    forall i: nat, j: nat | MatchAt(t.word, Lang(t, PATTERNS[k]), s, i, j) ensures i == 0 && j == n {
      IdentifierMatches(t, k, w, r, i, j);
    }
    forall m: nat | m < k ensures Clean(t.word, Lang(t, PATTERNS[..k][m]), s) {
      NoEarlierIdentifier(t, m, k, w, r);
    }
  }

  lemma NoEarlierIdentifier(t: Tables, m: nat, k: nat, w: string, r: string)
    requires t.Sound() && m < k < 3 && IsWord(t, w) && !HasDigit(t, r) && Matches(t, PATTERNS[k].body, w)
    requires k == 2 ==> |w| <= 12
    ensures Clean(t.word, Lang(t, PATTERNS[m]), w + "@" + r)
  {
    hide Matches, HasDigit;
    NotBoth(t, m, k, w);
    forall i: nat, j: nat ensures !MatchAt(t.word, Lang(t, PATTERNS[m]), w + "@" + r, i, j) {
      if MatchAt(t.word, Lang(t, PATTERNS[m]), w + "@" + r, i, j) { IdentifierMatches(t, m, w, r, i, j); }
    }
  }

  /** No text is two of the first three identifiers. */
  lemma NotBoth(t: Tables, m: nat, k: nat, w: string)
    requires t.Sound() && m < k < 3 && Matches(t, PATTERNS[k].body, w) && (k == 2 ==> |w| <= 12)
    ensures !Matches(t, PATTERNS[m].body, w)
  {
    hide Matches;
    ShapeOfIdentifier(t, k, w);
    if Matches(t, PATTERNS[m].body, w) { ShapeOfIdentifier(t, m, w); }
  }

  lemma TokenAndRestAreClean(t: Tables, token: string, r: string)
    requires t.Sound() && IsToken(token) && !HasDigit(t, r) && '@' !in r
    ensures forall k :: 0 <= k < |PATTERNS| ==> Clean(t.word, Lang(t, PATTERNS[k]), token + "@" + r)
  {
    var s := token + "@" + r;
    assert !HasDigit(t, s);
    hide HasDigit, Clean;
    NoDigitsClean(t, 0, s);
    NoDigitsClean(t, 1, s);
    NoDigitsClean(t, 2, s);
    NoDigitsClean(t, 4, s);
    NoAddressAfterToken(t, token, r);
  }

  /**
    A name of fifteen characters or more, sixteen digits say, is no identifier to the first three
    passes; and the pass for addresses runs before the one for cards, so the whole is an address.
   */
  lemma LongNameIsAddress(t: Tables, a: Address)
    requires t.Sound() && a.IsAddress(t) && IsWord(t, a.local) && |a.local| >= 15
    requires !HasDigit(t, a.host) && !HasDigit(t, a.suffix)
    ensures Stub(t, a.Text()) == "[EMAIL_REDACTAT]"
  {
    var r := a.host + ("." + a.suffix);
    assert a.Text() == a.local + "@" + r;
    assert !HasDigit(t, r);
    hide HasDigit, Matches, Clean;
    LongNameIsNoIdentifier(t, 0, a.local, r);
    LongNameIsNoIdentifier(t, 1, a.local, r);
    LongNameIsNoIdentifier(t, 2, a.local, r);
    AddressIsNamed(t, a);
  }

  lemma LongNameIsNoIdentifier(t: Tables, k: nat, w: string, r: string)
    requires t.Sound() && k < 3 && IsWord(t, w) && |w| >= 15 && !HasDigit(t, r)
    ensures Clean(t.word, Lang(t, PATTERNS[k]), w + "@" + r)
  {
    hide HasDigit, Matches;
    if Matches(t, PATTERNS[k].body, w) { ShapeOfIdentifier(t, k, w); }
    forall i: nat, j: nat ensures !MatchAt(t.word, Lang(t, PATTERNS[k]), w + "@" + r, i, j) {
      if MatchAt(t.word, Lang(t, PATTERNS[k]), w + "@" + r, i, j) { IdentifierMatches(t, k, w, r, i, j); }
    }
  }

  // ---------- a card number alone ----------

  /** The index of a gap between two groups. */
  predicate GapAt(card: CardText, k: int) {
    || (|card.s1| == 1 && k == 4)
    || (|card.s2| == 1 && k == 8 + |card.s1|)
    || (|card.s3| == 1 && k == 12 + |card.s1| + |card.s2|)
  }

  lemma TwoParts(u: string, v: string, k: nat)
    requires k < |u| + |v|
    ensures (u + v)[k] == if k < |u| then u[k] else v[k - |u|]
  {
  }

  /** Digits, and a space or dash at each gap. */
  lemma CardCharacter(t: Tables, card: CardText, k: nat)
    requires t.Sound() && card.IsCard(t) && k < |card.Text()|
    ensures if GapAt(card, k) then IsGapCharacter(t, card.Text()[k]) else t.digit(card.Text()[k])
  {
    var tail := card.c + card.s3 + card.d;
    var middle := card.b + card.s2 + tail;
    TwoParts(card.a + card.s1, middle, k);
    var n1 := 4 + |card.s1|;
    if k >= n1 {
      TwoParts(card.b + card.s2, tail, k - n1);
      var n2 := 4 + |card.s2|;
      if k >= n1 + n2 {
        TwoParts(card.c + card.s3, card.d, k - n1 - n2);
        GroupCharacter(t, card.c, card.s3, k - n1 - n2);
      } else {
        GroupCharacter(t, card.b, card.s2, k - n1);
      }
    } else {
      GroupCharacter(t, card.a, card.s1, k);
    }
  }

  lemma GroupCharacter(t: Tables, g: string, gap: string, k: nat)
    requires t.Sound() && CardText.IsGroup(t, g) && CardText.IsGap(t, gap)
    ensures k < 4 ==> t.digit((g + gap)[k])
    ensures k == 4 && |gap| == 1 ==> IsGapCharacter(t, (g + gap)[k])
  {
    GapShape(t, gap);
    if k == 4 && |gap| == 1 { assert (g + gap)[k] == gap[0] && gap[0] in gap; }
  }

  /** Where the digits of a card text stand, all at once. */
  ghost predicate IsSpelled(t: Tables, card: CardText, s: string) {
    && |s| == 16 + |card.s1| + |card.s2| + |card.s3|
    && |card.s1| <= 1 && |card.s2| <= 1 && |card.s3| <= 1
    && forall k :: 0 <= k < |s| ==> if GapAt(card, k) then IsGapCharacter(t, s[k]) else t.digit(s[k]) && t.word(s[k])
  }

  lemma CardIsSpelled(t: Tables, card: CardText)
    requires t.Sound() && card.IsCard(t)
    ensures IsSpelled(t, card, card.Text())
  {
    var s := card.Text();
    forall k | 0 <= k < |s|
      ensures if GapAt(card, k) then IsGapCharacter(t, s[k]) else t.digit(s[k]) && t.word(s[k])
    {
      CardCharacter(t, card, k);
    }
  }

  /** A stretch of digits between word boundaries: four, eight, twelve or sixteen of them. */
  lemma RunOfDigits(t: Tables, card: CardText, s: string, i: nat, j: nat)
    requires IsSpelled(t, card, s) && i < j <= |s| && BoundaryIn(t.word, false, s, i) && BoundaryIn(t.word, false, s, j)
    requires forall k :: i <= k < j ==> !GapAt(card, k)
    ensures (i == 0 || GapAt(card, i - 1)) && (j == |s| || GapAt(card, j))
    ensures j - i in [4, 8, 12, 16]
    ensures j - i == 12 ==>
              || (i == 0 && card.s1 == "" && card.s2 == "" && card.s3 != "")
              || (i == 5 && card.s1 != "" && card.s2 == "" && card.s3 == "")
  {
    assert |card.s1| == 1 ==> GapAt(card, 4);
    assert |card.s2| == 1 ==> GapAt(card, 8 + |card.s1|);
    assert |card.s3| == 1 ==> GapAt(card, 12 + |card.s1| + |card.s2|);
    assert i == 0 || GapAt(card, i - 1);
    assert j == |s| || GapAt(card, j);
  }

  lemma SliceOfDigits(t: Tables, card: CardText, s: string, i: nat, j: nat)
    requires IsSpelled(t, card, s) && i <= j <= |s| && forall k :: 0 <= k < j - i ==> t.digit(s[i..j][k])
    ensures forall k :: i <= k < j ==> !GapAt(card, k)
  {
    forall k | i <= k < j ensures !GapAt(card, k) { assert s[i..j][k - i] == s[k]; }
  }

  lemma CardHoldsNoIdentifier(t: Tables, card: CardText)
    requires t.Sound() && card.IsCard(t)
    ensures Clean(t.word, Lang(t, PATTERNS[0]), card.Text())
    ensures Clean(t.word, Lang(t, PATTERNS[1]), card.Text())
    ensures Clean(t.word, Lang(t, PATTERNS[3]), card.Text())
  {
    var s := card.Text();
    CardIsSpelled(t, card);
    forall i: nat, j: nat ensures !MatchAt(t.word, Lang(t, PATTERNS[0]), s, i, j) {
      if MatchAt(t.word, Lang(t, PATTERNS[0]), s, i, j) {
        CnpIs(t, s[i..j]);
        SliceOfDigits(t, card, s, i, j);
        RunOfDigits(t, card, s, i, j);
      }
    }
    assert forall k :: 0 <= k < |s| ==> !IsUpper(s[k]) && s[k] != '@';
    forall i: nat, j: nat ensures !MatchAt(t.word, Lang(t, PATTERNS[1]), s, i, j) {
      if i <= j <= |s| { CiIs(t, s[i..j]); }
    }
    forall i: nat, j: nat ensures !MatchAt(t.word, Lang(t, PATTERNS[3]), s, i, j) {
      if MatchAt(t.word, Lang(t, PATTERNS[3]), s, i, j) { var a := AddressOf(t, s[i..j]); }
    }
  }

  /** Twelve digits that read as 40 and ten more. */
  predicate IsPhoneRun(w: string) {
    |w| == 12 && w[0] == '4' && w[1] == '0' && AsciiDigits(w)
  }

  /** The first three groups, written as one. */
  predicate PhoneAtHead(card: CardText) {
    card.s1 == "" && card.s2 == "" && card.s3 != "" && IsPhoneRun(card.a + card.b + card.c)
  }

  /** The last three groups, written as one. */
  predicate PhoneAtTail(card: CardText) {
    card.s1 != "" && card.s2 == "" && card.s3 == "" && IsPhoneRun(card.b + card.c + card.d)
  }

  lemma PhoneParts(t: Tables, w: string) returns (plus: string, four: string, sep: string, number: string)
    requires t.Sound() && Matches(t, PATTERNS[2].body, w)
    ensures plus in ["", "+"] && four in ["", "4"] && |sep| <= 1 && 9 <= |number| <= 10 && AsciiDigits(number)
    ensures w == number || w == plus + (four + ("0" + sep)) + number
    ensures plus != "" && w != number ==> w[0] == '+'
    ensures var n := |plus| + |four| + 1; sep != "" && w != number ==> n < |w| && !t.digit(w[n])
  {
    TelIs(t, w);
    hide Matches;
    var prefix, n' :| w == prefix + n' && IsPhone(t, prefix, n');
    number := n';
    if prefix == "" {
      plus, four, sep := "", "", "";
    } else {
      plus, four, sep :|
        plus in ["", "+"] && four in ["", "4"] && CardText.IsGap(t, sep) && prefix == plus + (four + ("0" + sep));
      GapShape(t, sep);
      assert sep != "" ==> sep[0] in sep && prefix[|plus| + |four| + 1] == sep[0];
    }
  }

  /** A phone number that starts with four digits is digits throughout, and 40 with ten more if it has twelve. */
  lemma PhoneOfDigits(t: Tables, w: string)
    requires t.Sound() && Matches(t, PATTERNS[2].body, w)
    requires |w| >= 4 && t.digit(w[0]) && t.digit(w[1]) && t.digit(w[2])
    ensures AsciiDigits(w) && 9 <= |w| <= 12 && (|w| == 12 ==> IsPhoneRun(w))
  {
    assert !t.digit('+');
    var plus, four, sep, number := PhoneParts(t, w);
    hide Matches, Tables.Sound;
    if w != number {
      assert plus == "" && (four == "" || four == "4");
      assert sep == "";
      assert w == four + "0" + number;
    }
  }

  lemma PhoneInCard(t: Tables, card: CardText, i: nat, j: nat)
    requires t.Sound() && card.IsCard(t) && MatchAt(t.word, Lang(t, PATTERNS[2]), card.Text(), i, j)
    ensures (i == 0 && j == 12 && PhoneAtHead(card)) || (i == 5 && j == 17 && PhoneAtTail(card))
  {
    var s := card.Text();
    CardIsSpelled(t, card);
    StartOfPhone(t, card, s, i, j);
    PhoneOfDigits(t, s[i..j]);
    AsciiIsDigits(t, s[i..j]);
    hide Matches, Tables.Sound;
    SliceOfDigits(t, card, s, i, j);
    RunOfDigits(t, card, s, i, j);
    GroupsOf(card);
  }

  lemma AsciiIsDigits(t: Tables, w: string)
    requires t.Sound() && AsciiDigits(w)
    ensures forall k :: 0 <= k < |w| ==> t.digit(w[k])
  {
    assert forall k :: 0 <= k < |w| ==> w[k] in w;
  }

  /** A phone number in a card text starts with the four digits of a group. */
  lemma StartOfPhone(t: Tables, card: CardText, s: string, i: nat, j: nat)
    requires t.Sound() && IsSpelled(t, card, s) && MatchAt(t.word, Lang(t, PATTERNS[2]), s, i, j)
    ensures j - i >= 9 && t.digit(s[i..j][0]) && t.digit(s[i..j][1]) && t.digit(s[i..j][2])
  {
    var w := s[i..j];
    PhoneMatchIsLong(t, w);
    PhoneStart(t, w);
    hide Matches;
    assert w[0] == s[i] && w[1] == s[i + 1] && w[2] == s[i + 2];
    assert !GapAt(card, i);
    assert i == 0 || GapAt(card, i - 1);
  }

  lemma PhoneStart(t: Tables, w: string)
    requires t.Sound() && Matches(t, PATTERNS[2].body, w)
    ensures w != "" && (w[0] == '+' || t.digit(w[0])) && !t.space('+')
  {
    var plus, four, sep, number := PhoneParts(t, w);
    assert number[0] in number;
  }

  /** The places of the groups when two gaps are missing. */
  lemma GroupsOf(card: CardText)
    requires |card.a| == 4 && |card.b| == 4 && |card.c| == 4 && |card.d| == 4
    ensures card.s1 == "" && card.s2 == "" ==> card.Text()[0..12] == card.a + card.b + card.c
    ensures |card.s1| == 1 && card.s2 == "" && card.s3 == "" ==> card.Text()[5..17] == card.b + card.c + card.d
  {
    var s := card.Text();
    if card.s1 == "" && card.s2 == "" {
      assert s == (card.a + card.b + card.c) + (card.s3 + card.d);
    }
    if card.s2 == "" && card.s3 == "" {
      assert s == (card.a + card.s1) + (card.b + card.c + card.d);
    }
  }

  /** Between, before and after the brackets of a phone token there is no room for a card number. */
  lemma AfterPhone(t: Tables, pre: string, post: string)
    requires t.Sound() && |pre| < 16 && |post| < 16 && '@' !in pre && '@' !in post
    ensures CleanOf(t, PATTERNS[3..], pre + ("[TEL_REDACTAT]" + post))
  {
    var token := "[TEL_REDACTAT]";
    var s, n := pre + (token + post), |pre|;
    assert |token| == 14 && s[n] == '[' && s[n + 13] == ']' && '@' !in s;
    forall i: nat, j: nat ensures !MatchAt(t.word, Lang(t, PATTERNS[3]), s, i, j) {
      if MatchAt(t.word, Lang(t, PATTERNS[3]), s, i, j) { var a := AddressOf(t, s[i..j]); }
    }
    forall i: nat, j: nat ensures !MatchAt(t.word, Lang(t, PATTERNS[4]), s, i, j) {
      if MatchAt(t.word, Lang(t, PATTERNS[4]), s, i, j) { CardNeedsRoom(t, s, i, j, n); }
    }
    assert PATTERNS[3..] == [PATTERNS[3], PATTERNS[4]];
  }

  lemma CardNeedsRoom(t: Tables, s: string, i: nat, j: nat, n: nat)
    requires t.Sound() && i <= j <= |s| && Matches(t, PATTERNS[4].body, s[i..j])
    requires n + 13 < |s| && s[n] == '[' && s[n + 13] == ']'
    ensures j - i >= 16 && !(i <= n < j) && !(i <= n + 13 < j)
  {
    var card := CardOf(t, s[i..j]);
    CardProper();
    SyntaxSuffices(t, CARD.body, CARD.token);
    SliceHolds(s, i, j, n);
    SliceHolds(s, i, j, n + 13);
  }

  lemma PhoneRunIsPhone(t: Tables, w: string)
    requires t.Sound() && IsPhoneRun(w)
    ensures Matches(t, PATTERNS[2].body, w)
  {
    var plus, four, sep := "", "4", "";
    assert plus in ["", "+"] && four in ["", "4"] && CardText.IsGap(t, sep) && w[..2] == plus + (four + ("0" + sep));
    assert IsPhone(t, w[..2], w[2..]) && w == w[..2] + w[2..];
    TelIs(t, w);
  }

  lemma PhoneIsOnlyMatchIn(t: Tables, card: CardText, i: nat, n: nat)
    requires t.Sound() && card.IsCard(t)
    requires (i == 0 && n == 12 && PhoneAtHead(card)) || (i == 5 && n == 17 && PhoneAtTail(card))
    ensures n <= |card.Text()| && OnlyMatches(t, PATTERNS[2], card.Text(), i, n)
  {
    var s := card.Text();
    GroupsOf(card);
    CardIsSpelled(t, card);
    PhoneRunIsPhone(t, s[i..n]);
    hide Matches;
    assert i > 0 ==> GapAt(card, i - 1);
    assert n < |s| ==> GapAt(card, n);
    assert MatchAt(t.word, Lang(t, PATTERNS[2]), s, i, n);
    forall k: nat, j: nat | MatchAt(t.word, Lang(t, PATTERNS[2]), s, k, j) ensures k == i && j == n {
      PhoneInCard(t, card, k, j);
    }
  }

  lemma CardEndsOnce(t: Tables, card: CardText, j: nat)
    requires t.Sound() && card.IsCard(t) && MatchAt(t.word, Lang(t, PATTERNS[4]), card.Text(), 0, j)
    ensures j == |card.Text()|
  {
    var s := card.Text();
    CardIsSpelled(t, card);
    var other := CardOf(t, s[0..j]);
    hide Matches;
    assert |other.Text()| == j >= 16;
    forall k: nat | |s| - 4 < k < |s| ensures !BoundaryIn(t.word, false, s, k) {
      assert !GapAt(card, k - 1) && !GapAt(card, k);
    }
  }

  lemma CardIsOnlyMatch(t: Tables, card: CardText)
    requires t.Sound() && card.IsCard(t)
    ensures OnlyMatches(t, PATTERNS[4], card.Text(), 0, |card.Text()|)
  {
    var s := card.Text();
    CardIsSpelled(t, card);
    CardMatches(t, card);
    CardProper();
    hide Matches, Proper, Tables.Sound;
    assert !GapAt(card, 0) && !GapAt(card, |s| - 1);
    forall j: nat | MatchAt(t.word, Lang(t, PATTERNS[4]), s, 0, j) ensures j == |s| { CardEndsOnce(t, card, j); }
    OnlyWholeMatches(t, PATTERNS[4], s);
  }

  /**
    What becomes of a card number alone: the card token, unless twelve of its digits are written
    as one and start with 40. Then the phone pass, which runs first, takes them, and the other
    four digits stay.
   */
  lemma CardIsNamed(t: Tables, card: CardText)
    requires t.Sound() && card.IsCard(t)
    ensures Stub(t, card.Text()) ==
            if PhoneAtHead(card) then "[TEL_REDACTAT]" + (card.s3 + card.d)
            else if PhoneAtTail(card) then card.a + card.s1 + "[TEL_REDACTAT]"
            else "[CARD_REDACTAT]"
    ensures Stub(t, card.Text()) == "[CARD_REDACTAT]" <==> !PhoneAtHead(card) && !PhoneAtTail(card)
  {
    hide Matches, Clean, OnlyMatches, Stub, Tables.Sound;
    CardHoldsNoIdentifier(t, card);
    if PhoneAtHead(card) {
      PhoneTakesCard(t, card, 0, 12, "", card.s3 + card.d);
      assert "" + ("[TEL_REDACTAT]" + (card.s3 + card.d)) == "[TEL_REDACTAT]" + (card.s3 + card.d);
    } else if PhoneAtTail(card) {
      PhoneTakesCard(t, card, 5, 17, card.a + card.s1, "");
      assert card.a + card.s1 + ("[TEL_REDACTAT]" + "") == card.a + card.s1 + "[TEL_REDACTAT]";
    } else {
      NoPhoneInCard(t, card);
      CardIsOnlyMatch(t, card);
      WholeIsNamed(t, 4, card.Text());
    }
  }

  lemma NoPhoneInCard(t: Tables, card: CardText)
    requires t.Sound() && card.IsCard(t) && !PhoneAtHead(card) && !PhoneAtTail(card)
    ensures Clean(t.word, Lang(t, PATTERNS[2]), card.Text())
  {
    hide Matches, Tables.Sound;
    forall i: nat, j: nat ensures !MatchAt(t.word, Lang(t, PATTERNS[2]), card.Text(), i, j) {
      if MatchAt(t.word, Lang(t, PATTERNS[2]), card.Text(), i, j) { PhoneInCard(t, card, i, j); }
    }
  }

  lemma PhoneTakesCard(t: Tables, card: CardText, i: nat, n: nat, pre: string, post: string)
    requires t.Sound() && card.IsCard(t)
    requires (i == 0 && n == 12 && PhoneAtHead(card) && pre == "" && post == card.s3 + card.d)
             || (i == 5 && n == 17 && PhoneAtTail(card) && pre == card.a + card.s1 && post == "")
    ensures Stub(t, card.Text()) == pre + ("[TEL_REDACTAT]" + post)
  {
    var s := card.Text();
    hide Matches, Clean, OnlyMatches, Stub;
    PhoneIsOnlyMatchIn(t, card, i, n);
    CardHoldsNoIdentifier(t, card);
    CardIsSpelled(t, card);
    assert s[..i] == pre && s[n..] == post;
    assert forall k :: 0 <= k < |s| ==> s[k] != '@';
    AfterPhone(t, pre, post);
    assert PATTERNS[2].token == "[TEL_REDACTAT]" && PATTERNS[2 + 1..] == PATTERNS[3..];
    MatchIsNamed(t, 2, s, i, n);
  }

  /** For instance four groups apart, which no pass but the last can take. */
  lemma SpacedCardIsNamed(t: Tables, w: string)
    requires t.Sound() && |w| == 19 && w[4] == ' ' && w[9] == ' ' && w[14] == ' '
    requires forall k :: 0 <= k < 19 && k != 4 && k != 9 && k != 14 ==> '0' <= w[k] <= '9'
    ensures Stub(t, w) == "[CARD_REDACTAT]"
  {
    var card := CardText(w[0..4], " ", w[5..9], " ", w[10..14], " ", w[15..19]);
    assert w == card.Text();
    CardIsNamed(t, card);
  }

  /** A card number in two parts of twelve and four digits is taken for a phone number, and the four stay. */
  lemma CardTakenForPhone(t: Tables, w: string)
    requires t.Sound() && |w| == 17 && w[0] == '4' && w[1] == '0' && w[12] == ' '
    requires forall k :: 0 <= k < 17 && k != 12 ==> '0' <= w[k] <= '9'
    ensures Stub(t, w) == "[TEL_REDACTAT]" + w[12..]
  {
    var card := CardText(w[0..4], "", w[4..8], "", w[8..12], " ", w[13..17]);
    assert w == card.Text() && card.a + card.b + card.c == w[..12];
    assert card.s3 + card.d == w[12..];
    CardIsNamed(t, card);
  }
}
