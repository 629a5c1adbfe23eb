/**
  All passes of the redaction (apps/ai-worker/app/redaction.py) taken together.

  Main result: `StubIsSplice`. However many passes rewrite the text one after another, the result
  is one splice of the text first given: tokens in place of stretches that match their pattern.
 */
module Splices {
  import opened Regex
  import opened Substitution
  import opened Redaction

  // ---------- a pass over a splice ----------

  /** A character of the first text that is still there, or what stands in place of a stretch of it. */
  datatype Piece = Copied(c: char) | Replaced(was: string, token: string) {
    function Input(): string { if Copied? then [c] else was }

    function Output(): string { if Copied? then [c] else token }
  }

  function InputOf(pieces: seq<Piece>): string {
    if pieces == [] then "" else pieces[0].Input() + InputOf(pieces[1..])
  }

  function OutputOf(pieces: seq<Piece>): string {
    if pieces == [] then "" else pieces[0].Output() + OutputOf(pieces[1..])
  }

  lemma OnePieceMore(p: Piece, pieces: seq<Piece>)
    ensures InputOf([p] + pieces) == p.Input() + InputOf(pieces)
    ensures OutputOf([p] + pieces) == p.Output() + OutputOf(pieces)
  {
    assert ([p] + pieces)[1..] == pieces;
  }

  ghost predicate AllInert(lang: string -> bool, pieces: seq<Piece>) {
    forall p :: p in pieces && p.Replaced? ==> Inert(lang, p.token)
  }

  /** No match starts in a token that an earlier pass left. */
  lemma NoMatchInOldToken(word: char -> bool, lang: string -> bool, s: string, a: nat, token: string)
    requires Sealed(word, lang) && Inert(lang, token) && a + |token| <= |s| && s[a..a + |token|] == token
    ensures forall i: nat :: a <= i < a + |token| ==> NoneStartsAt(word, lang, s, i)
  {
    forall i: nat, j: nat | a <= i < a + |token| ensures !MatchAt(word, lang, s, i, j) {
      if i <= j <= |s| {
        Stretch(s, a, token, i, j);
        assert j <= a + |token| ==> !lang(token[i - a..j - a]);
      }
    }
  }

  /** What a stretch that starts in a token holds: part of the token, or its closing end. */
  lemma Stretch(s: string, a: nat, token: string, i: nat, j: nat)
    requires a + |token| <= |s| && s[a..a + |token|] == token && a <= i < a + |token| && i <= j <= |s|
    ensures j <= a + |token| ==> s[i..j] == token[i - a..j - a]
    ensures j > a + |token| ==> token[|token| - 1] in s[i..j]
  {
    if j <= a + |token| {
      var u := s[a..a + |token|];
      forall k | 0 <= k < j - i ensures s[i..j][k] == u[i - a..j - a][k] { assert u[i - a + k] == s[i + k]; }
      assert s[i..j] == u[i - a..j - a];
    } else {
      assert s[i..j][a + |token| - 1 - i] == s[a..a + |token|][|token| - 1];
    }
  }

  lemma Peel(c: char, rest: string, w: string)
    requires w != "" && w <= [c] + rest
    ensures w[0] == c && w[1..] <= rest && w == [c] + w[1..]
  {
    assert w[1..] == ([c] + rest)[1..|w|] == rest[..|w| - 1];
  }

  lemma PrefixOfToken(lang: string -> bool, token: string, rest: string, w: string)
    requires Inert(lang, token) && w != "" && w <= token + rest
    ensures '[' in w
  {
    assert w[0] == (token + rest)[0] == token[0];
  }

  /** A bracket-free stretch at the head of the output is made of copied characters. */
  lemma {:induction false} HeadIsCopied(lang: string -> bool, pieces: seq<Piece>, w: string)
    requires AllInert(lang, pieces) && w <= OutputOf(pieces) && '[' !in w
    ensures |w| <= |pieces| && InputOf(pieces) == w + InputOf(pieces[|w|..])
    ensures OutputOf(pieces) == w + OutputOf(pieces[|w|..])
    decreases |w|
  {
    hide InputOf, OutputOf, Inert;
    if w == "" {
      assert pieces[0..] == pieces;
    } else {
      HeadPiece(lang, pieces, w);
      var first, rest := pieces[0], pieces[1..];
      OnePieceMore(first, rest);
      Peel(first.c, OutputOf(rest), w);
      HeadIsCopied(lang, rest, w[1..]);
      assert pieces[|w|..] == rest[|w| - 1..];
      Regroup3(first.c, w[1..], InputOf(pieces[|w|..]));
      Regroup3(first.c, w[1..], OutputOf(pieces[|w|..]));
    }
  }

  lemma HeadPiece(lang: string -> bool, pieces: seq<Piece>, w: string)
    requires AllInert(lang, pieces) && w <= OutputOf(pieces) && '[' !in w && w != ""
    ensures pieces != [] && pieces[0].Copied? && pieces == [pieces[0]] + pieces[1..] && AllInert(lang, pieces[1..])
  {
    hide Inert;
    if pieces[0].Replaced? {
      PrefixOfToken(lang, pieces[0].token, OutputOf(pieces[1..]), w);
    }
  }

  lemma Regroup3(c: char, w: string, rest: string)
    ensures [c] + (w + rest) == [c] + w + rest
  {
  }

  lemma FoundIsSealed(word: char -> bool, m: Matcher, s: string, i: nat)
    requires Faithful(word, m) && Sealed(word, m.lang) && i <= |s| && m.find(s, i).Some?
    ensures var j := m.find(s, i).value; i < j <= |s| && m.lang(s[i..j]) && '[' !in s[i..j]
  {
    assert FaithfulAt(word, m, s, i);
  }

  lemma MatchIsCopied(word: char -> bool, m: Matcher, s: string, i: nat, pieces: seq<Piece>)
    requires Faithful(word, m) && Sealed(word, m.lang) && AllInert(m.lang, pieces)
    requires i <= |s| && OutputOf(pieces) == s[i..] && m.find(s, i).Some?
    ensures var j := m.find(s, i).value;
            && i < j <= |s| && j - i <= |pieces| && m.lang(s[i..j])
            && InputOf(pieces) == s[i..j] + InputOf(pieces[j - i..]) && OutputOf(pieces[j - i..]) == s[j..]
  {
    hide InputOf, OutputOf, AllInert, Faithful, Sealed;
    var j := m.find(s, i).value;
    FoundIsSealed(word, m, s, i);
    Cut(s, i, j);
    HeadIsCopied(m.lang, pieces, s[i..j]);
    Cancel(s[i..j], OutputOf(pieces[j - i..]), s[j..]);
  }

  lemma SameHead(a: string, x: string, b: string, y: string)
    requires a + x == b + y && |a| == |b|
    ensures a == b && x == y
  {
    assert a == (a + x)[..|a|] && b == (b + y)[..|b|];
    Cancel(a, x, y);
  }

  lemma Cut(s: string, i: nat, j: nat)
    requires i <= j <= |s|
    ensures s[i..] == s[i..j] + s[j..] && s[i..j] <= s[i..]
  {
  }

  lemma Cancel(w: string, x: string, y: string)
    requires w + x == w + y
    ensures x == y
  {
    assert x == (w + x)[|w|..] && y == (w + y)[|w|..];
  }

  lemma OldTokenIsCopied(
    word: char -> bool, m: Matcher, token: string, s: string, i: nat, mark: string, rest: string)
    requires Faithful(word, m) && Sealed(word, m.lang) && Inert(m.lang, mark) && i <= |s| && s[i..] == mark + rest
    ensures i + |mark| <= |s| && s[i + |mark|..] == rest
    ensures SubFrom(m, token, s, i) == mark + SubFrom(m, token, s, i + |mark|)
  {
    var next := i + |mark|;
    assert |s[i..]| == |mark| + |rest|;
    Cut(s, i, next);
    SameHead(s[i..next], s[next..], mark, rest);
    NoMatchInOldToken(word, m.lang, s, i, mark);
    GapIsCopied(word, m, token, s, i, next);
  }

  lemma FirstCharacter(s: string, i: nat, c: char, rest: string)
    requires i <= |s| && s[i..] == [c] + rest
    ensures i < |s| && s[i] == c && s[i + 1..] == rest
  {
    assert s[i] == s[i..][0];
    Cut(s, i, i + 1);
    assert s[i..i + 1] == [c];
    Cancel([c], rest, s[i + 1..]);
  }

  /** What the pass does next: keep an old token, replace a match, or copy a character. */
  ghost predicate StepIs(m: Matcher, token: string, s: string, i: nat, pieces: seq<Piece>,
                         piece: Piece, rest: seq<Piece>, next: nat)
    requires i <= |s|
  {
    && |rest| < |pieces| && next <= |s| && OutputOf(rest) == s[next..]
    && (forall p :: p in rest ==> p in pieces)
    && (piece in pieces || (piece.Replaced? && piece.token == token && m.lang(piece.was)))
    && InputOf(pieces) == piece.Input() + InputOf(rest)
    && SubFrom(m, token, s, i) == piece.Output() + SubFrom(m, token, s, next)
  }

  lemma KeepStep(word: char -> bool, m: Matcher, token: string, s: string, i: nat, first: Piece, tail: seq<Piece>)
    requires Faithful(word, m) && Sealed(word, m.lang) && first.Replaced? && Inert(m.lang, first.token)
    requires i <= |s| && OutputOf([first] + tail) == s[i..]
    ensures StepIs(m, token, s, i, [first] + tail, first, tail, i + |first.token|)
  {
    OnePieceMore(first, tail);
    hide InputOf, OutputOf, Sealed, Inert, Faithful, SubFrom;
    OldTokenIsCopied(word, m, token, s, i, first.token, OutputOf(tail));
  }

  lemma ReplaceStep(word: char -> bool, m: Matcher, token: string, s: string, i: nat, pieces: seq<Piece>)
    requires Faithful(word, m) && Sealed(word, m.lang) && AllInert(m.lang, pieces)
    requires i < |s| && OutputOf(pieces) == s[i..] && m.find(s, i).Some?
    ensures var j := m.find(s, i).value;
            i < j <= |s| && j - i <= |pieces|
            && StepIs(m, token, s, i, pieces, Replaced(s[i..j], token), pieces[j - i..], j)
  {
    hide InputOf, OutputOf, Sealed, Faithful, AllInert;
    MatchIsCopied(word, m, s, i, pieces);
  }

  lemma CopyStep(m: Matcher, token: string, s: string, i: nat, first: Piece, tail: seq<Piece>)
    requires i < |s| && OutputOf([first] + tail) == s[i..] && first.Copied? && m.find(s, i).None?
    ensures StepIs(m, token, s, i, [first] + tail, first, tail, i + 1)
  {
    OnePieceMore(first, tail);
    hide InputOf, OutputOf;
    FirstCharacter(s, i, first.c, OutputOf(tail));
  }

  lemma PassStep(word: char -> bool, m: Matcher, token: string, s: string, i: nat, pieces: seq<Piece>)
    returns (piece: Piece, rest: seq<Piece>, next: nat)
    requires Faithful(word, m) && Sealed(word, m.lang) && AllInert(m.lang, pieces)
    requires i <= |s| && OutputOf(pieces) == s[i..] && pieces != []
    ensures StepIs(m, token, s, i, pieces, piece, rest, next)
  {
    hide StepIs, Inert, InputOf, Sealed, Faithful, SubFrom;
    piece, rest, next := pieces[0], pieces[1..], i + 1;
    assert pieces == [piece] + rest;
    if piece.Replaced? {
      KeepStep(word, m, token, s, i, piece, rest);
      next := i + |piece.token|;
    } else {
      assert s[i..] != "";
      if m.find(s, i).Some? {
        ReplaceStep(word, m, token, s, i, pieces);
        next := m.find(s, i).value;
        piece, rest := Replaced(s[i..next], token), pieces[next - i..];
      } else {
        CopyStep(m, token, s, i, piece, rest);
      }
    }
  }

  /** A pass over a text that is already a splice gives a splice of the same first text. */
  lemma {:induction false} PassRefines(
    word: char -> bool, m: Matcher, token: string, s: string, i: nat, pieces: seq<Piece>)
    returns (out: seq<Piece>)
    requires Faithful(word, m) && Sealed(word, m.lang) && AllInert(m.lang, pieces)
    requires i <= |s| && OutputOf(pieces) == s[i..]
    ensures InputOf(out) == InputOf(pieces) && OutputOf(out) == SubFrom(m, token, s, i)
    ensures forall p :: p in out ==> p in pieces || (p.Replaced? && p.token == token && m.lang(p.was))
    decreases |pieces|
  {
    hide Faithful, Sealed, Inert;
    if pieces == [] {
      out := [];
    } else {
      var piece, rest, next := PassStep(word, m, token, s, i, pieces);
      var more := PassRefines(word, m, token, s, next, rest);
      OnePieceMore(piece, more);
      out := [piece] + more;
    }
  }

  /** A text none of which has been replaced. */
  function AsCopied(s: string): seq<Piece> {
    seq(|s|, k requires 0 <= k < |s| => Copied(s[k]))
  }

  lemma {:induction false} CopiedIsItself(s: string)
    ensures InputOf(AsCopied(s)) == s && OutputOf(AsCopied(s)) == s
    decreases |s|
  {
    if s != "" {
      assert AsCopied(s)[1..] == AsCopied(s[1..]);
      CopiedIsItself(s[1..]);
      assert s == [s[0]] + s[1..];
    }
  }

  // ---------- the five passes ----------

  /** Every replacement is the token of one of the patterns, over a text of that pattern. */
  ghost predicate TokensTell(t: Tables, ps: seq<Pattern>, pieces: seq<Piece>) {
    forall p :: p in pieces && p.Replaced? ==> TokenTells(t, ps, p)
  }

  ghost predicate TokenTells(t: Tables, ps: seq<Pattern>, p: Piece)
    requires p.Replaced?
  {
    exists k :: 0 <= k < |ps| && ps[k].token == p.token && Matches(t, ps[k].body, p.was)
  }

  /** The passes from the k-th on, over a text that is a splice already. */
  lemma {:induction false} PassesRefine(t: Tables, ps: seq<Pattern>, k: nat, s: string, pieces: seq<Piece>)
    returns (out: seq<Piece>)
    requires t.Sound() && AllProperIn(ps) && k <= |ps| && OutputOf(pieces) == s && TokensTell(t, ps, pieces)
    ensures InputOf(out) == InputOf(pieces) && OutputOf(out) == StubFrom(t, ps[k..], s) && TokensTell(t, ps, out)
    decreases |ps| - k
  {
    if k == |ps| {
      out := pieces;
    } else {
      var p, m := ps[k], MatcherFor(t, ps[k].body);
      EngineIsFaithful(t, p.body);
      SyntaxSuffices(t, p.body, p.token);
      OldTokensAreInert(t, ps, p, pieces);
      assert s[0..] == s;
      var next := PassRefines(t.word, m, p.token, s, 0, pieces);
      forall q | q in next && q.Replaced? ensures TokenTells(t, ps, q) {
        if q !in pieces { assert ps[k].token == q.token && Matches(t, ps[k].body, q.was); }
      }
      assert ps[k..][1..] == ps[k + 1..];
      out := PassesRefine(t, ps, k + 1, Sub(m, p.token, s), next);
    }
  }

  lemma OldTokensAreInert(t: Tables, ps: seq<Pattern>, q: Pattern, pieces: seq<Piece>)
    requires t.Sound() && AllProperIn(ps) && Proper(q) && TokensTell(t, ps, pieces)
    ensures AllInert(Lang(t, q), pieces)
  {
    forall p | p in pieces && p.Replaced? ensures Inert(Lang(t, q), p.token) {
      var k :| 0 <= k < |ps| && ps[k].token == p.token && Matches(t, ps[k].body, p.was);
      assert Proper(ps[k]);
      SyntaxSuffices(t, q.body, p.token);
    }
  }

  /**
    All five passes together are one splice of the text given: what the result does not share
    with it, character by character and in order, are stretches that match a pattern, each with
    exactly that pattern's token in its place. No pass cuts into what an earlier one wrote.
   */
  lemma StubIsSplice(t: Tables, s: string) returns (pieces: seq<Piece>)
    requires t.Sound()
    ensures InputOf(pieces) == s && OutputOf(pieces) == Stub(t, s)
    ensures TokensTell(t, PATTERNS, pieces)
  {
    AllProper();
    CopiedIsItself(s);
    hide PATTERNS;
    pieces := PassesRefine(t, PATTERNS, 0, s, AsCopied(s));
    assert PATTERNS[0..] == PATTERNS;
  }
}
