/** Redaction: every registered secret is replaced, longest first, then everything shaped like a bot token. */
module Masker {
  import opened Models

  const MASK := "***"
  const MIN_SECRET := 8

  // --- substrings ----------------------------------------------------------------------------

  predicate OccursAt(t: string, p: string, i: nat) {
    i + |p| <= |t| && t[i..i + |p|] == p
  }

  ghost predicate Occurs(t: string, p: string) {
    exists i: nat :: OccursAt(t, p, i)
  }

  lemma OccursFurther(a: string, t: string, p: string)
    requires Occurs(t, p)
    ensures Occurs(a + t, p)
  {
    var i: nat :| OccursAt(t, p, i);
    assert (a + t)[|a| + i..|a| + i + |p|] == t[i..i + |p|];
    assert OccursAt(a + t, p, |a| + i);
  }

  lemma OccursLater(a: string, t: string, p: string, i: nat)
    requires OccursAt(a + t, p, i) && i >= |a|
    ensures OccursAt(t, p, i - |a|)
  {
    assert t[i - |a|..i - |a| + |p|] == (a + t)[i..i + |p|];
  }

  lemma CharOfOccurrence(t: string, p: string, i: nat, k: nat)
    ensures OccursAt(t, p, i) && k < |p| ==> t[i + k] == p[k]
  {
    if OccursAt(t, p, i) && k < |p| {
      assert t[i..i + |p|][k] == t[i + k];
    }
  }

  lemma OccursShifted(c: char, t: string, p: string, i: nat)
    ensures OccursAt([c] + t, p, i + 1) <==> OccursAt(t, p, i)
  {
    if i + |p| <= |t| {
      assert ([c] + t)[i + 1..i + 1 + |p|] == t[i..i + |p|];
    }
  }

  // --- what a replacement can and cannot create ----------------------------------------------

  /** `p` can neither begin, nor end, in an inserted mask, nor contain one. */
  ghost predicate Safe(p: string) {
    p != [] && p[0] != '*' && TailSafe(p)
  }

  ghost predicate TailSafe(p: string) {
    (p != [] ==> p[|p|-1] != '*') && !Occurs(p, MASK)
  }

  lemma TailOfSafe(p: string)
    requires p != [] && TailSafe(p)
    ensures TailSafe(p[1..])
  {
    if Occurs(p[1..], MASK) {
      assert p == [p[0]] + p[1..];
      OccursFurther([p[0]], p[1..], MASK);
    }
  }

  lemma StarFreeIsSafe(p: string)
    requires p != [] && '*' !in p
    ensures Safe(p)
  {
    forall i: nat ensures !OccursAt(p, MASK, i) {
      CharOfOccurrence(p, MASK, i, 0);
    }
  }

  lemma PrefixesOfMask(p: string, r: string)
    requires p <= MASK + r
    ensures |p| >= 3 ==> OccursAt(p, MASK, 0)
    ensures 0 < |p| < 3 ==> p[|p|-1] == '*'
  {
    assert |p| >= 3 ==> p[0..3] == MASK;
    assert 0 < |p| < 3 ==> p[|p|-1] == MASK[|p|-1];
  }

  lemma MaskStart(r: string, i: nat)
    ensures i < 3 ==> (MASK + r)[i] == '*'
  {
  }

  lemma MaskIsNoTailSafePrefix(p: string, r: string)
    requires p <= MASK + r && TailSafe(p)
    ensures p == []
  {
    PrefixesOfMask(p, r);
  }

  lemma MaskHidesStart(r: string, p: string, i: nat)
    requires OccursAt(MASK + r, p, i) && Safe(p)
    ensures i >= 3 && OccursAt(r, p, i - 3)
  {
    CharOfOccurrence(MASK + r, p, i, 0);
    MaskStart(r, i);
    OccursLater(MASK, r, p, i);
  }

  /** A rewriting of a text: characters are kept or, some at a time, hidden behind one mask. */
  datatype Pieces = End | Kept(c: char, rest: Pieces) | Hidden(text: string, rest: Pieces)

  function Source(ps: Pieces): string {
    match ps
    case End => []
    case Kept(c, rest) => [c] + Source(rest)
    case Hidden(text, rest) => text + Source(rest)
  }

  function Rendered(ps: Pieces): string {
    match ps
    case End => []
    case Kept(c, rest) => [c] + Rendered(rest)
    case Hidden(_, rest) => MASK + Rendered(rest)
  }

  lemma {:induction false} PrefixOfRendered(ps: Pieces, p: string)
    requires p <= Rendered(ps) && TailSafe(p)
    ensures p <= Source(ps)
  {
    if ps.Kept? && p != [] {
      TailOfSafe(p);
      PrefixOfRendered(ps.rest, p[1..]);
      assert p == [ps.c] + p[1..];
    } else if ps.Hidden? {
      MaskIsNoTailSafePrefix(p, Rendered(ps.rest));
    }
  }

  /** A rewriting creates no occurrence of a safe text. */
  lemma {:induction false} RewritingCreatesNothing(ps: Pieces, p: string, i: nat)
    requires Safe(p) && OccursAt(Rendered(ps), p, i)
    ensures Occurs(Source(ps), p)
    decreases ps
  {
    if ps.Hidden? {
      MaskHidesStart(Rendered(ps.rest), p, i);
      RewritingCreatesNothing(ps.rest, p, i - 3);
      OccursFurther(ps.text, Source(ps.rest), p);
    } else if ps.Kept? && i > 0 {
      OccursLater([ps.c], Rendered(ps.rest), p, i);
      RewritingCreatesNothing(ps.rest, p, i - 1);
      OccursFurther([ps.c], Source(ps.rest), p);
    } else if ps.Kept? {
      PrefixOfRendered(ps, p);
      assert OccursAt(Source(ps), p, 0);
    }
  }

  // --- replacing one secret ------------------------------------------------------------------

  /** Left to right, without overlaps. */
  function Replace(t: string, s: string): string
    requires s != []
  {
    if |t| < |s| then t
    else if t[..|s|] == s then MASK + Replace(t[|s|..], s)
    else [t[0]] + Replace(t[1..], s)
  }

  lemma {:induction false} ReplaceIsRewriting(t: string, s: string) returns (ps: Pieces)
    requires s != []
    ensures Source(ps) == t && Rendered(ps) == Replace(t, s)
  {
    if t == [] {
      ps := End;
    } else if |t| >= |s| && t[..|s|] == s {
      var rest := ReplaceIsRewriting(t[|s|..], s);
      ps := Hidden(s, rest);
    } else {
      var rest := ReplaceIsRewriting(t[1..], s);
      ps := Kept(t[0], rest);
      assert |t| < |s| ==> Replace(t[1..], s) == t[1..];
    }
  }

  /** A safe secret is gone after its replacement. */
  lemma {:induction false} ReplaceRemoves(t: string, s: string, i: nat)
    requires Safe(s)
    ensures !OccursAt(Replace(t, s), s, i)
  {
    if OccursAt(Replace(t, s), s, i) {
      if |t| >= |s| && t[..|s|] == s {
        MaskHidesStart(Replace(t[|s|..], s), s, i);
        ReplaceRemoves(t[|s|..], s, i - 3);
      } else if |t| >= |s| && i > 0 {
        OccursLater([t[0]], Replace(t[1..], s), s, i);
        ReplaceRemoves(t[1..], s, i - 1);
      } else if |t| >= |s| {
        var ps := ReplaceIsRewriting(t, s);
        PrefixOfRendered(ps, s);
      }
    }
  }

  lemma {:induction false} ReplaceWithoutOccurrence(t: string, s: string)
    requires s != [] && !Occurs(t, s)
    ensures Replace(t, s) == t
  {
    if |t| < |s| {
    } else {
      assert t == [t[0]] + t[1..];
      assert t[..|s|] != s by {
        assert !OccursAt(t, s, 0);
      }
      if Occurs(t[1..], s) {
        OccursFurther([t[0]], t[1..], s);
      }
      ReplaceWithoutOccurrence(t[1..], s);
    }
  }

  lemma ReplaceStep(t: string, s: string)
    requires s != [] && t != [] && !OccursAt(t, s, 0)
    ensures Replace(t, s) == [t[0]] + Replace(t[1..], s)
  {
    assert t == [t[0]] + t[1..];
    assert |t[1..]| < |s| ==> Replace(t[1..], s) == t[1..];
  }

  lemma {:induction false} ReplaceKeeps(a: string, u: string, s: string)
    requires s != [] && forall i: nat :: i < |a| ==> !OccursAt(a + u, s, i)
    ensures Replace(a + u, s) == a + Replace(u, s)
  {
    if a == [] {
      assert a + u == u;
    } else {
      var t, v := a + u, a[1..] + u;
      assert t == [a[0]] + v;
      forall i: nat | i < |a[1..]| ensures !OccursAt(v, s, i) {
        OccursShifted(a[0], v, s, i);
      }
      ReplaceKeeps(a[1..], u, s);
      ReplaceStep(t, s);
      assert t[1..] == v;
      assert a + Replace(u, s) == [a[0]] + (a[1..] + Replace(u, s));
    }
  }

  /** If `s` first occurs in a text after `a`, all up to there is kept. */
  lemma ReplaceFirst(a: string, s: string, rest: string)
    requires s != [] && forall i: nat :: i < |a| ==> !OccursAt(a + s + rest, s, i)
    ensures Replace(a + s + rest, s) == a + MASK + Replace(rest, s)
  {
    var u := s + rest;
    assert a + s + rest == a + u;
    ReplaceKeeps(a, u, s);
    assert u[..|s|] == s && u[|s|..] == rest;
    assert a + MASK + Replace(rest, s) == a + (MASK + Replace(rest, s));
  }

  // --- exactly which secrets can come back ---------------------------------------------------

  ghost predicate NeverComesBack(s: string)
    requires s != []
  {
    forall t :: !Occurs(Replace(t, s), s)
  }

  lemma LeadingStarComesBack(s: string) returns (t: string)
    requires s != [] && s[0] == '*'
    ensures Replace(t, s) == MASK + s[1..] && Occurs(Replace(t, s), s)
  {
    t := [] + s + s[1..];
    ReplaceFirst([], s, s[1..]);
    var r := Replace(t, s);
    assert r == MASK + s[1..];
    assert r[2..2 + |s|] == s;
    assert OccursAt(r, s, 2);
  }

  lemma TrailingStarComesBack(s: string) returns (t: string)
    requires s != [] && s[0] != '*' && s[|s|-1] == '*'
    ensures Replace(t, s) == s[..|s|-1] + MASK && Occurs(Replace(t, s), s)
  {
    var a := s[..|s|-1];
    t := a + s + [];
    forall i: nat | i < |a| ensures !OccursAt(t, s, i) {
      CharOfOccurrence(t, s, i, |s| - 1);
      CharOfOccurrence(t, s, i, 0);
      assert t[i + |s| - 1] == t[i] == s[i];
    }
    ReplaceFirst(a, s, []);
    var r := Replace(t, s);
    assert r == a + MASK;
    assert r[0..|s|] == s;
    assert OccursAt(r, s, 0);
  }

  lemma {:induction false} FirstMask(s: string, n: nat) returns (i: nat)
    requires OccursAt(s, MASK, n)
    ensures i <= n && OccursAt(s, MASK, i) && forall j: nat :: j < i ==> !OccursAt(s, MASK, j)
    decreases n
  {
    if j: nat :| j < n && OccursAt(s, MASK, j) {
      i := FirstMask(s, j);
    } else {
      i := n;
    }
  }

  lemma StarsAt(t: string, i: nat)
    requires i + 3 <= |t|
    ensures OccursAt(t, MASK, i) <==> t[i] == t[i + 1] == t[i + 2] == '*'
  {
    if t[i] == t[i + 1] == t[i + 2] == '*' {
      assert t[i..i + 3] == MASK;
    }
    CharOfOccurrence(t, MASK, i, 0);
    CharOfOccurrence(t, MASK, i, 1);
    CharOfOccurrence(t, MASK, i, 2);
  }

  /** Where `s` has its first stars at `k`, no occurrence of `s` begins earlier in `s[..k] + s + ...`. */
  lemma NoEarlierOccurrence(s: string, k: nat, t: string, i: nat)
    requires OccursAt(s, MASK, k) && i < k && !OccursAt(s, MASK, i) && k + |s| <= |t| && t[k..k + |s|] == s
    ensures !OccursAt(t, s, i)
  {
    if OccursAt(t, s, i) {
      StarsAt(s, k);
      StarsAt(s, i);
      forall j | k <= j < k + 3 ensures s[i + j - k] == s[j] {
        CharOfOccurrence(t, s, i, j);
        assert t[k..k + |s|][i + j - k] == t[i + j];
      }
    }
  }

  lemma EmbeddedMaskComesBack(s: string, n: nat) returns (t: string)
    requires s != [] && s[0] != '*' && OccursAt(s, MASK, n)
    ensures Replace(t, s) == s && Occurs(s, s)
  {
    var k := FirstMask(s, n);
    var a, b := s[..k], s[k + 3..];
    t := a + s + b;
    assert t[k..k + |s|] == s;
    forall i: nat | i < |a| ensures !OccursAt(t, s, i) {
      NoEarlierOccurrence(s, k, t, i);
    }
    ReplaceFirst(a, s, b);
    var r := Replace(t, s);
    assert r == a + MASK + b == s;
    assert OccursAt(r, s, 0);
  }

  /** A secret never survives its own replacement exactly if it is safe. */
  lemma SecretsComeBackExactlyIfUnsafe(s: string)
    requires s != []
    ensures NeverComesBack(s) <==> Safe(s)
  {
    if Safe(s) {
      forall t ensures !Occurs(Replace(t, s), s) {
        forall i: nat ensures !OccursAt(Replace(t, s), s, i) {
          ReplaceRemoves(t, s, i);
        }
      }
    } else if s[0] == '*' {
      var t := LeadingStarComesBack(s);
    } else if s[|s|-1] == '*' {
      var t := TrailingStarComesBack(s);
    } else {
      var n: nat :| OccursAt(s, MASK, n);
      var t := EmbeddedMaskComesBack(s, n);
    }
  }

  // --- bot tokens ----------------------------------------------------------------------------

  const MIN_DIGITS := 6
  const MIN_WORD := 30

  predicate IsDigit(c: char) { '0' <= c <= '9' }

  predicate IsWord(c: char) {
    IsDigit(c) || 'a' <= c <= 'z' || 'A' <= c <= 'Z' || c == '_' || c == '-'
  }

  /** `u` is at least 6 digits, `d` of them, a colon, and at least 30 word characters. */
  predicate TokenWith(u: string, d: nat) {
    && 6 <= d && d + 31 <= |u| && u[d] == ':'
    && (forall k :: 0 <= k < d ==> IsDigit(u[k]))
    && (forall k :: d < k < |u| ==> IsWord(u[k]))
  }

  ghost predicate IsToken(u: string) {
    exists d: nat :: TokenWith(u, d)
  }

  function DigitRun(t: string): (n: nat)
    ensures n <= |t|
  {
    if t == [] || !IsDigit(t[0]) then 0 else 1 + DigitRun(t[1..])
  }

  lemma {:induction false} DigitRunIsMaximal(t: string)
    ensures forall k :: 0 <= k < DigitRun(t) ==> IsDigit(t[k])
    ensures DigitRun(t) < |t| ==> !IsDigit(t[DigitRun(t)])
  {
    if t == [] || !IsDigit(t[0]) {
    } else {
      DigitRunIsMaximal(t[1..]);
      assert forall k :: 0 < k < |t| ==> t[k] == t[1..][k - 1];
    }
  }

  function WordRun(t: string): (n: nat)
    ensures n <= |t|
  {
    if t == [] || !IsWord(t[0]) then 0 else 1 + WordRun(t[1..])
  }

  lemma {:induction false} WordRunIsMaximal(t: string)
    ensures forall k :: 0 <= k < WordRun(t) ==> IsWord(t[k])
    ensures WordRun(t) < |t| ==> !IsWord(t[WordRun(t)])
  {
    if t == [] || !IsWord(t[0]) {
    } else {
      WordRunIsMaximal(t[1..]);
      assert forall k :: 0 < k < |t| ==> t[k] == t[1..][k - 1];
    }
  }

  /** Length of the greedy match at the start of `t`, 0 if there is none. */
  function TokenLength(t: string): (n: nat)
    ensures n <= |t|
  {
    var d := DigitRun(t);
    if d < MIN_DIGITS || d >= |t| || t[d] != ':' then 0
    else var w := WordRun(t[d + 1..]); if w < MIN_WORD then 0 else d + 1 + w
  }

  /** It is the longest prefix of the pattern's shape, and none exists if it is 0. */
  lemma TokenLengthIsLongest(t: string, n: nat)
    requires n <= |t|
    ensures TokenLength(t) > 0 ==> IsToken(t[..TokenLength(t)])
    ensures IsToken(t[..n]) ==> n <= TokenLength(t)
    ensures 0 < TokenLength(t) < |t| ==> !IsWord(t[TokenLength(t)])
  {
    var d := DigitRun(t);
    var m := TokenLength(t);
    DigitRunIsMaximal(t);
    if d < |t| {
      WordRunIsMaximal(t[d + 1..]);
    }
    if m > 0 {
      var u := t[..m];
      assert forall k :: d < k < m ==> u[k] == t[d + 1..][k - d - 1];
      assert TokenWith(u, d);
      assert m < |t| ==> t[m] == t[d + 1..][m - d - 1];
    }
    if IsToken(t[..n]) {
      var e: nat :| TokenWith(t[..n], e);
      assert t[..n][e] == t[e];
      assert forall k :: 0 <= k < e ==> t[..n][k] == t[k];
      assert e == d;
      var rest := t[d + 1..];
      assert forall k :: d < k < n ==> t[..n][k] == rest[k - d - 1];
      assert WordRun(rest) >= n - d - 1;
    }
  }

  /** How long the match of a pattern at the start of a text is, 0 if there is none. */
  type Matcher = string -> nat

  /** The matches are found from left to right; one may not follow a digit. */
  function Scan(len: Matcher, t: string, afterDigit: bool): (ps: Pieces)
    ensures Source(ps) == t
  {
    var n := len(t);
    if t == [] then End
    else if !afterDigit && 0 < n <= |t| then
      assert t == t[..n] + t[n..];
      Hidden(t[..n], Scan(len, t[n..], IsDigit(t[n - 1])))
    else
      assert t == [t[0]] + t[1..];
      Kept(t[0], Scan(len, t[1..], IsDigit(t[0])))
  }

  function SubTokens(t: string): string {
    Rendered(Scan(TokenLength, t, false))
  }

  predicate HasToken(t: string, afterDigit: bool) {
    t != [] && ((!afterDigit && TokenLength(t) > 0) || HasToken(t[1..], IsDigit(t[0])))
  }

  /** A match begins at `i`. */
  predicate MatchAt(len: Matcher, t: string, i: nat) {
    i < |t| && (i == 0 || !IsDigit(t[i - 1])) && len(t[i..]) > 0
  }

  predicate TokenAt(t: string, i: nat) {
    MatchAt(TokenLength, t, i)
  }

  /** `HasToken` says that the pattern matches somewhere. */
  lemma {:induction false} HasTokenSomewhere(t: string, afterDigit: bool)
    ensures HasToken(t, afterDigit) <==> exists i: nat :: TokenAt(t, i) && (i == 0 ==> !afterDigit)
  {
    if t == [] {
    } else {
      HasTokenSomewhere(t[1..], IsDigit(t[0]));
      assert t[0..] == t;
      forall i: nat | i + 1 < |t| ensures TokenAt(t, i + 1) <==> TokenAt(t[1..], i) && (i == 0 ==> !IsDigit(t[0])) {
        assert t[1..][i..] == t[i + 1..];
      }
      if HasToken(t[1..], IsDigit(t[0])) {
        var i: nat :| TokenAt(t[1..], i) && (i == 0 ==> !IsDigit(t[0]));
        assert TokenAt(t, i + 1);
      } else if !afterDigit && TokenLength(t) > 0 {
        assert TokenAt(t, 0);
      }
      if i: nat :| TokenAt(t, i) && (i == 0 ==> !afterDigit) {
        if i > 0 {
          assert TokenAt(t, (i - 1) + 1);
          assert TokenAt(t[1..], i - 1);
        }
      }
    }
  }

  lemma TokensHaveNoStar(u: string)
    requires IsToken(u)
    ensures TailSafe(u)
  {
    var d: nat :| TokenWith(u, d);
    assert forall k :: 0 <= k < |u| ==> u[k] != '*';
    StarFreeIsSafe(u);
  }

  /** What follows a match never starts with a digit, so what stands before it does not matter. */
  lemma NoTokenWithoutDigit(t: string, b: bool)
    requires t != [] ==> !IsDigit(t[0])
    ensures HasToken(t, b) == HasToken(t, false)
  {
  }

  lemma MaskHidesTokens(r: string, b: bool)
    ensures HasToken(MASK + r, b) == HasToken(r, false)
  {
    var one, two := "*" + r, "**" + r;
    assert (MASK + r)[1..] == two && two[1..] == one && one[1..] == r;
    assert TokenLength(MASK + r) == TokenLength(two) == TokenLength(one) == 0;
    assert HasToken(MASK + r, b) == HasToken(two, false);
    assert HasToken(two, false) == HasToken(one, false);
  }

  lemma MatchIsTailSafe(r: string)
    requires TokenLength(r) > 0
    ensures TailSafe(r[..TokenLength(r)])
  {
    TokenLengthIsLongest(r, 0);
    TokensHaveNoStar(r[..TokenLength(r)]);
  }

  lemma MatchOfPrefix(r: string, t: string)
    requires TokenLength(r) > 0 && r[..TokenLength(r)] <= t
    ensures TokenLength(t) > 0
  {
    var n := TokenLength(r);
    TokenLengthIsLongest(r, 0);
    assert t[..n] == r[..n];
    TokenLengthIsLongest(t, n);
  }

  /** A match at the start of the result is a match at the start of the text. */
  lemma StartOfRendered(c: char, ps: Pieces)
    requires TokenLength([c] + Rendered(ps)) > 0
    ensures TokenLength([c] + Source(ps)) > 0
  {
    var r := [c] + Rendered(ps);
    MatchIsTailSafe(r);
    PrefixOfRendered(Kept(c, ps), r[..TokenLength(r)]);
    MatchOfPrefix(r, [c] + Source(ps));
  }

  /** Matches fit, and what follows one is no digit. */
  ghost predicate EndsDigits(len: Matcher) {
    forall t :: len(t) <= |t| && (0 < len(t) < |t| ==> !IsDigit(t[len(t)]))
  }

  /** No match begins at a kept character, and what follows a match is no digit. */
  ghost predicate Leftmost(len: Matcher, ps: Pieces, afterDigit: bool) {
    match ps
    case End => true
    case Kept(c, rest) => (afterDigit || len([c] + Source(rest)) == 0) && Leftmost(len, rest, IsDigit(c))
    case Hidden(text, rest) =>
      text != [] && (Source(rest) != [] ==> !IsDigit(Source(rest)[0])) && Leftmost(len, rest, IsDigit(text[|text|-1]))
  }

  lemma {:induction false} ScanIsLeftmost(len: Matcher, t: string, afterDigit: bool)
    requires EndsDigits(len)
    ensures Leftmost(len, Scan(len, t, afterDigit), afterDigit)
  {
    var n := len(t);
    if t == [] {
    } else if !afterDigit && n > 0 {
      ScanIsLeftmost(len, t[n..], IsDigit(t[n - 1]));
    } else {
      ScanIsLeftmost(len, t[1..], IsDigit(t[0]));
      assert t == [t[0]] + t[1..];
    }
  }

  lemma TokensEndDigits()
    ensures EndsDigits(TokenLength)
  {
    forall t: string ensures TokenLength(t) <= |t| && (0 < TokenLength(t) < |t| ==> !IsDigit(t[TokenLength(t)])) {
      TokenLengthIsLongest(t, 0);
    }
  }

  /** After such a rewriting the pattern matches nowhere. */
  lemma {:induction false} LeftmostLeavesNoToken(ps: Pieces, afterDigit: bool)
    requires Leftmost(TokenLength, ps, afterDigit)
    ensures !HasToken(Rendered(ps), afterDigit)
  {
    if ps.Hidden? {
      var b := IsDigit(ps.text[|ps.text|-1]);
      LeftmostLeavesNoToken(ps.rest, b);
      assert ps.rest.Kept? ==> !IsDigit(ps.rest.c);
      NoTokenWithoutDigit(Rendered(ps.rest), b);
      MaskHidesTokens(Rendered(ps.rest), afterDigit);
    } else if ps.Kept? {
      LeftmostLeavesNoToken(ps.rest, IsDigit(ps.c));
      assert Rendered(ps)[1..] == Rendered(ps.rest);
      if TokenLength(Rendered(ps)) > 0 {
        StartOfRendered(ps.c, ps.rest);
      }
    }
  }

  lemma SubRemovesTokens(t: string)
    ensures !HasToken(SubTokens(t), false)
  {
    TokensEndDigits();
    ScanIsLeftmost(TokenLength, t, false);
    LeftmostLeavesNoToken(Scan(TokenLength, t, false), false);
  }

  lemma {:induction false} SubWithoutToken(t: string, afterDigit: bool)
    requires !HasToken(t, afterDigit)
    ensures Rendered(Scan(TokenLength, t, afterDigit)) == t
  {
    if t == [] {
    } else {
      SubWithoutToken(t[1..], IsDigit(t[0]));
      assert t == [t[0]] + t[1..];
    }
  }

  // --- what a substitution does, match by match ----------------------------------------------

  /** No match begins in `a` when `u` follows. */
  ghost predicate NoMatchIn(len: Matcher, a: string, u: string, afterDigit: bool) {
    a != [] ==> (afterDigit || len(a + u) == 0) && NoMatchIn(len, a[1..], u, IsDigit(a[0]))
  }

  lemma {:induction false} NoneAtNoneIn(len: Matcher, a: string, u: string, afterDigit: bool)
    requires forall i: nat :: i < |a| && MatchAt(len, a + u, i) ==> i == 0 && afterDigit
    ensures NoMatchIn(len, a, u, afterDigit)
  {
    if a == [] {
    } else {
      var b, t := a[1..], a + u;
      assert t[1..] == b + u && t[0..] == t;
      forall i: nat | i < |b| && MatchAt(len, b + u, i) ensures i == 0 && IsDigit(a[0]) {
        assert (b + u)[i..] == t[i + 1..];
        assert i > 0 ==> t[i] == (b + u)[i - 1];
        assert i > 0 || !IsDigit(a[0]) ==> MatchAt(len, t, i + 1);
      }
      NoneAtNoneIn(len, b, u, IsDigit(a[0]));
      assert !afterDigit ==> !MatchAt(len, t, 0);
    }
  }

  function FlagAfter(a: string, afterDigit: bool): bool {
    if a == [] then afterDigit else IsDigit(a[|a|-1])
  }

  lemma ScanKeepsOne(len: Matcher, c: char, v: string, afterDigit: bool)
    requires afterDigit || len([c] + v) == 0
    ensures Rendered(Scan(len, [c] + v, afterDigit)) == [c] + Rendered(Scan(len, v, IsDigit(c)))
  {
    assert ([c] + v)[1..] == v;
  }

  lemma FlagAfterMore(c: char, b: string, afterDigit: bool)
    ensures FlagAfter([c] + b, afterDigit) == FlagAfter(b, IsDigit(c))
  {
  }

  lemma {:induction false} ScanKeeps(len: Matcher, a: string, u: string, afterDigit: bool)
    requires NoMatchIn(len, a, u, afterDigit)
    ensures Rendered(Scan(len, a + u, afterDigit)) == a + Rendered(Scan(len, u, FlagAfter(a, afterDigit)))
  {
    if a == [] {
      assert a + u == u;
    } else {
      var c, b := a[0], a[1..];
      assert a == [c] + b && a + u == [c] + (b + u);
      ScanKeeps(len, b, u, IsDigit(c));
      FlagAfterMore(c, b, afterDigit);
      ScanKeepsOne(len, c, b + u, afterDigit);
      Regroup([c], b, Rendered(Scan(len, u, FlagAfter(a, afterDigit))));
    }
  }

  lemma Regroup(a: string, b: string, c: string)
    ensures a + (b + c) == a + b + c
  {
  }

  lemma FlagDoesNotMatter(t: string, b: bool)
    requires t != [] ==> !IsDigit(t[0])
    ensures Scan(TokenLength, t, b) == Scan(TokenLength, t, false)
  {
  }

  lemma ScanHides(len: Matcher, u: string)
    requires 0 < len(u) <= |u|
    ensures Rendered(Scan(len, u, false)) == MASK + Rendered(Scan(len, u[len(u)..], IsDigit(u[len(u) - 1])))
  {
  }

  lemma ScanFirst(len: Matcher, a: string, u: string)
    requires MatchAt(len, a + u, |a|) && (forall j: nat :: j < |a| ==> !MatchAt(len, a + u, j)) && len(u) <= |u|
    ensures len(u) > 0
    ensures Rendered(Scan(len, a + u, false)) == a + (MASK + Rendered(Scan(len, u[len(u)..], IsDigit(u[len(u) - 1]))))
  {
    assert (a + u)[|a|..] == u;
    assert a != [] ==> (a + u)[|a|-1] == a[|a|-1];
    NoneAtNoneIn(len, a, u, false);
    ScanKeeps(len, a, u, false);
    ScanHides(len, u);
  }

  lemma RestOfMatch(u: string)
    requires TokenLength(u) > 0
    ensures Scan(TokenLength, u[TokenLength(u)..], IsDigit(u[TokenLength(u) - 1])) ==
            Scan(TokenLength, u[TokenLength(u)..], false)
  {
    TokenLengthIsLongest(u, 0);
    FlagDoesNotMatter(u[TokenLength(u)..], IsDigit(u[TokenLength(u) - 1]));
  }

  /** The first match becomes one mask, the text before it stays, and the search goes on behind it. */
  lemma SubFirst(a: string, u: string)
    requires MatchAt(TokenLength, a + u, |a|) && forall j: nat :: j < |a| ==> !MatchAt(TokenLength, a + u, j)
    ensures 0 < TokenLength(u) <= |u| && SubTokens(a + u) == a + ("***" + SubTokens(u[TokenLength(u)..]))
  {
    ScanFirst(TokenLength, a, u);
    RestOfMatch(u);
  }

  // --- the masker ----------------------------------------------------------------------------

  predicate NoneEmpty(secrets: seq<string>) {
    forall i :: 0 <= i < |secrets| ==> secrets[i] != []
  }

  function ReplaceAll(t: string, secrets: seq<string>): string
    requires NoneEmpty(secrets)
  {
    if secrets == [] then t else Replace(ReplaceAll(t, secrets[..|secrets|-1]), secrets[|secrets|-1])
  }

  function Masked(t: string, secrets: seq<string>): string
    requires NoneEmpty(secrets)
  {
    SubTokens(ReplaceAll(t, secrets))
  }

  ghost predicate NoneOccurs(t: string, secrets: seq<string>) {
    forall s :: s in secrets ==> !Occurs(t, s)
  }

  /** Later replacements, whatever they replace, never bring a safe secret back. */
  lemma {:induction false} ReplaceAllRemoves(t: string, secrets: seq<string>, p: string)
    requires NoneEmpty(secrets) && Safe(p)
    ensures p in secrets || !Occurs(t, p) ==> !Occurs(ReplaceAll(t, secrets), p)
  {
    if secrets == [] {
    } else {
      var init, last := secrets[..|secrets|-1], secrets[|secrets|-1];
      ReplaceAllRemoves(t, init, p);
      if p in secrets || !Occurs(t, p) {
        assert p in secrets ==> p in init || p == last;
        forall i: nat ensures !OccursAt(ReplaceAll(t, secrets), p, i) {
          if p == last {
            ReplaceRemoves(ReplaceAll(t, init), p, i);
          } else if OccursAt(ReplaceAll(t, secrets), p, i) {
            var ps := ReplaceIsRewriting(ReplaceAll(t, init), last);
            RewritingCreatesNothing(ps, p, i);
          }
        }
      }
    }
  }

  // --- tokens in a larger text ---------------------------------------------------------------

  lemma {:induction false} TokenBeforeMore(t: string, b: string, afterDigit: bool)
    requires HasToken(t, afterDigit)
    ensures HasToken(t + b, afterDigit)
  {
    assert (t + b)[1..] == t[1..] + b;
    if !afterDigit && TokenLength(t) > 0 {
      MatchOfPrefix(t, t + b);
    } else {
      TokenBeforeMore(t[1..], b, IsDigit(t[0]));
    }
  }

  lemma DigitBeforeMatch(c: char, t: string)
    requires IsDigit(c) && TokenLength(t) > 0
    ensures TokenLength([c] + t) > 0
  {
    var n, r := TokenLength(t), [c] + t;
    TokenLengthIsLongest(t, 0);
    var d: nat :| TokenWith(t[..n], d);
    assert r[..n + 1] == [c] + t[..n];
    assert TokenWith(r[..n + 1], d + 1);
    TokenLengthIsLongest(r, n + 1);
  }

  lemma TokenAfterOne(c: char, t: string)
    requires HasToken(t, false)
    ensures HasToken([c] + t, false)
  {
    assert ([c] + t)[1..] == t;
    if IsDigit(c) && TokenLength(t) > 0 {
      DigitBeforeMatch(c, t);
    }
  }

  lemma {:induction false} TokenAfterMore(a: string, t: string)
    requires HasToken(t, false)
    ensures HasToken(a + t, false)
  {
    if a == [] {
      assert a + t == t;
    } else {
      TokenAfterMore(a[1..], t);
      TokenAfterOne(a[0], a[1..] + t);
      assert a + t == [a[0]] + (a[1..] + t);
    }
  }

  /** Around a text in which the pattern matches it matches too. */
  lemma TokenOfOccurrence(x: string, s: string)
    requires Occurs(x, s) && HasToken(s, false)
    ensures HasToken(x, false)
  {
    var i: nat :| OccursAt(x, s, i);
    TokenInside(x[..i], s, x[i + |s|..]);
    assert x == x[..i] + (s + x[i + |s|..]);
  }

  lemma TokenInside(a: string, s: string, b: string)
    requires HasToken(s, false)
    ensures HasToken(a + (s + b), false)
  {
    TokenBeforeMore(s, b, false);
    TokenAfterMore(a, s + b);
  }

  lemma MatchBeforeStar(t: string, b: string)
    requires b != [] && b[0] == '*' && TokenLength(t + b) > 0
    ensures TokenLength(t) > 0
  {
    var n := TokenLength(t + b);
    TokenLengthIsLongest(t + b, 0);
    var d: nat :| TokenWith((t + b)[..n], d);
    forall k | 0 <= k < n ensures (t + b)[k] != '*' {
      assert (t + b)[..n][k] == (t + b)[k];
    }
    assert (t + b)[|t|] == '*';
    assert n <= |t| && (t + b)[..n] == t[..n];
    MatchOfPrefix(t + b, t);
  }

  lemma {:induction false} StarsAddNoToken(t: string, b: string, afterDigit: bool)
    requires b != [] && b[0] == '*' && HasToken(t + b, afterDigit)
    ensures HasToken(t, afterDigit) || HasToken(b, false)
  {
    if t == [] {
      assert t + b == b;
      NoTokenWithoutDigit(b, afterDigit);
    } else {
      assert (t + b)[1..] == t[1..] + b;
      if !afterDigit && TokenLength(t + b) > 0 {
        MatchBeforeStar(t, b);
      } else {
        StarsAddNoToken(t[1..], b, IsDigit(t[0]));
      }
    }
  }

  // --- what is left --------------------------------------------------------------------------

  /** Its occurrences are hidden for good, by its own replacement or as a token. */
  ghost predicate Hideable(s: string) {
    Safe(s) || HasToken(s, false)
  }

  /** No hideable registered secret and nothing shaped like a token is left. */
  lemma NothingSecretIsLeft(t: string, secrets: seq<string>, p: string)
    requires NoneEmpty(secrets)
    ensures p in secrets && Hideable(p) ==> !Occurs(Masked(t, secrets), p)
    ensures !HasToken(Masked(t, secrets), false)
  {
    SubRemovesTokens(ReplaceAll(t, secrets));
    if p in secrets && Safe(p) {
      ReplaceAllRemoves(t, secrets, p);
      forall i: nat ensures !OccursAt(Masked(t, secrets), p, i) {
        if OccursAt(Masked(t, secrets), p, i) {
          RewritingCreatesNothing(Scan(TokenLength, ReplaceAll(t, secrets), false), p, i);
        }
      }
    } else if HasToken(p, false) && Occurs(Masked(t, secrets), p) {
      TokenOfOccurrence(Masked(t, secrets), p);
    }
  }

  ghost predicate NeverLeft(s: string)
    requires s != []
  {
    forall t :: !Occurs(Masked(t, [s]), s)
  }

  /** A text whose replacement brings an unsafe secret back, and no token with it. */
  lemma Comeback(s: string) returns (t: string)
    requires s != [] && !Safe(s)
    ensures Occurs(Replace(t, s), s) && (HasToken(Replace(t, s), false) ==> HasToken(s, false))
  {
    MaskHidesTokens([], false);
    assert MASK + [] == MASK;
    if s[0] == '*' {
      t := LeadingStarComesBack(s);
      MaskHidesTokens(s[1..], false);
    } else if s[|s|-1] == '*' {
      t := TrailingStarComesBack(s);
      var a := s[..|s|-1];
      assert s == a + [s[|s|-1]];
      if HasToken(a + MASK, false) {
        StarsAddNoToken(a, MASK, false);
        TokenBeforeMore(a, [s[|s|-1]], false);
      }
    } else {
      var n: nat :| OccursAt(s, MASK, n);
      t := EmbeddedMaskComesBack(s, n);
    }
  }

  lemma MaskedByOne(t: string, s: string)
    requires s != []
    ensures Masked(t, [s]) == SubTokens(Replace(t, s))
  {
    assert [s][..0] == [];
    assert ReplaceAll(t, [s]) == Replace(ReplaceAll(t, []), s);
  }

  /** A registered secret can survive masking exactly if it is unsafe and contains no token. */
  lemma SecretsAreLeftExactlyIfNotHideable(s: string)
    requires s != []
    ensures NeverLeft(s) <==> Hideable(s)
  {
    if Hideable(s) {
      forall t ensures !Occurs(Masked(t, [s]), s) {
        NothingSecretIsLeft(t, [s], s);
      }
    } else {
      var t := Comeback(s);
      SubWithoutToken(Replace(t, s), false);
      MaskedByOne(t, s);
      assert Occurs(Masked(t, [s]), s);
    }
  }

  lemma {:induction false} ReplaceAllWithoutOccurrence(t: string, secrets: seq<string>)
    requires NoneEmpty(secrets) && NoneOccurs(t, secrets)
    ensures ReplaceAll(t, secrets) == t
  {
    if secrets == [] {
    } else {
      ReplaceAllWithoutOccurrence(t, secrets[..|secrets|-1]);
      ReplaceWithoutOccurrence(t, secrets[|secrets|-1]);
    }
  }

  /** A text without secrets and tokens is left alone. */
  lemma CleanTextIsUnchanged(t: string, secrets: seq<string>)
    requires NoneEmpty(secrets) && NoneOccurs(t, secrets) && !HasToken(t, false)
    ensures Masked(t, secrets) == t
  {
    ReplaceAllWithoutOccurrence(t, secrets);
    SubWithoutToken(t, false);
  }

  /** Masking twice is masking once. */
  lemma MaskingIsIdempotent(t: string, secrets: seq<string>)
    requires NoneEmpty(secrets) && forall i :: 0 <= i < |secrets| ==> Hideable(secrets[i])
    ensures Masked(Masked(t, secrets), secrets) == Masked(t, secrets)
  {
    forall p | p in secrets ensures !Occurs(Masked(t, secrets), p) {
      NothingSecretIsLeft(t, secrets, p);
    }
    NothingSecretIsLeft(t, secrets, []);
    CleanTextIsUnchanged(Masked(t, secrets), secrets);
  }

  lemma {:induction false} ReplaceShortens(t: string, s: string)
    requires |s| > 3
    ensures |Replace(t, s)| <= |t| && (Occurs(t, s) ==> |Replace(t, s)| < |t|)
  {
    if |t| < |s| {
    } else if t[..|s|] == s {
      ReplaceShortens(t[|s|..], s);
    } else {
      ReplaceShortens(t[1..], s);
      if i: nat :| OccursAt(t, s, i) {
        assert i > 0;
        assert t == [t[0]] + t[1..];
        OccursLater([t[0]], t[1..], s, i);
      }
    }
  }

  lemma {:induction false} ShortMasksNeverLengthen(len: Matcher, t: string, afterDigit: bool)
    requires forall u :: len(u) > 0 ==> len(u) >= 3
    ensures |Rendered(Scan(len, t, afterDigit))| <= |t|
  {
    if t == [] {
    } else if !afterDigit && 0 < len(t) <= |t| {
      ShortMasksNeverLengthen(len, t[len(t)..], IsDigit(t[len(t) - 1]));
    } else {
      ShortMasksNeverLengthen(len, t[1..], IsDigit(t[0]));
    }
  }

  ghost predicate Settles(s: string)
    requires s != []
  {
    forall t :: Masked(Masked(t, [s]), [s]) == Masked(t, [s])
  }

  /** A secret that can survive does not even survive for good: masking again changes the text again. */
  lemma MaskingSettlesExactlyIfHideable(s: string)
    requires |s| >= MIN_SECRET
    ensures Settles(s) <==> Hideable(s)
  {
    if Hideable(s) {
      forall t ensures Masked(Masked(t, [s]), [s]) == Masked(t, [s]) {
        MaskingIsIdempotent(t, [s]);
      }
    } else {
      SecretsAreLeftExactlyIfNotHideable(s);
      var t :| Occurs(Masked(t, [s]), s);
      var x := Masked(t, [s]);
      MaskedByOne(x, s);
      ReplaceShortens(x, s);
      ShortMasksNeverLengthen(TokenLength, Replace(x, s), false);
      assert |Masked(x, [s])| < |x|;
    }
  }

  function Registrable(values: seq<Option<string>>): set<string> {
    set v | v in values && v.Some? && |v.value| >= MIN_SECRET :: v.value
  }

  predicate LongestFirst(secrets: seq<string>) {
    forall i, j :: 0 <= i < j < |secrets| ==> |secrets[i]| >= |secrets[j]|
  }

  predicate Distinct(secrets: seq<string>) {
    forall i, j :: 0 <= i < j < |secrets| ==> secrets[i] != secrets[j]
  }

  // --- why longest first ---------------------------------------------------------------------

  lemma {:induction false} ReplaceAllInTwo(t: string, secrets: seq<string>, i: nat)
    requires NoneEmpty(secrets) && i <= |secrets|
    ensures NoneEmpty(secrets[..i]) && NoneEmpty(secrets[i..])
    ensures ReplaceAll(t, secrets) == ReplaceAll(ReplaceAll(t, secrets[..i]), secrets[i..])
    decreases |secrets|
  {
    if i == |secrets| {
      assert secrets[..i] == secrets && secrets[i..] == [];
    } else {
      var init := secrets[..|secrets|-1];
      ReplaceAllInTwo(t, init, i);
      assert init[..i] == secrets[..i] && init[i..] == secrets[i..][..|secrets| - 1 - i];
    }
  }

  lemma OccursIsNotLonger(t: string, p: string)
    requires Occurs(t, p)
    ensures |p| <= |t| && (|p| == |t| ==> p == t)
  {
    var k: nat :| OccursAt(t, p, k);
    if |p| == |t| {
      assert t[k..k + |p|] == t;
    }
  }

  /** A secret inside another one is replaced after it. */
  lemma ContainedComesLater(secrets: seq<string>, i: nat, j: nat)
    requires LongestFirst(secrets) && Distinct(secrets) && i < |secrets| && j < |secrets| && i != j
    requires Occurs(secrets[i], secrets[j])
    ensures i < j
  {
    OccursIsNotLonger(secrets[i], secrets[j]);
  }

  /** So the longer one is hidden whole: what is replaced afterwards no longer sees any of it. */
  lemma LongerIsHiddenWhole(a: string, b: string, secrets: seq<string>, i: nat)
    requires NoneEmpty(secrets) && i < |secrets| && NoneOccurs(a + secrets[i] + b, secrets[..i])
    requires forall k: nat :: k < |a| ==> !OccursAt(a + secrets[i] + b, secrets[i], k)
    ensures NoneEmpty(secrets[i + 1..])
    ensures ReplaceAll(a + secrets[i] + b, secrets) ==
            ReplaceAll(a + MASK + Replace(b, secrets[i]), secrets[i + 1..])
  {
    var t, before := a + secrets[i] + b, secrets[..i + 1];
    ReplaceAllInTwo(t, secrets, i + 1);
    assert before[..i] == secrets[..i];
    ReplaceAllWithoutOccurrence(t, secrets[..i]);
    ReplaceFirst(a, secrets[i], b);
  }

  /** In the other order the part of the longer one before the shorter one stays visible. */
  lemma ShorterFirstLeavesRemainder(a: string, s: string, b: string)
    requires s != [] && forall k: nat :: k < |a| ==> !OccursAt(a + s + b, s, k)
    ensures OccursAt(Replace(a + s + b, s), a, 0)
  {
    ReplaceFirst(a, s, b);
  }

  class SecretMasker {
    const secrets: seq<string>

    /** Values that are missing or too short are not registered; the order among equal lengths is open. */
    constructor (values: seq<Option<string>>)
      ensures forall s :: s in secrets <==> Some(s) in values && |s| >= 8
      ensures LongestFirst(secrets) && Distinct(secrets)
    {
      var left := Registrable(values);
      var sorted: seq<string> := [];
      while left != {}
        invariant left <= Registrable(values)
        invariant forall s :: s in sorted <==> s in Registrable(values) - left
        invariant LongestFirst(sorted) && Distinct(sorted)
        decreases left
      {
        var s :| s in left;
        left := left - {s};
        sorted := InsertByLength(s, sorted);
      }
      secrets := sorted;
    }

    method Mask(text: string) returns (masked: string)
      requires NoneEmpty(secrets)
      ensures masked == Masked(text, secrets)
    {
      masked := text;
      for i := 0 to |secrets|
        invariant masked == ReplaceAll(text, secrets[..i])
      {
        masked := Replace(masked, secrets[i]);
        assert secrets[..i + 1][..i] == secrets[..i];
      }
      assert secrets[..|secrets|] == secrets;
      masked := SubTokens(masked);
    }
  }

  lemma PrependKeepsOrder(first: string, rest: seq<string>)
    requires LongestFirst(rest) && Distinct(rest) && forall x :: x in rest ==> |x| <= |first| && x != first
    ensures LongestFirst([first] + rest) && Distinct([first] + rest)
  {
    forall i | 0 <= i < |rest| ensures |rest[i]| <= |first| && rest[i] != first {
      assert rest[i] in rest;
    }
  }

  lemma HeadIsLongest(sorted: seq<string>)
    requires LongestFirst(sorted) && Distinct(sorted) && sorted != []
    ensures forall x :: x in sorted[1..] ==> |x| <= |sorted[0]| && x != sorted[0]
    ensures forall x :: x in sorted <==> x == sorted[0] || x in sorted[1..]
    ensures LongestFirst(sorted[1..]) && Distinct(sorted[1..])
  {
    assert sorted == [sorted[0]] + sorted[1..];
  }

  function InsertByLength(s: string, sorted: seq<string>): (r: seq<string>)
    requires LongestFirst(sorted) && Distinct(sorted) && s !in sorted
    ensures LongestFirst(r) && Distinct(r)
    ensures forall x :: x in r <==> x == s || x in sorted
  {
    if sorted == [] then [s]
    else
      HeadIsLongest(sorted);
      if |s| >= |sorted[0]| then
        PrependKeepsOrder(s, sorted);
        [s] + sorted
      else
        var rest := InsertByLength(s, sorted[1..]);
        PrependKeepsOrder(sorted[0], rest);
        [sorted[0]] + rest
  }
}
