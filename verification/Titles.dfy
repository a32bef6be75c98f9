/** Titles of services added from Telegram, and the numbered variants that make them unique. */
module Titles {

  /** What Python's `str.isspace` accepts. */
  predicate IsSpace(c: char) {
    c in " \t\n\r" || '\U{0b}' <= c <= '\U{0c}' || '\U{1c}' <= c <= '\U{1f}' || c == '\U{85}' || c == '\U{a0}' ||
    c == '\U{1680}' || '\U{2000}' <= c <= '\U{200a}' || '\U{2028}' <= c <= '\U{2029}' || c == '\U{202f}' ||
    c == '\U{205f}' || c == '\U{3000}'
  }

  function RStrip(s: string): (r: string)
    ensures r <= s && (r != [] ==> !IsSpace(r[|r|-1]))
  {
    if s != [] && IsSpace(s[|s|-1]) then RStrip(s[..|s|-1]) else s
  }

  function LStrip(s: string): (r: string)
    ensures |r| <= |s| && r == s[|s| - |r|..] && (r != [] ==> !IsSpace(r[0]))
  {
    if s != [] && IsSpace(s[0]) then LStrip(s[1..]) else s
  }

  function Strip(s: string): string {
    LStrip(RStrip(s))
  }

  predicate AllSpaces(s: string) {
    forall i :: 0 <= i < |s| ==> IsSpace(s[i])
  }

  /** `r` is `s` without the whitespace around it. */
  ghost predicate IsStripped(s: string, r: string) {
    exists i: nat, j: nat :: StrippedBetween(s, r, i, j)
  }

  predicate StrippedBetween(s: string, r: string, i: nat, j: nat) {
    && i <= j <= |s| && r == s[i..j] && AllSpaces(s[..i]) && AllSpaces(s[j..])
    && (r != [] ==> !IsSpace(r[0]) && !IsSpace(r[|r|-1]))
  }

  lemma {:induction false} RStripDropsSpaces(s: string)
    ensures AllSpaces(s[|RStrip(s)|..])
  {
    if s == [] || !IsSpace(s[|s|-1]) {
    } else {
      var init := s[..|s|-1];
      RStripDropsSpaces(init);
      assert s[|RStrip(s)|..] == init[|RStrip(init)|..] + [s[|s|-1]];
    }
  }

  lemma {:induction false} LStripDropsSpaces(s: string)
    ensures AllSpaces(s[..|s| - |LStrip(s)|])
  {
    if s == [] || !IsSpace(s[0]) {
    } else {
      LStripDropsSpaces(s[1..]);
      assert s[..|s| - |LStrip(s)|] == [s[0]] + s[1..][..|s| - 1 - |LStrip(s)|];
    }
  }

  lemma StripStrips(s: string)
    ensures IsStripped(s, Strip(s))
  {
    var t, r := RStrip(s), Strip(s);
    RStripDropsSpaces(s);
    LStripDropsSpaces(t);
    var i := |t| - |r|;
    assert s[..i] == t[..i] && s[i..|t|] == r;
    assert StrippedBetween(s, r, i, |t|);
  }

  lemma StrippedOfSpaces(s: string, r: string, i: nat, j: nat)
    requires StrippedBetween(s, r, i, j)
    ensures r == [] <==> AllSpaces(s)
  {
    assert s == s[..i] + r + s[j..];
    assert r != [] ==> r[0] == s[i];
  }

  lemma StripOfSpaces(s: string)
    ensures Strip(s) == [] <==> AllSpaces(s)
  {
    StripStrips(s);
    var i: nat, j: nat :| StrippedBetween(s, Strip(s), i, j);
    StrippedOfSpaces(s, Strip(s), i, j);
  }

  const MAX_TITLE := 64

  function Clipped(title: string): (r: string)
    ensures |r| <= MAX_TITLE && r <= title
  {
    if |title| > MAX_TITLE then RStrip(title[..MAX_TITLE]) else title
  }

  /** `r` is `title`, cut to size and not ending in whitespace where it was cut. */
  predicate IsCut(title: string, r: string) {
    if |title| <= 64 then r == title
    else && r <= title[..64] && AllSpaces(title[|r|..64]) && (r != [] ==> !IsSpace(r[|r|-1]))
  }

  lemma ClippedCuts(title: string)
    ensures IsCut(title, Clipped(title))
  {
    if |title| > 64 {
      RStripDropsSpaces(title[..64]);
      assert title[..64][|Clipped(title)|..] == title[|Clipped(title)|..64];
    }
  }

  // --- "base (2)", "base (3)", ... -----------------------------------------------------------

  function Decimal(n: nat): string {
    if n < 10 then ["0123456789"[n]] else Decimal(n / 10) + ["0123456789"[n % 10]]
  }

  /** What a row of digits stands for. */
  function Value(s: string): int {
    if s == [] then 0 else Value(s[..|s|-1]) * 10 + (s[|s|-1] as int - '0' as int)
  }

  /** The usual decimal notation: digits, no leading zero, and the right value. */
  lemma {:induction false} DecimalIsNotation(n: nat)
    ensures Value(Decimal(n)) == n && (forall i :: 0 <= i < |Decimal(n)| ==> '0' <= Decimal(n)[i] <= '9')
    ensures Decimal(n) != [] && (n > 0 ==> Decimal(n)[0] != '0')
  {
    if n < 10 {
      assert Decimal(n)[..0] == [];
    } else {
      DecimalIsNotation(n / 10);
      assert Decimal(n)[..|Decimal(n)|-1] == Decimal(n / 10);
    }
  }

  function Candidate(base: string, k: nat): string {
    base + " (" + Decimal(k) + ")"
  }

  /** It reads as the base, and the number in parentheses behind a space. */
  lemma CandidateReads(base: string, k: nat)
    ensures var c, n := Candidate(base, k), |base|;
            && |c| > n + 3 && c[..n] == base && c[n..n + 2] == " (" && c[|c| - 1] == ')'
            && Value(c[n + 2..|c| - 1]) == k
  {
    var c := Candidate(base, k);
    DecimalIsNotation(k);
    assert c[|base| + 2..|c| - 1] == Decimal(k);
    assert c[|base|..|base| + 2] == " (";
  }

  lemma DigitsDiffer(a: nat, b: nat)
    requires a < 10 && b < 10 && "0123456789"[a] == "0123456789"[b]
    ensures a == b
  {
  }

  lemma {:induction false} DecimalIsInjective(m: nat, n: nat)
    requires Decimal(m) == Decimal(n)
    ensures m == n
  {
    var d := Decimal(m);
    DecimalIsNotEmpty(m / 10);
    DecimalIsNotEmpty(n / 10);
    assert d[|d|-1] == "0123456789"[m % 10] == "0123456789"[n % 10];
    DigitsDiffer(m % 10, n % 10);
    if m >= 10 && n >= 10 {
      assert Decimal(m / 10) == d[..|d|-1] == Decimal(n / 10);
      DecimalIsInjective(m / 10, n / 10);
    }
  }

  lemma DecimalIsNotEmpty(n: nat)
    ensures |Decimal(n)| >= 1
  {
  }

  lemma CandidatesDiffer(base: string, j: nat, k: nat)
    requires Candidate(base, j) == Candidate(base, k)
    ensures j == k
  {
    var c := Candidate(base, j);
    assert c[|base| + 2..|c| - 1] == Decimal(j);
    assert c[|base| + 2..|c| - 1] == Decimal(k);
    DecimalIsInjective(j, k);
  }

  function Candidates(base: string, n: nat): set<string> {
    set k | 2 <= k < n :: Candidate(base, k)
  }

  lemma {:induction false} CandidatesAreMany(base: string, n: nat)
    requires n >= 2
    ensures |Candidates(base, n)| == n - 2
  {
    if n > 2 {
      CandidatesAreMany(base, n - 1);
      if Candidate(base, n - 1) in Candidates(base, n - 1) {
        var k :| 2 <= k < n - 1 && Candidate(base, k) == Candidate(base, n - 1);
        CandidatesDiffer(base, k, n - 1);
      }
      assert Candidates(base, n) == Candidates(base, n - 1) + {Candidate(base, n - 1)};
    } else {
      assert Candidates(base, n) == {};
    }
  }
}
