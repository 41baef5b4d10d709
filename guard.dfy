/** The read-only guard of the raw-query tool: the regular expression
    /^\s*SELECT/i applied to the query text, stated over UTF-16 code units
    as an ECMAScript regular expression sees them.
 */
module ReadOnlyGuard {

  /** One UTF-16 code unit, the element of an ECMAScript string. */
  newtype CodeUnit = x: int | 0 <= x < 0x1_0000

  /** ECMAScript string text at the code-unit level. */
  type Units = seq<CodeUnit>

  /** The units of the keyword as the pattern spells it: S E L E C T. */
  const Keyword: Units := [0x53, 0x45, 0x4C, 0x45, 0x43, 0x54]

  /** The class \s: WhiteSpace together with LineTerminator, as ECMAScript
      (2022 and later) defines them: TAB, LF, VT, FF, CR, SPACE, NBSP,
      the Zs separators U+1680, U+2000..U+200A, U+202F, U+205F, U+3000,
      LS, PS and the byte-order mark U+FEFF. */
  predicate IsSpace(c: CodeUnit)
  {
    (0x09 <= c <= 0x0D) || c == 0x20 || c == 0xA0 || c == 0x1680 ||
    (0x2000 <= c <= 0x200A) || c == 0x2028 || c == 0x2029 || c == 0x202F ||
    c == 0x205F || c == 0x3000 || c == 0xFEFF
  }

  /** The ignoreCase Canonicalize of a non-Unicode regular expression,
      restricted to what can matter against an ASCII pattern: an ASCII
      lower-case letter becomes its upper-case form, other ASCII units stay,
      and a non-ASCII unit is never mapped into ASCII. */
  function Canonicalize(c: CodeUnit): (r: CodeUnit)
    ensures c < 0x80 <==> r < 0x80
    ensures r != c ==> 0x61 <= c <= 0x7A && r == c - 0x20
    ensures 0x61 <= c <= 0x7A ==> r == c - 0x20
  {
    if 0x61 <= c <= 0x7A then c - 0x20 else c
  }

  /** Two units match under the case-insensitive flag. */
  predicate UnitsMatch(c: CodeUnit, p: CodeUnit)
  {
    Canonicalize(c) == Canonicalize(p)
  }

  /** The keyword occurs at position k under case-insensitive matching;
      nothing is required of what follows it (no word boundary). */
  predicate KeywordAt(q: Units, k: nat)
  {
    k + 6 <= |q| &&
    UnitsMatch(q[k], Keyword[0]) && UnitsMatch(q[k + 1], Keyword[1]) &&
    UnitsMatch(q[k + 2], Keyword[2]) && UnitsMatch(q[k + 3], Keyword[3]) &&
    UnitsMatch(q[k + 4], Keyword[4]) && UnitsMatch(q[k + 5], Keyword[5])
  }

  /** Where the run of \s units that starts at position i ends: the greedy
      \s* step of the matcher. */
  function SkipSpaces(q: Units, i: nat): (n: nat)
    requires i <= |q|
    ensures i <= n <= |q|
    ensures forall j | i <= j < n :: IsSpace(q[j])
    ensures n < |q| ==> !IsSpace(q[n])
    decreases |q| - i
  {
    if i < |q| && IsSpace(q[i]) then SkipSpaces(q, i + 1) else i
  }

  /** The guard /^\s*SELECT/i: skip the leading \s run, then the keyword
      must follow. */
  predicate IsReadOnly(q: Units)
  {
    KeywordAt(q, SkipSpaces(q, 0))
  }

  /** Reference semantics of /^\s*SELECT/i as a backtracking matcher sees it:
      some split of the text into a run of \s units followed by the keyword. */
  ghost predicate RegexMatches(q: Units)
  {
    exists k | 0 <= k <= |q| :: (forall i | 0 <= i < k :: IsSpace(q[i])) && KeywordAt(q, k)
  }

  /** The keyword in upper or lower case, unit by unit. */
  ghost predicate EqualsUpToAsciiCase(s: Units, t: Units)
  {
    |s| == |t| && forall j | 0 <= j < |s| :: s[j] == t[j] || s[j] as int == t[j] as int + 0x20
  }

  /** A unit matches an upper-case ASCII letter of the pattern exactly when
      it is that letter in upper or lower case. */
  lemma MatchesLetterIff(c: CodeUnit, p: CodeUnit)
    requires 0x41 <= p <= 0x5A
    ensures UnitsMatch(c, p) <==> c == p || c as int == p as int + 0x20
  {
  }

  /** No \s unit can match the first letter of the keyword. */
  lemma SpaceNeverMatchesKeyword(c: CodeUnit)
    ensures IsSpace(c) ==> !UnitsMatch(c, Keyword[0])
  {
  }

  /** The end of a \s run is the only position with spaces before it and a
      non-space (or the end of the text) at it. */
  lemma SkipSpacesUnique(q: Units, i: nat, k: nat)
    requires i <= k <= |q| && forall j | i <= j < k :: IsSpace(q[j])
    requires k < |q| ==> !IsSpace(q[k])
    ensures SkipSpaces(q, i) == k
  {
  }

  /** The keyword test at position k, restated as "the six units there spell
      SELECT up to ASCII case". */
  lemma KeywordAtIff(q: Units, k: nat)
    ensures KeywordAt(q, k) ==> k + 6 <= |q| && EqualsUpToAsciiCase(q[k..k + 6], Keyword)
    ensures k + 6 <= |q| && EqualsUpToAsciiCase(q[k..k + 6], Keyword) ==> KeywordAt(q, k)
  {
    if k + 6 <= |q| {
      var w := q[k..k + 6];
      forall j | 0 <= j < 6
        ensures UnitsMatch(q[k + j], Keyword[j]) <==> w[j] == Keyword[j] || w[j] as int == Keyword[j] as int + 0x20
      {
        MatchesLetterIff(q[k + j], Keyword[j]);
      }
    }
  }

  /** The guard accepts exactly when, after the maximal leading \s run, the
      next six units spell SELECT up to ASCII case. */
  lemma AcceptIff(q: Units)
    ensures IsReadOnly(q) ==>
            SkipSpaces(q, 0) + 6 <= |q| &&
            EqualsUpToAsciiCase(q[SkipSpaces(q, 0)..SkipSpaces(q, 0) + 6], Keyword)
    ensures SkipSpaces(q, 0) + 6 <= |q| &&
            EqualsUpToAsciiCase(q[SkipSpaces(q, 0)..SkipSpaces(q, 0) + 6], Keyword) ==>
            IsReadOnly(q)
  {
    KeywordAtIff(q, SkipSpaces(q, 0));
  }

  /** The greedy skip agrees with the backtracking reading of the regular
      expression: the guard accepts exactly the texts the pattern matches. */
  lemma IsReadOnlyIffRegexMatches(q: Units)
    ensures IsReadOnly(q) ==> RegexMatches(q)
    ensures RegexMatches(q) ==> IsReadOnly(q)
  {
    var n := SkipSpaces(q, 0);
    if IsReadOnly(q) {
      assert (forall i | 0 <= i < n :: IsSpace(q[i])) && KeywordAt(q, n);
    }
    if RegexMatches(q) {
      var k :| 0 <= k <= |q| && (forall i | 0 <= i < k :: IsSpace(q[i])) && KeywordAt(q, k);
      SpaceNeverMatchesKeyword(q[k]);
      SkipSpacesUnique(q, 0, k);
    }
  }

  /** Prepending any run of \s units never changes the verdict. */
  lemma LeadingSpaceIrrelevant(w: Units, q: Units)
    requires forall i | 0 <= i < |w| :: IsSpace(w[i])
    ensures IsReadOnly(w + q) ==> IsReadOnly(q)
    ensures IsReadOnly(q) ==> IsReadOnly(w + q)
  {
    var n := SkipSpaces(q, 0);
    var s := w + q;
    forall i | 0 <= i < |w| + n ensures IsSpace(s[i]) {
      if i >= |w| { assert s[i] == q[i - |w|]; }
    }
    if n < |q| { assert s[|w| + n] == q[n]; }
    SkipSpacesUnique(s, 0, |w| + n);
    if n + 6 <= |q| {
      assert forall j | n <= j < |q| :: q[j] == s[|w| + j];
    }
  }

  /** Once accepted, a text stays accepted whatever is appended to it:
      nothing after the keyword is inspected. */
  lemma AcceptedExtends(q: Units, s: Units)
    requires IsReadOnly(q)
    ensures IsReadOnly(q + s)
  {
    var n := SkipSpaces(q, 0);
    assert forall i | 0 <= i < n + 6 :: (q + s)[i] == q[i];
    SkipSpacesUnique(q + s, 0, n);
  }

  /** Only the units up to the sixth one after the leading \s run decide the verdict. */
  lemma OnlyPrefixMatters(q: Units)
    ensures var m := if SkipSpaces(q, 0) + 6 <= |q| then SkipSpaces(q, 0) + 6 else |q|;
            IsReadOnly(q) ==> IsReadOnly(q[..m])
    ensures var m := if SkipSpaces(q, 0) + 6 <= |q| then SkipSpaces(q, 0) + 6 else |q|;
            IsReadOnly(q[..m]) ==> IsReadOnly(q)
  {
    var n := SkipSpaces(q, 0);
    if n + 6 <= |q| {
      var p := q[..n + 6];
      assert forall i | 0 <= i < n + 6 :: p[i] == q[i];
      SkipSpacesUnique(p, 0, n);
    } else {
      assert q[..|q|] == q;
    }
  }

  /** The keyword in any ASCII case followed by anything at all is accepted:
      no word boundary or statement end is required. */
  lemma KeywordThenAnything(k: Units, s: Units)
    requires EqualsUpToAsciiCase(k, Keyword)
    ensures IsReadOnly(k + s)
  {
    var q := k + s;
    assert q[..6] == k;
    KeywordAtIff(q, 0);
    SpaceNeverMatchesKeyword(q[0]);
    SkipSpacesUnique(q, 0, 0);
  }

  /** The text is rejected when the first unit after the leading \s run
      is missing or is not S or s. */
  lemma RejectedUnlessFirstIsS(q: Units)
    requires SkipSpaces(q, 0) == |q| || !UnitsMatch(q[SkipSpaces(q, 0)], Keyword[0])
    ensures !IsReadOnly(q)
  {
  }

  /** No non-ASCII unit matches a letter of the keyword; in particular
      U+017F LATIN SMALL LETTER LONG S does not match S. */
  lemma NonAsciiNeverMatches(c: CodeUnit, j: nat)
    requires c >= 0x80 && j < |Keyword|
    ensures !UnitsMatch(c, Keyword[j])
  {
  }

  /** The code units of text from the Basic Multilingual Plane, where each
      character is one unit (a helper for writing examples; a character
      beyond that plane, which would take two units, becomes U+FFFD). */
  function Ascii(s: string): Units
  {
    seq(|s|, i requires 0 <= i < |s| => if s[i] as int < 0x1_0000 then s[i] as int as CodeUnit else 0xFFFD)
  }

  /** The guard needs no word boundary: the keyword glued to more letters,
      or followed by a second statement, is accepted. */
  lemma AcceptedExamples()
    ensures IsReadOnly(Ascii("SELECTX"))
    ensures IsReadOnly(Ascii("selectfoo"))
    ensures IsReadOnly(Ascii("select") + Ascii(" 1; drop table t"))
  {
    assert IsReadOnly(Ascii("SELECTX")) by {
      SkipSpacesUnique(Ascii("SELECTX"), 0, 0);
    }
    assert IsReadOnly(Ascii("selectfoo")) by {
      SkipSpacesUnique(Ascii("selectfoo"), 0, 0);
    }
    assert IsReadOnly(Ascii("select")) by {
      SkipSpacesUnique(Ascii("select"), 0, 0);
    }
    AcceptedExtends(Ascii("select"), Ascii(" 1; drop table t"));
  }

  /** Texts the guard turns away: empty, blank, and texts whose first
      non-blank unit is a semicolon, a comment, another keyword or a
      non-ASCII look-alike of S. */
  lemma RejectedExamples()
    ensures !IsReadOnly([])
    ensures !IsReadOnly(Ascii(" \t\r\n "))
    ensures !IsReadOnly(Ascii("; SELECT 1"))
    ensures !IsReadOnly(Ascii("-- c\nSELECT 1"))
    ensures !IsReadOnly(Ascii("WITH x AS (SELECT 1) SELECT * FROM x"))
    ensures !IsReadOnly([0x17F] + Ascii("ELECT 1"))
  {
    SkipSpacesUnique(Ascii(" \t\r\n "), 0, 5);
    SkipSpacesUnique(Ascii("; SELECT 1"), 0, 0);
    SkipSpacesUnique(Ascii("-- c\nSELECT 1"), 0, 0);
    SkipSpacesUnique(Ascii("WITH x AS (SELECT 1) SELECT * FROM x"), 0, 0);
    SkipSpacesUnique([0x17F] + Ascii("ELECT 1"), 0, 0);
  }
}
