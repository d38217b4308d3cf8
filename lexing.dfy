/** Hand-written matchers for the regular expressions of the two token tables.
    Each matcher looks at the rest of the input (the text from the current
    position on) and returns the length of the text its pattern matches at the
    front, or 0 when the pattern does not match. None of the patterns can match
    the empty string, so 0 is never a real match. */
module Lexing {

  datatype Option<T> = None | Some(value: T)

  // Character classes. `\d` and `\w` are taken in their ASCII sense.
  predicate IsDigit(c: char) { '0' <= c <= '9' }
  predicate IsLetter(c: char) { 'a' <= c <= 'z' || 'A' <= c <= 'Z' }
  predicate IsWordChar(c: char) { IsLetter(c) || IsDigit(c) || c == '_' }
  predicate IsBlank(c: char) { c == ' ' || c == '\t' }

  /** Length of the longest prefix of `s` made of digits (`\d*`). */
  function DigitRun(s: string): (n: nat)
    ensures n <= |s|
    ensures forall i :: 0 <= i < n ==> IsDigit(s[i])
    ensures n < |s| ==> !IsDigit(s[n])
  {
    if s != [] && IsDigit(s[0]) then 1 + DigitRun(s[1..]) else 0
  }

  /** Length of the longest prefix of `s` made of word characters (`\w*`). */
  function WordRun(s: string): (n: nat)
    ensures n <= |s|
    ensures forall i :: 0 <= i < n ==> IsWordChar(s[i])
    ensures n < |s| ==> !IsWordChar(s[n])
  {
    if s != [] && IsWordChar(s[0]) then 1 + WordRun(s[1..]) else 0
  }

  /** Length of the longest prefix of `s` made of blanks (`[ \t]*`). */
  function BlankRun(s: string): (n: nat)
    ensures n <= |s|
    ensures forall i :: 0 <= i < n ==> IsBlank(s[i])
    ensures n < |s| ==> !IsBlank(s[n])
  {
    if s != [] && IsBlank(s[0]) then 1 + BlankRun(s[1..]) else 0
  }

  /** Length of the longest prefix of `s` without a `>` (`[^>]*`). */
  function NotGtRun(s: string): (n: nat)
    ensures n <= |s|
    ensures forall i :: 0 <= i < n ==> s[i] != '>'
    ensures n < |s| ==> s[n] == '>'
  {
    if s != [] && s[0] != '>' then 1 + NotGtRun(s[1..]) else 0
  }

  /** A fixed text such as `<\$>` or `:`. */
  function MatchLiteral(s: string, lit: string): (n: nat)
    ensures n > 0 <==> lit != [] && lit <= s
    ensures n > 0 ==> n == |lit| && s[..n] == lit
  {
    if lit <= s then |lit| else 0
  }

  /** A keyword followed by a word boundary (`print\b`, `const\b`): the
      keyword must not run on into more word characters. */
  function MatchKeyword(s: string, kw: string): (n: nat)
    requires kw != [] && IsWordChar(kw[|kw| - 1])
    ensures n > 0 <==> kw <= s && (|s| == |kw| || !IsWordChar(s[|kw|]))
    ensures n > 0 ==> n == |kw| && s[..n] == kw
  {
    if kw <= s && (|s| == |kw| || !IsWordChar(s[|kw|])) then |kw| else 0
  }

  /** `\d+(\.\d+)?`: digits, then a fraction when a dot and at least one
      digit follow (the optional group is taken whenever it matches). */
  function MatchDecimal(s: string): (n: nat)
    ensures n <= |s|
    ensures n > 0 <==> s != [] && IsDigit(s[0])
    ensures DigitRun(s) <= n
    ensures forall i :: 0 <= i < n && i != DigitRun(s) ==> IsDigit(s[i])
    ensures n > DigitRun(s) ==> s[DigitRun(s)] == '.' && n > DigitRun(s) + 1
    ensures n < |s| ==> !IsDigit(s[n])
    ensures n > 0 && n == DigitRun(s) && n + 1 < |s| && s[n] == '.' ==> !IsDigit(s[n + 1])
  {
    var d := DigitRun(s);
    if d == 0 then 0
    else if d < |s| && s[d] == '.' && DigitRun(s[d + 1..]) > 0 then d + 1 + DigitRun(s[d + 1..])
    else d
  }

  /** `\d+`. */
  function MatchDigits(s: string): (n: nat)
    ensures n <= |s|
    ensures n > 0 <==> s != [] && IsDigit(s[0])
    ensures forall i :: 0 <= i < n ==> IsDigit(s[i])
    ensures n < |s| ==> !IsDigit(s[n])
  {
    DigitRun(s)
  }

  /** `<<[^>]*>>`. The run of non-`>` characters is maximal, so the pattern
      matches exactly when that run is followed by `>>`. */
  function MatchString(s: string): (n: nat)
    ensures n <= |s|
    ensures n > 0 ==> n >= 4 && s[..2] == "<<" && s[n - 2..n] == ">>"
    ensures n > 0 ==> forall i :: 2 <= i < n - 2 ==> s[i] != '>'
  {
    if |s| >= 2 && s[0] == '<' && s[1] == '<' then
      var k := NotGtRun(s[2..]);
      if 2 + k + 1 < |s| && s[2 + k] == '>' && s[2 + k + 1] == '>' then k + 4 else 0
    else 0
  }

  /** The other direction: a `<<`, a run without `>`, then `>>` is matched,
      with exactly that length. */
  lemma StringLiteralMatched(s: string, m: nat)
    requires 4 <= m <= |s| && s[..2] == "<<" && s[m - 2..m] == ">>"
    requires forall i :: 2 <= i < m - 2 ==> s[i] != '>'
    ensures MatchString(s) == m
  {
    assert s[m - 2] == '>' && s[m - 1] == '>';
  }

  /** `\*\*|//|\+|\-|\*|/|%|\(|\)`, alternatives tried left to right, so that
      `**` and `//` win over `*` and `/`. */
  function MatchOperator(s: string): (n: nat)
    ensures n <= 2 && n <= |s|
    ensures n > 0 <==> s != [] && s[0] in "+-*/%()"
    ensures n == 2 <==> |s| >= 2 && (s[..2] == "**" || s[..2] == "//")
  {
    if |s| >= 2 && (s[..2] == "**" || s[..2] == "//") then 2
    else if s != [] && s[0] in "+-*/%()" then 1
    else 0
  }

  /** `[a-zA-Z_]\w*`. */
  function MatchIdent(s: string): (n: nat)
    ensures n <= |s|
    ensures n > 0 <==> s != [] && (IsLetter(s[0]) || s[0] == '_')
    ensures forall i :: 0 <= i < n ==> IsWordChar(s[i])
    ensures n > 0 && n < |s| ==> !IsWordChar(s[n])
  {
    if s != [] && (IsLetter(s[0]) || s[0] == '_') then 1 + WordRun(s[1..]) else 0
  }

  /** `\n`. */
  function MatchNewline(s: string): (n: nat)
    ensures n > 0 <==> s != [] && s[0] == '\n'
    ensures n > 0 ==> n == 1
  {
    if s != [] && s[0] == '\n' then 1 else 0
  }

  /** `[ \t]+`. */
  function MatchBlanks(s: string): (n: nat)
    ensures n <= |s|
    ensures n > 0 <==> s != [] && IsBlank(s[0])
    ensures forall i :: 0 <= i < n ==> IsBlank(s[i])
    ensures n < |s| ==> !IsBlank(s[n])
  {
    BlankRun(s)
  }

  /** `.`: any one character except a newline. */
  function MatchAny(s: string): (n: nat)
    ensures n > 0 <==> s != [] && s[0] != '\n'
    ensures n > 0 ==> n == 1
  {
    if s != [] && s[0] != '\n' then 1 else 0
  }

  // Text utilities shared by both lexers.

  /** `pat` occurs in `s` starting at index `i`. */
  predicate OccursAt(s: string, pat: string, i: nat)
  {
    i + |pat| <= |s| && s[i..i + |pat|] == pat
  }

  lemma OccursShift(s: string, pat: string)
    requires s != []
    ensures OccursAt(s, pat, 0) <==> pat <= s
    ensures forall i: nat :: i > 0 ==> (OccursAt(s, pat, i) <==> OccursAt(s[1..], pat, i - 1))
  {
    forall i: nat | i > 0 ensures OccursAt(s, pat, i) <==> OccursAt(s[1..], pat, i - 1) {
      if i + |pat| <= |s| {
        assert s[1..][i - 1..] == s[i..];
        assert s[1..][i - 1..i - 1 + |pat|] == s[1..][i - 1..][..|pat|];
        assert s[i..i + |pat|] == s[i..][..|pat|];
      }
    }
  }

  /** Index of the first occurrence of `pat` in `s`, as Python's `str.find`. */
  function Find(s: string, pat: string): (r: Option<nat>)
    ensures r.Some? ==> OccursAt(s, pat, r.value)
    ensures r.Some? ==> forall i: nat :: i < r.value ==> !OccursAt(s, pat, i)
    ensures r.None? ==> forall i: nat :: !OccursAt(s, pat, i)
  {
    if pat <= s then Some(0)
    else if |s| <= |pat| then None
    else
      OccursShift(s, pat);
      match Find(s[1..], pat)
      case None => None
      case Some(i) => Some(i + 1)
  }

  /** Python's `pat in s`. */
  predicate Contains(s: string, pat: string) { Find(s, pat).Some? }

  /** Number of newline characters in `s`. */
  function CountNewlines(s: string): (n: nat)
    ensures n <= |s|
    ensures n == 0 <==> forall i :: 0 <= i < |s| ==> s[i] != '\n'
  {
    if s == [] then 0 else (if s[0] == '\n' then 1 else 0) + CountNewlines(s[1..])
  }

  /** Python's `s[2:-2]`, which is empty when `s` has fewer than four characters. */
  function StripDelimiters(s: string): (r: string)
    ensures |s| >= 4 ==> s == s[..2] + r + s[|s| - 2..]
    ensures |s| < 4 ==> r == []
  {
    if |s| >= 4 then s[2..|s| - 2] else []
  }

  /** The value of a string of decimal digits. */
  function DigitsValue(s: string): (v: nat)
    ensures (forall i :: 0 <= i < |s| ==> s[i] == '0') ==> v == 0
  {
    if s == [] then 0
    else DigitsValue(s[..|s| - 1]) * 10 + (if IsDigit(s[|s| - 1]) then (s[|s| - 1] as int - '0' as int) else 0)
  }

  function Pow10(k: nat): (p: nat)
    ensures p >= 1
  {
    if k == 0 then 1 else 10 * Pow10(k - 1)
  }

  /** The exact value of a lexeme `\d+(\.\d+)?`, reading `ddd.fff` as
      ddd + fff / 10^|fff|. */
  function DecimalValue(s: string): (x: real)
    ensures x >= 0.0
  {
    match Find(s, ".")
    case None => DigitsValue(s) as real
    case Some(i) =>
      DigitsValue(s[..i]) as real + DigitsValue(s[i + 1..]) as real / Pow10(|s| - i - 1) as real
  }
}
