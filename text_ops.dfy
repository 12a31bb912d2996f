/**
 * The Kotlin string operations the editor uses, on `string` = `seq<char>`:
 * `lastIndexOf`/`indexOf` of a character from an index, `trim`, `startsWith`, `toInt`
 * of a digit run, decimal formatting of a number, and the regular expression `^\d+\. `
 * as an explicit prefix parser (`\d` is the ASCII digits 0-9).
 */
module TextOps {
  import opened Wrappers

  /** Kotlin's `Char.isWhitespace`: Java whitespace plus the Unicode space separators. */
  predicate IsWhitespace(c: char) {
    c in {'\t', '\n', '\U{000B}', '\U{000C}', '\r', '\U{001C}', '\U{001D}', '\U{001E}', '\U{001F}',
          ' ', '\U{00A0}', '\U{1680}', '\U{2028}', '\U{2029}', '\U{202F}', '\U{205F}', '\U{3000}'}
    || ('\U{2000}' <= c <= '\U{200A}')
  }

  predicate AllWhitespace(s: string) {
    forall i :: 0 <= i < |s| ==> IsWhitespace(s[i])
  }

  function TrimStart(s: string): (r: string)
    ensures |r| <= |s| && r == s[|s| - |r|..]
  {
    if |s| > 0 && IsWhitespace(s[0]) then TrimStart(s[1..]) else s
  }

  function TrimEnd(s: string): (r: string)
    ensures |r| <= |s| && r == s[..|r|]
  {
    if |s| > 0 && IsWhitespace(s[|s| - 1]) then TrimEnd(s[..|s| - 1]) else s
  }

  /** `String.trim()`: drops leading, then trailing whitespace. */
  function Trim(s: string): string {
    TrimEnd(TrimStart(s))
  }

  predicate StartsWith(s: string, prefix: string) {
    |prefix| <= |s| && s[..|prefix|] == prefix
  }

  predicate IsDigit(c: char) { '0' <= c <= '9' }

  predicate AllDigits(s: string) {
    forall i :: 0 <= i < |s| ==> IsDigit(s[i])
  }

  function DigitChar(d: int): (c: char)
    requires 0 <= d < 10
    ensures IsDigit(c) && DigitValue(c) == d
  {
    ('0' as int + d) as char
  }

  function DigitValue(c: char): int
    requires IsDigit(c)
  {
    c as int - '0' as int
  }

  /** `"$n"` for a non-negative number: its decimal digits, most significant first. */
  function Decimal(n: nat): (r: string)
    ensures |r| >= 1 && AllDigits(r)
    decreases n
  {
    if n < 10 then [DigitChar(n)] else Decimal(n / 10) + [DigitChar(n % 10)]
  }

  /** `toInt()` of a run of ASCII digits (leading zeros allowed). */
  function ParseDigits(s: string): nat
    requires AllDigits(s)
  {
    if s == [] then 0 else ParseDigits(s[..|s| - 1]) * 10 + DigitValue(s[|s| - 1])
  }

  /** Formatting a number and parsing it back gives the number. */
  lemma {:induction false} DecimalRoundTrip(n: nat)
    ensures ParseDigits(Decimal(n)) == n
    decreases n
  {
    if n >= 10 {
      var d := Decimal(n);
      assert d[..|d| - 1] == Decimal(n / 10);
      DecimalRoundTrip(n / 10);
    }
  }

  /** A decimal holds only digits: no line break, no bullet, no blank. */
  lemma DecimalHasNoBreak(n: nat)
    ensures '\n' !in Decimal(n) && '\U{2022}' !in Decimal(n)
    ensures IsDigit(Decimal(n)[0]) && !IsWhitespace(Decimal(n)[0])
  {
    var d := Decimal(n);
    assert forall j :: 0 <= j < |d| ==> d[j] != '\n' && d[j] != '\U{2022}' by {
      forall j | 0 <= j < |d| ensures d[j] != '\n' && d[j] != '\U{2022}' {
        assert IsDigit(d[j]);
      }
    }
    assert IsDigit(d[0]);
  }

  /** The length of the run of digits at the start of `s`. */
  function LeadingDigits(s: string): (r: nat)
    ensures r <= |s| && AllDigits(s[..r])
    ensures r < |s| ==> !IsDigit(s[r])
  {
    if |s| > 0 && IsDigit(s[0]) then
      var r := 1 + LeadingDigits(s[1..]);
      assert s[..r] == [s[0]] + s[1..][..r - 1];
      r
    else 0
  }

  /**
   * The regular expression `^(\d+)\. ` on `line`: the length of the digit group when it
   * matches. The greedy `\d+` cannot backtrack into a match, since a shorter run is
   * followed by a digit, not by '.'.
   */
  function NumberMarker(line: string): (r: Option<nat>)
    ensures r.Some? ==>
      (1 <= r.value && r.value + 2 <= |line| && AllDigits(line[..r.value])
       && line[r.value] == '.' && line[r.value + 1] == ' ')
    ensures r.Some? ==> r.value == LeadingDigits(line)
    ensures r.None? ==> forall d :: 1 <= d && d + 2 <= |line| && AllDigits(line[..d]) ==>
      !(line[d] == '.' && line[d + 1] == ' ')
  {
    DigitRunEndsAtMarker(line);
    var d := LeadingDigits(line);
    if d >= 1 && d + 2 <= |line| && line[d] == '.' && line[d + 1] == ' ' then Some(d) else None
  }

  /** A run of digits followed by a non-digit is the whole leading digit run. */
  lemma DigitRunEndsAtMarker(line: string)
    ensures forall d :: 0 <= d < |line| && AllDigits(line[..d]) && !IsDigit(line[d]) ==>
      LeadingDigits(line) == d
  {
    forall d | 0 <= d < |line| && AllDigits(line[..d]) && !IsDigit(line[d])
      ensures LeadingDigits(line) == d
    {
      assert line == line[..d] + line[d..];
      LeadingDigitsOf(line[..d], line[d..]);
    }
  }

  /** `m` is a whole match of `^\d+\. `: one or more digits, then '.' and ' '. */
  predicate NumberMarkerText(m: string) {
    |m| >= 3 && AllDigits(m[..|m| - 2]) && m[|m| - 2] == '.' && m[|m| - 1] == ' '
  }

  /**
   * `line.replace(Regex("^\\d+\\. "), "")`: the anchored pattern matches at most once, so
   * the result is `line` with the matched marker, if any, dropped from its front.
   */
  function StripNumberMarker(line: string): (r: string)
    ensures |r| <= |line| && r == line[|line| - |r|..]
    ensures r == line <==> NumberMarker(line).None?
    ensures r != line ==> NumberMarkerText(line[..|line| - |r|])
    ensures NumberMarker(line).Some? ==> |line| - |r| == NumberMarker(line).value + 2
  {
    match NumberMarker(line)
    case Some(d) =>
      assert line[..d + 2][..d] == line[..d];
      line[d + 2..]
    case None => line
  }

  lemma {:induction false} LeadingDigitsOf(ds: string, rest: string)
    requires AllDigits(ds)
    requires rest == [] || !IsDigit(rest[0])
    ensures LeadingDigits(ds + rest) == |ds|
  {
    if ds != [] {
      assert (ds + rest)[1..] == ds[1..] + rest;
      LeadingDigitsOf(ds[1..], rest);
    } else {
      assert ds + rest == rest;
    }
  }

  /** A numbered marker `"{n}. "` is recognised, and its number read back, at a line's start. */
  lemma NumberMarkerOf(n: nat, rest: string)
    ensures NumberMarker(Decimal(n) + ". " + rest) == Some(|Decimal(n)|)
    ensures (Decimal(n) + ". " + rest)[..|Decimal(n)|] == Decimal(n)
    ensures ParseDigits((Decimal(n) + ". " + rest)[..|Decimal(n)|]) == n
  {
    var line := Decimal(n) + ". " + rest;
    assert line == Decimal(n) + (". " + rest);
    LeadingDigitsOf(Decimal(n), ". " + rest);
    DecimalRoundTrip(n);
  }

  /**
   * `s.lastIndexOf(c, from)`: the last index at or before `from` holding `c`, or -1;
   * a negative `from` finds nothing and one past the end searches the whole string.
   */
  function LastIndexOf(s: string, c: char, from: int): (r: int)
    ensures -1 <= r < |s| && (r == -1 || r <= from)
    ensures r >= 0 ==> s[r] == c
    ensures forall j :: r < j <= from && 0 <= j < |s| ==> s[j] != c
    decreases if from < |s| then from + 1 else |s| + 1
  {
    if from < 0 then -1
    else if from >= |s| then LastIndexOf(s, c, |s| - 1)
    else if s[from] == c then from
    else LastIndexOf(s, c, from - 1)
  }

  /**
   * `s.indexOf(c, from)`: the first index at or after `from` holding `c`, or -1;
   * a negative `from` searches from 0.
   */
  function IndexOf(s: string, c: char, from: int): (r: int)
    ensures r == -1 || (0 <= from <= r < |s| && s[r] == c) || (from < 0 && 0 <= r < |s| && s[r] == c)
    ensures forall j :: from <= j < |s| && 0 <= j && (r == -1 || j < r) ==> s[j] != c
    decreases |s| - from
  {
    if from < 0 then IndexOf(s, c, 0)
    else if from >= |s| then -1
    else if s[from] == c then from
    else IndexOf(s, c, from + 1)
  }

  lemma {:induction false} TrimEndWhitespace(x: string, w: string)
    requires AllWhitespace(w)
    ensures TrimEnd(x + w) == TrimEnd(x)
    decreases |w|
  {
    if w != [] {
      assert (x + w)[..|x + w| - 1] == x + w[..|w| - 1];
      TrimEndWhitespace(x, w[..|w| - 1]);
    } else {
      assert x + w == x;
    }
  }

  lemma {:induction false} TrimEndKeeps(s: string, j: int)
    requires 0 <= j < |s| && !IsWhitespace(s[j])
    ensures |TrimEnd(s)| > j
    decreases |s|
  {
    if |s| > 0 && IsWhitespace(s[|s| - 1]) {
      TrimEndKeeps(s[..|s| - 1], j);
    }
  }

  lemma {:induction false} TrimStartWhitespace(w: string, x: string)
    requires AllWhitespace(w)
    requires x != [] && !IsWhitespace(x[0])
    ensures TrimStart(w + x) == x
    decreases |w|
  {
    if w != [] {
      assert (w + x)[1..] == w[1..] + x;
      TrimStartWhitespace(w[1..], x);
    } else {
      assert w + x == x;
    }
  }
}
