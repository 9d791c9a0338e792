/**
  The Python string built-ins that the pipeline's scripts rely on, stated over
  `string` (a `seq<char>`): whitespace splitting and stripping, splitting on
  one character, joining, ASCII lower-casing, decimal digits and the regex
  word class. Each definition follows the CPython behaviour the scripts use.
 */
module Text {

  // ---------------------------------------------------------------------------
  // Character classes
  // ---------------------------------------------------------------------------

  /** `c.isspace()`: the characters that `str.split()` and `str.strip()` treat as whitespace. */
  predicate IsSpace(c: char) {
    || ('\t' <= c <= '\r')
    || ('\U{1C}' <= c <= '\U{1F}')
    || c == ' ' || c == '\U{85}' || c == '\U{A0}' || c == '\U{1680}'
    || ('\U{2000}' <= c <= '\U{200A}')
    || c == '\U{2028}' || c == '\U{2029}' || c == '\U{202F}' || c == '\U{205F}' || c == '\U{3000}'
  }

  /** The complement of IsSpace: the characters that make up a token of `str.split()`. */
  predicate NotSpace(c: char) {
    !IsSpace(c)
  }

  /** An ASCII decimal digit. */
  predicate IsDigit(c: char) {
    '0' <= c <= '9'
  }

  /** The regex class `\w` restricted to ASCII: letters, digits and the underscore. */
  predicate IsWordChar(c: char) {
    ('a' <= c <= 'z') || ('A' <= c <= 'Z') || IsDigit(c) || c == '_'
  }

  /**
    Membership in Python's `string.punctuation`, the 32 ASCII punctuation
    characters: `!` to `/`, `:` to `@`, `[` to the backquote, `{` to `~`.
   */
  predicate IsPunct(c: char) {
    ('!' <= c <= '/') || (':' <= c <= '@') || ('[' <= c <= '`') || ('{' <= c <= '~')
  }

  // ---------------------------------------------------------------------------
  // Lower-casing
  // ---------------------------------------------------------------------------

  function LowerChar(c: char): char {
    if 'A' <= c <= 'Z' then (c as int + 32) as char else c
  }

  /** `s.lower()` on ASCII letters; every other character is kept. */
  function Lower(s: string): (r: string)
    ensures |r| == |s|
    ensures forall i :: 0 <= i < |s| ==> r[i] == LowerChar(s[i])
  {
    seq(|s|, i requires 0 <= i < |s| => LowerChar(s[i]))
  }

  /** Lower-casing, applied to each string of a list. */
  function LowerAll(ws: seq<string>): (r: seq<string>)
    ensures |r| == |ws|
    ensures forall i :: 0 <= i < |ws| ==> r[i] == Lower(ws[i])
  {
    seq(|ws|, i requires 0 <= i < |ws| => Lower(ws[i]))
  }

  lemma LowerAppend(a: string, b: string)
    ensures Lower(a + b) == Lower(a) + Lower(b)
  {
    assert forall i :: 0 <= i < |a + b| ==> Lower(a + b)[i] == (Lower(a) + Lower(b))[i];
  }

  /** A string without upper-case ASCII letters is its own lower case. */
  lemma LowerKeeps(s: string)
    requires forall j :: 0 <= j < |s| ==> !('A' <= s[j] <= 'Z')
    ensures Lower(s) == s
  {
    assert forall j :: 0 <= j < |s| ==> Lower(s)[j] == s[j];
  }

  // ---------------------------------------------------------------------------
  // Maximal runs: `str.split()` and `re.findall(r'\b\w+\b', ...)`
  // ---------------------------------------------------------------------------

  /** The length of the longest prefix of `s` made of characters in the class. */
  function LeadingRun(s: string, inRun: char -> bool): (n: nat)
    ensures n <= |s|
    ensures forall i :: 0 <= i < n ==> inRun(s[i])
    ensures n < |s| ==> !inRun(s[n])
  {
    if s == [] || !inRun(s[0]) then 0 else 1 + LeadingRun(s[1..], inRun)
  }

  /**
    The maximal runs of characters in the class, left to right. With the class
    NotSpace this is `s.split()`; with IsWordChar it is `re.findall(r'\b\w+\b', s)`.
   */
  function Runs(s: string, inRun: char -> bool): seq<string>
    decreases |s|
  {
    if s == [] then []
    else if !inRun(s[0]) then Runs(s[1..], inRun)
    else
      var n := LeadingRun(s, inRun);
      [s[..n]] + Runs(s[n..], inRun)
  }

  /** `s.split()` with no argument: the maximal non-whitespace runs. */
  function Words(s: string): seq<string> {
    Runs(s, NotSpace)
  }

  /** Every run is non-empty and made of characters of the class. */
  lemma {:induction false} RunsShape(s: string, inRun: char -> bool)
    ensures forall k :: 0 <= k < |Runs(s, inRun)| ==>
      |Runs(s, inRun)[k]| > 0 && forall j :: 0 <= j < |Runs(s, inRun)[k]| ==> inRun(Runs(s, inRun)[k][j])
    decreases |s|
  {
    if s == [] {
    } else if !inRun(s[0]) {
      RunsShape(s[1..], inRun);
    } else {
      var n := LeadingRun(s, inRun);
      RunsShape(s[n..], inRun);
    }
  }

  lemma LeadingRunAppend(a: string, t: string, inRun: char -> bool)
    requires t == [] || !inRun(t[0])
    ensures LeadingRun(a + t, inRun) == LeadingRun(a, inRun)
    decreases |a|
  {
    if a != [] && inRun(a[0]) {
      assert (a + t)[1..] == a[1..] + t;
      LeadingRunAppend(a[1..], t, inRun);
    }
  }

  /** A non-empty string made only of class characters is one run. */
  lemma {:induction false} RunsOfRun(w: string, inRun: char -> bool)
    requires w != []
    requires forall j :: 0 <= j < |w| ==> inRun(w[j])
    ensures Runs(w, inRun) == [w]
  {
    var n := LeadingRun(w, inRun);
    assert n == |w|;
    assert w[..n] == w && w[n..] == [];
  }

  /** A string without class characters has no runs. */
  lemma {:induction false} RunsOfGap(s: string, inRun: char -> bool)
    requires forall j :: 0 <= j < |s| ==> !inRun(s[j])
    ensures Runs(s, inRun) == []
    decreases |s|
  {
    if s != [] {
      RunsOfGap(s[1..], inRun);
    }
  }

  /** A character outside the class separates runs: no run spans it. */
  lemma {:induction false} RunsSplitAt(a: string, c: char, b: string, inRun: char -> bool)
    requires !inRun(c)
    ensures Runs(a + [c] + b, inRun) == Runs(a, inRun) + Runs(b, inRun)
    decreases |a|
  {
    var s := a + [c] + b;
    if a == [] {
      assert s[1..] == b;
    } else if !inRun(a[0]) {
      assert s[1..] == a[1..] + [c] + b;
      RunsSplitAt(a[1..], c, b, inRun);
    } else {
      var n := LeadingRun(a, inRun);
      LeadingRunAppend(a, [c] + b, inRun);
      assert s == a + ([c] + b);
      assert s[..n] == a[..n];
      assert s[n..] == a[n..] + [c] + b;
      RunsSplitAt(a[n..], c, b, inRun);
    }
  }

  // ---------------------------------------------------------------------------
  // Joining
  // ---------------------------------------------------------------------------

  /** `sep.join(ws)`. */
  function Join(sep: string, ws: seq<string>): string
    decreases |ws|
  {
    if ws == [] then ""
    else if |ws| == 1 then ws[0]
    else ws[0] + sep + Join(sep, ws[1..])
  }

  /** Splitting a space-joined list of runs gives the list back. */
  lemma {:induction false} RunsOfJoin(ws: seq<string>, inRun: char -> bool)
    requires !inRun(' ')
    requires forall k :: 0 <= k < |ws| ==> ws[k] != []
    requires forall k, j :: 0 <= k < |ws| && 0 <= j < |ws[k]| ==> inRun(ws[k][j])
    ensures Runs(Join(" ", ws), inRun) == ws
    decreases |ws|
  {
    if |ws| == 0 {
    } else if |ws| == 1 {
      RunsOfRun(ws[0], inRun);
    } else {
      RunsOfJoin(ws[1..], inRun);
      RunsOfRun(ws[0], inRun);
      assert Join(" ", ws) == ws[0] + [' '] + Join(" ", ws[1..]);
      RunsSplitAt(ws[0], ' ', Join(" ", ws[1..]), inRun);
    }
  }

  /** A character of a space-joined list is a space or a character of one of the parts. */
  lemma {:induction false} InJoin(ws: seq<string>, c: char)
    ensures c in Join(" ", ws) <==> (c == ' ' && |ws| > 1) || exists k :: 0 <= k < |ws| && c in ws[k]
    decreases |ws|
  {
    if |ws| > 1 {
      InJoin(ws[1..], c);
      assert forall k :: 1 <= k < |ws| ==> ws[k] == ws[1..][k - 1];
    }
  }

  /** Lower-casing commutes with joining on a space. */
  lemma {:induction false} LowerJoin(ws: seq<string>)
    ensures Lower(Join(" ", ws)) == Join(" ", LowerAll(ws))
    decreases |ws|
  {
    if |ws| > 1 {
      LowerJoin(ws[1..]);
      assert LowerAll(ws)[1..] == LowerAll(ws[1..]);
      LowerAppend(ws[0] + " ", Join(" ", ws[1..]));
      LowerAppend(ws[0], " ");
    }
  }

  /** The space-joined list of the runs of a string, one run per space. */
  lemma {:induction false} RunsOfJoinedTexts(ws: seq<string>, inRun: char -> bool, w: string)
    requires !inRun(' ')
    ensures w in Runs(Join(" ", ws), inRun) <==> exists k :: 0 <= k < |ws| && w in Runs(ws[k], inRun)
    decreases |ws|
  {
    if |ws| > 1 {
      RunsOfJoinedTexts(ws[1..], inRun, w);
      assert Join(" ", ws) == ws[0] + [' '] + Join(" ", ws[1..]);
      RunsSplitAt(ws[0], ' ', Join(" ", ws[1..]), inRun);
      assert forall k :: 1 <= k < |ws| ==> ws[k] == ws[1..][k - 1];
    }
  }

  /** Every character of a run comes from the string it was cut from. */
  lemma {:induction false} RunsSubstrings(s: string, inRun: char -> bool, w: string)
    requires w in Runs(s, inRun)
    ensures forall j :: 0 <= j < |w| ==> w[j] in s
    decreases |s|
  {
    if s != [] {
      if !inRun(s[0]) {
        RunsSubstrings(s[1..], inRun, w);
      } else {
        var n := LeadingRun(s, inRun);
        if w != s[..n] {
          RunsSubstrings(s[n..], inRun, w);
        }
      }
    }
  }

  /** A space-joined list of non-empty parts neither starts nor ends with whitespace when no part does. */
  lemma {:induction false} JoinEnds(ws: seq<string>)
    requires forall k :: 0 <= k < |ws| ==> ws[k] != [] && !IsSpace(ws[k][0]) && !IsSpace(ws[k][|ws[k]| - 1])
    ensures Join(" ", ws) == [] <==> ws == []
    ensures Join(" ", ws) != [] ==> !IsSpace(Join(" ", ws)[0]) && !IsSpace(Join(" ", ws)[|Join(" ", ws)| - 1])
    decreases |ws|
  {
    if |ws| > 1 {
      JoinEnds(ws[1..]);
      var j := Join(" ", ws);
      assert j == ws[0] + " " + Join(" ", ws[1..]);
      assert j[0] == ws[0][0];
      assert j[|j| - 1] == Join(" ", ws[1..])[|Join(" ", ws[1..])| - 1];
    }
  }

  // ---------------------------------------------------------------------------
  // Stripping
  // ---------------------------------------------------------------------------

  function LeadingSpaces(s: string): (n: nat)
    ensures n <= |s|
    ensures forall k :: 0 <= k < n ==> IsSpace(s[k])
    ensures n < |s| ==> !IsSpace(s[n])
  {
    LeadingRun(s, IsSpace)
  }

  function TrailingSpaces(s: string): (n: nat)
    ensures n <= |s|
    ensures forall k :: |s| - n <= k < |s| ==> IsSpace(s[k])
    ensures n < |s| ==> !IsSpace(s[|s| - n - 1])
  {
    if s == [] || !IsSpace(s[|s| - 1]) then 0 else 1 + TrailingSpaces(s[..|s| - 1])
  }

  /**
    `s.strip()`: the slice of `s` left once its leading and trailing whitespace
    is removed; it neither starts nor ends with whitespace.
   */
  function Strip(s: string): (r: string)
    ensures LeadingSpaces(s) + |r| <= |s|
    ensures r == s[LeadingSpaces(s)..LeadingSpaces(s) + |r|]
    ensures forall k :: 0 <= k < LeadingSpaces(s) ==> IsSpace(s[k])
    ensures forall k :: LeadingSpaces(s) + |r| <= k < |s| ==> IsSpace(s[k])
    ensures r != [] ==> !IsSpace(r[0]) && !IsSpace(r[|r| - 1])
  {
    var t := s[LeadingSpaces(s)..];
    t[..|t| - TrailingSpaces(t)]
  }

  // ---------------------------------------------------------------------------
  // Splitting on one character
  // ---------------------------------------------------------------------------

  /** `s.split(sep)` for a one-character separator: never an empty list. */
  function SplitOn(s: string, sep: char): (parts: seq<string>)
    ensures |parts| >= 1
    decreases |s|
  {
    if s == [] then [""]
    else
      var rest := SplitOn(s[1..], sep);
      if s[0] == sep then [""] + rest else [[s[0]] + rest[0]] + rest[1..]
  }

  /** A string without the separator is a single part. */
  lemma {:induction false} SplitOnNone(s: string, sep: char)
    requires sep !in s
    ensures SplitOn(s, sep) == [s]
    decreases |s|
  {
    if s != [] {
      SplitOnNone(s[1..], sep);
      assert [s[0]] + s[1..] == s;
    }
  }

  /** Each separator ends one part and starts the next. */
  lemma {:induction false} SplitOnAt(a: string, sep: char, b: string)
    ensures SplitOn(a + [sep] + b, sep) == SplitOn(a, sep) + SplitOn(b, sep)
    decreases |a|
  {
    var s := a + [sep] + b;
    if a == [] {
      assert s[1..] == b;
    } else {
      assert s[1..] == a[1..] + [sep] + b;
      SplitOnAt(a[1..], sep, b);
    }
  }

  /** Joining the parts with the separator gives the string back, and no part holds the separator. */
  lemma SplitOnJoin(s: string, sep: char)
    ensures Join([sep], SplitOn(s, sep)) == s
    ensures forall k :: 0 <= k < |SplitOn(s, sep)| ==> sep !in SplitOn(s, sep)[k]
  {
    SplitOnJoinBack(s, sep);
    SplitOnPartsFree(s, sep);
  }

  lemma {:induction false} SplitOnJoinBack(s: string, sep: char)
    ensures Join([sep], SplitOn(s, sep)) == s
    decreases |s|
  {
    if s != [] {
      SplitOnJoinBack(s[1..], sep);
      var rest := SplitOn(s[1..], sep);
      var parts := SplitOn(s, sep);
      assert s == [s[0]] + s[1..];
      if s[0] == sep {
        assert parts[1..] == rest;
        assert Join([sep], parts) == "" + [sep] + Join([sep], rest);
      } else if |rest| == 1 {
        assert parts == [[s[0]] + rest[0]];
      } else {
        var j := Join([sep], rest[1..]);
        assert Join([sep], rest) == rest[0] + [sep] + j;
        assert parts[1..] == rest[1..];
        assert Join([sep], parts) == ([s[0]] + rest[0]) + [sep] + j;
        assert ([s[0]] + rest[0]) + [sep] + j == [s[0]] + (rest[0] + [sep] + j);
      }
    }
  }

  lemma {:induction false} SplitOnPartsFree(s: string, sep: char)
    ensures forall k :: 0 <= k < |SplitOn(s, sep)| ==> sep !in SplitOn(s, sep)[k]
    decreases |s|
  {
    if s != [] {
      SplitOnPartsFree(s[1..], sep);
      var rest := SplitOn(s[1..], sep);
      var parts := SplitOn(s, sep);
      if s[0] == sep {
        assert forall k :: 1 <= k < |parts| ==> parts[k] == rest[k - 1];
      } else {
        assert forall k :: 1 <= k < |parts| ==> parts[k] == rest[k];
      }
    }
  }

  /** The first part is the prefix of `s` up to the first separator, or all of `s`. */
  lemma {:induction false} SplitOnHead(s: string, sep: char)
    ensures |SplitOn(s, sep)[0]| <= |s|
    ensures SplitOn(s, sep)[0] == s[..|SplitOn(s, sep)[0]|]
    ensures sep !in SplitOn(s, sep)[0]
    ensures |SplitOn(s, sep)[0]| < |s| ==> s[|SplitOn(s, sep)[0]|] == sep
    decreases |s|
  {
    if s != [] {
      SplitOnHead(s[1..], sep);
      var rest := SplitOn(s[1..], sep);
      if s[0] != sep {
        assert SplitOn(s, sep)[0] == [s[0]] + rest[0];
        assert s[..|rest[0]| + 1] == [s[0]] + s[1..][..|rest[0]|];
      }
    }
  }

  // ---------------------------------------------------------------------------
  // Decimal numbers: `str.isdigit()`, `int(s)` and `str(n)`
  // ---------------------------------------------------------------------------

  /** `s.isdigit()` on ASCII: non-empty and all decimal digits. */
  predicate IsDecimal(s: string) {
    |s| > 0 && forall i :: 0 <= i < |s| ==> IsDigit(s[i])
  }

  /** `int(s)` for a string of decimal digits (leading zeros allowed). */
  function DecimalValue(s: string): nat
    requires forall i :: 0 <= i < |s| ==> IsDigit(s[i])
    decreases |s|
  {
    if s == [] then 0
    else
      assert IsDigit(s[|s| - 1]);
      10 * DecimalValue(s[..|s| - 1]) + (s[|s| - 1] as int - '0' as int)
  }

  function DigitChar(d: nat): char
    requires d < 10
  {
    ('0' as int + d) as char
  }

  /** `str(n)` for a natural number: its decimal digits, without leading zeros. */
  function DecimalString(n: nat): string
  {
    if n < 10 then [DigitChar(n)] else DecimalString(n / 10) + [DigitChar(n % 10)]
  }

  /** `int(str(n)) == n`: reading back the printed number gives the number. */
  lemma {:induction false} DecimalRoundTrip(n: nat)
    ensures IsDecimal(DecimalString(n))
    ensures DecimalValue(DecimalString(n)) == n
  {
    if n >= 10 {
      DecimalRoundTrip(n / 10);
      var s := DecimalString(n);
      assert s[..|s| - 1] == DecimalString(n / 10);
    }
  }

  /** Distinct numbers print differently. */
  lemma DecimalStringInjective(m: nat, n: nat)
    requires DecimalString(m) == DecimalString(n)
    ensures m == n
  {
    DecimalRoundTrip(m);
    DecimalRoundTrip(n);
  }

  // ---------------------------------------------------------------------------
  // Prefixes and suffixes
  // ---------------------------------------------------------------------------

  /** `s.startswith(p)`. */
  predicate StartsWith(s: string, p: string) {
    |p| <= |s| && s[..|p|] == p
  }

  /** `s.endswith(p)`. */
  predicate EndsWith(s: string, p: string) {
    |p| <= |s| && s[|s| - |p|..] == p
  }

  /** `p` occurs in `s` starting at index `i`. */
  predicate OccursAt(s: string, p: string, i: int) {
    0 <= i <= |s| - |p| && s[i..i + |p|] == p
  }

  /** `p in s` for strings: `p` occurs somewhere in `s`. */
  predicate Contains(s: string, p: string) {
    exists i :: 0 <= i <= |s| - |p| && OccursAt(s, p, i)
  }
}
