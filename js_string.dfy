/** The fragments of JavaScript's string semantics that the application relies on:
    white space as matched by `\s` and removed by `trim`, `split("\n")`, `toLowerCase`,
    `includes` and the decimal rendering of a natural number. */
module JsString {

  /** A white-space code point in the sense of ECMAScript: the WhiteSpace and LineTerminator
      productions (tab, vertical tab, form feed, space, no-break space, byte order mark, the
      space separators of Unicode, line feed, carriage return, line and paragraph separator).
      The regular-expression class `\s` and `String.prototype.trim` use this same set. */
  predicate IsSpace(c: char) {
    c == '\t' || c == '\n' || c == '\U{000B}' || c == '\U{000C}' || c == '\r' || c == ' '
    || c == '\U{00A0}' || c == '\U{1680}' || ('\U{2000}' <= c <= '\U{200A}')
    || c == '\U{2028}' || c == '\U{2029}' || c == '\U{202F}' || c == '\U{205F}'
    || c == '\U{3000}' || c == '\U{FEFF}'
  }

  predicate AllSpace(s: string) {
    forall i :: 0 <= i < |s| ==> IsSpace(s[i])
  }

  /** Every character of `s` at an index in [lo, hi) is white space. */
  predicate SpaceBetween(s: string, lo: int, hi: int) {
    forall i :: lo <= i < hi && 0 <= i < |s| ==> IsSpace(s[i])
  }

  /** A string with no white space at either end. */
  predicate Trimmed(s: string) {
    s == [] || (!IsSpace(s[0]) && !IsSpace(s[|s| - 1]))
  }

  /** `r` occurs in `s` at offset `k` with nothing but white space around it. */
  predicate PaddedAt(s: string, k: int, r: string) {
    0 <= k && k + |r| <= |s| && r == s[k..k + |r|] && SpaceBetween(s, 0, k) && SpaceBetween(s, k + |r|, |s|)
  }

  /** The length of the longest all-white-space prefix of `s`. */
  function LeadingSpaces(s: string): (n: nat)
    ensures n <= |s|
    ensures SpaceBetween(s, 0, n)
    ensures n < |s| ==> !IsSpace(s[n])
  {
    if s == [] || !IsSpace(s[0]) then 0
    else
      var k := LeadingSpaces(s[1..]);
      assert forall i :: 1 <= i < k + 1 ==> s[i] == s[1..][i - 1];
      k + 1
  }

  /** The length of the longest all-white-space suffix of `s`. */
  function TrailingSpaces(s: string): (n: nat)
    ensures n <= |s|
    ensures SpaceBetween(s, |s| - n, |s|)
    ensures n < |s| ==> !IsSpace(s[|s| - n - 1])
  {
    if s == [] || !IsSpace(s[|s| - 1]) then 0
    else
      var k := TrailingSpaces(s[..|s| - 1]);
      assert forall i :: 0 <= i < |s| - 1 ==> s[i] == s[..|s| - 1][i];
      k + 1
  }

  /** `String.prototype.trim`: the string without its leading and trailing white space. */
  function Trim(s: string): (r: string)
    ensures Trimmed(r)
    ensures r == [] <==> AllSpace(s)
  {
    var a := LeadingSpaces(s);
    var b := TrailingSpaces(s[a..]);
    TrimCore(s, a, b);
    s[a..|s| - b]
  }

  /** Cutting `a` leading and `b` trailing white-space characters, where neither run can be
      extended, leaves a trimmed string, empty exactly when `s` is all white space. */
  lemma TrimCore(s: string, a: nat, b: nat)
    requires a <= |s| && SpaceBetween(s, 0, a) && (a < |s| ==> !IsSpace(s[a]))
    requires b <= |s| - a && SpaceBetween(s[a..], |s| - a - b, |s| - a)
    requires b < |s| - a ==> !IsSpace(s[a..][|s| - a - b - 1])
    ensures Trimmed(s[a..|s| - b])
    ensures s[a..|s| - b] == [] <==> AllSpace(s)
  {
    var t := s[a..];
    assert forall i :: a <= i < |s| ==> s[i] == t[i - a];
    if a < |s| {
      assert b < |s| - a;
    }
  }

  /** What `Trim` removes is white space: its result sits in `s` at offset `k` with only white
      space before and after it. */
  lemma TrimIsPadded(s: string) returns (k: nat)
    ensures PaddedAt(s, k, Trim(s))
  {
    k := LeadingSpaces(s);
    var b := TrailingSpaces(s[k..]);
    assert Trim(s) == s[k..|s| - b];
    SpaceBetweenSuffix(s, k, |s| - b);
  }

  /** White space at positions [lo, |s|) of `s[k..]` is white space at [k + lo, |s|) of `s`. */
  lemma SpaceBetweenSuffix(s: string, k: nat, lo: int)
    requires k <= lo && k <= |s| && SpaceBetween(s[k..], lo - k, |s| - k)
    ensures SpaceBetween(s, lo, |s|)
  {
    assert forall i :: k <= i < |s| ==> s[i] == s[k..][i - k];
  }

  /** `n` white-space characters followed by a non-space (or the end) are exactly the leading
      white space of `s`. */
  lemma LeadingSpacesAt(s: string, n: nat)
    requires n <= |s| && SpaceBetween(s, 0, n)
    requires n < |s| ==> !IsSpace(s[n])
    ensures LeadingSpaces(s) == n
  {
  }

  /** A non-space (or the start) followed by `n` white-space characters: exactly the trailing
      white space of `s`. */
  lemma TrailingSpacesAt(s: string, n: nat)
    requires n <= |s| && SpaceBetween(s, |s| - n, |s|)
    requires n < |s| ==> !IsSpace(s[|s| - n - 1])
    ensures TrailingSpaces(s) == n
  {
  }

  /** `Trim` removes exactly the white-space padding around a trimmed core: together with
      the contract of `Trim` this pins its result down completely. */
  lemma {:induction false} TrimOfPadded(w1: string, t: string, w2: string)
    requires AllSpace(w1) && AllSpace(w2) && Trimmed(t)
    ensures Trim(w1 + t + w2) == t
  {
    if t == [] {
      TrimOfBlank(w1, w2);
      assert w1 + t + w2 == w1 + w2;
    } else {
      var s := w1 + t + w2;
      assert forall i :: 0 <= i < |w1| ==> s[i] == w1[i];
      assert s[|w1|] == t[0];
      LeadingSpacesAt(s, |w1|);
      var x := s[|w1|..];
      assert x == t + w2;
      assert forall i :: 0 <= i < |w2| ==> x[|t| + i] == w2[i];
      assert x[|t| - 1] == t[|t| - 1];
      TrailingSpacesAt(x, |w2|);
      assert s[|w1|..|s| - |w2|] == t;
    }
  }

  /** White space around nothing trims to nothing. */
  lemma TrimOfBlank(w1: string, w2: string)
    requires AllSpace(w1) && AllSpace(w2)
    ensures Trim(w1 + w2) == []
  {
    var s := w1 + w2;
    assert AllSpace(s) by {
      forall i | 0 <= i < |s| ensures IsSpace(s[i]) {
        if i < |w1| { assert s[i] == w1[i]; } else { assert s[i] == w2[i - |w1|]; }
      }
    }
  }

  /** `s.split("\n")`: the pieces between line feeds, at least one (possibly empty) piece. */
  function SplitLines(s: string): (lines: seq<string>)
    ensures |lines| >= 1
    ensures forall l <- lines :: '\n' !in l
  {
    if s == [] then [""]
    else
      var rest := SplitLines(s[1..]);
      if s[0] == '\n' then [""] + rest
      else [[s[0]] + rest[0]] + rest[1..]
  }

  /** `lines.join("\n")`, the inverse of `SplitLines`. */
  function JoinLines(lines: seq<string>): string
  {
    if lines == [] then ""
    else if |lines| == 1 then lines[0]
    else lines[0] + "\n" + JoinLines(lines[1..])
  }

  /** Splitting on line feeds and joining with line feeds gives back the original text. */
  lemma {:induction false} JoinSplitLines(s: string)
    ensures JoinLines(SplitLines(s)) == s
  {
    if s != [] {
      var rest := SplitLines(s[1..]);
      JoinSplitLines(s[1..]);
      if s[0] == '\n' {
        assert SplitLines(s) == [""] + rest;
        assert ([""] + rest)[1..] == rest;
      } else if |rest| == 1 {
        assert SplitLines(s) == [[s[0]] + rest[0]];
      } else {
        var lines := [[s[0]] + rest[0]] + rest[1..];
        assert lines[1..] == rest[1..];
        calc {
          JoinLines(lines);
          ([s[0]] + rest[0]) + "\n" + JoinLines(rest[1..]);
          [s[0]] + (rest[0] + "\n" + JoinLines(rest[1..]));
          [s[0]] + JoinLines(rest);
          s;
        }
      }
    }
  }

  /** A text without line feeds is a single line. */
  lemma {:induction false} SplitSingleLine(a: string)
    requires '\n' !in a
    ensures SplitLines(a) == [a]
  {
    if a != [] {
      assert '\n' !in a[1..] by { assert forall c :: c in a[1..] ==> c in a; }
      SplitSingleLine(a[1..]);
      assert [a[0]] + a[1..] == a;
    }
  }

  /** The first line feed of a text ends its first line. */
  lemma {:induction false} SplitAtNewline(a: string, b: string)
    requires '\n' !in a
    ensures SplitLines(a + "\n" + b) == [a] + SplitLines(b)
  {
    if a == [] {
      assert a + "\n" + b == ['\n'] + b;
      assert (['\n'] + b)[1..] == b;
    } else {
      var s := a + "\n" + b;
      assert s[1..] == a[1..] + "\n" + b;
      assert '\n' !in a[1..] by { assert forall c :: c in a[1..] ==> c in a; }
      SplitAtNewline(a[1..], b);
      assert s[0] == a[0] != '\n';
      assert [a[0]] + a[1..] == a;
    }
  }

  /** Joining lines that contain no line feed and splitting again gives back the same lines. */
  lemma {:induction false} SplitJoinLines(lines: seq<string>)
    requires |lines| >= 1
    requires forall l <- lines :: '\n' !in l
    ensures SplitLines(JoinLines(lines)) == lines
  {
    if |lines| == 1 {
      SplitSingleLine(lines[0]);
    } else {
      SplitJoinLines(lines[1..]);
      SplitAtNewline(lines[0], JoinLines(lines[1..]));
      assert [lines[0]] + lines[1..] == lines;
    }
  }

  /** `toLowerCase` restricted to the ASCII letters. */
  function LowerChar(c: char): (r: char)
    ensures 'A' <= c <= 'Z' ==> r as int == c as int + 32
    ensures !('A' <= c <= 'Z') ==> r == c
  {
    if 'A' <= c <= 'Z' then (c as int + 32) as char else c
  }

  function Lower(s: string): (r: string)
    ensures |r| == |s|
    ensures forall i :: 0 <= i < |s| ==> r[i] == LowerChar(s[i])
  {
    seq(|s|, i requires 0 <= i < |s| => LowerChar(s[i]))
  }

  /** Lower-casing twice is lower-casing once. */
  lemma LowerIdempotent(s: string)
    ensures Lower(Lower(s)) == Lower(s)
  {
  }

  /** `needle` occurs in `hay` starting at index `i`. */
  predicate OccursAt(hay: string, needle: string, i: int) {
    0 <= i && i + |needle| <= |hay| && hay[i..i + |needle|] == needle
  }

  /** `hay.includes(needle)`: `needle` is a prefix of `hay` or of one of its suffixes. */
  function Includes(hay: string, needle: string): bool
    decreases |hay|
  {
    if needle <= hay then true
    else if hay == [] then false
    else Includes(hay[1..], needle)
  }

  /** An occurrence anywhere makes `includes` true. */
  lemma {:induction false} IncludesAt(hay: string, needle: string, i: int)
    requires OccursAt(hay, needle, i)
    ensures Includes(hay, needle)
    decreases |hay|
  {
    if !(needle <= hay) {
      assert i != 0;
      assert hay[1..][i - 1..i - 1 + |needle|] == hay[i..i + |needle|];
      IncludesAt(hay[1..], needle, i - 1);
    }
  }

  /** When `includes` is true, the needle occurs at some offset. */
  lemma {:induction false} IncludesWitness(hay: string, needle: string) returns (i: int)
    requires Includes(hay, needle)
    ensures OccursAt(hay, needle, i)
    decreases |hay|
  {
    if needle <= hay {
      i := 0;
    } else {
      var j := IncludesWitness(hay[1..], needle);
      assert hay[j + 1..j + 1 + |needle|] == hay[1..][j..j + |needle|];
      i := j + 1;
    }
  }

  /** `includes` is true exactly when the needle occurs in the text at some offset. */
  lemma IncludesIff(hay: string, needle: string)
    ensures Includes(hay, needle) <==> exists i :: OccursAt(hay, needle, i)
  {
    if Includes(hay, needle) {
      var i := IncludesWitness(hay, needle);
    }
    if exists i :: OccursAt(hay, needle, i) {
      var i :| OccursAt(hay, needle, i);
      IncludesAt(hay, needle, i);
    }
  }

  /** Every text includes the empty text. */
  lemma IncludesEmpty(hay: string)
    ensures Includes(hay, "")
  {
  }

  function DigitChar(d: nat): (c: char)
    requires d < 10
    ensures '0' <= c <= '9'
  {
    (('0' as int) + d) as char
  }

  predicate IsDigit(c: char) {
    '0' <= c <= '9'
  }

  /** `n.toString()` for a natural number: its decimal digits, without leading zeros. */
  function NatToString(n: nat): (s: string)
    ensures |s| >= 1
    ensures forall i :: 0 <= i < |s| ==> IsDigit(s[i])
    ensures |s| > 1 ==> s[0] != '0'
  {
    if n < 10 then [DigitChar(n)]
    else NatToString(n / 10) + [DigitChar(n % 10)]
  }

  /** The number a string of decimal digits denotes. */
  function DecimalValue(s: string): int
    requires forall i :: 0 <= i < |s| ==> IsDigit(s[i])
  {
    if s == [] then 0
    else DecimalValue(s[..|s| - 1]) * 10 + (s[|s| - 1] as int - '0' as int)
  }

  /** Reading back the decimal rendering of `n` gives `n`. */
  lemma {:induction false} NatToStringRoundTrip(n: nat)
    ensures DecimalValue(NatToString(n)) == n
  {
    if n >= 10 {
      var s := NatToString(n);
      NatToStringRoundTrip(n / 10);
      assert s[..|s| - 1] == NatToString(n / 10);
    }
  }

  /** Distinct numbers render as distinct strings. */
  lemma NatToStringInjective(m: nat, n: nat)
    requires NatToString(m) == NatToString(n)
    ensures m == n
  {
    NatToStringRoundTrip(m);
    NatToStringRoundTrip(n);
  }
}
