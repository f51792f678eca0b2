/**
 * The Python `str` built-ins the core relies on (startswith, strip, lower,
 * split, join, replace, splitlines, str(int)), written out on `seq<char>`.
 * Case mapping is ASCII only.
 */
module PyStr {

  predicate StartsWith(s: string, p: string) {
    |p| <= |s| && s[..|p|] == p
  }

  /** A string that differs from `p` at some position of `p` does not start with it. */
  lemma DiffersAt(s: string, p: string, i: nat)
    requires i < |p| && i < |s| && s[i] != p[i]
    ensures !StartsWith(s, p)
  {
  }

  predicate EndsWith(s: string, p: string) {
    |p| <= |s| && s[|s| - |p|..] == p
  }

  /** The characters for which Python's `str.isspace()` is true. */
  predicate IsSpace(c: char) {
    c == ' ' || ('\t' <= c <= '\r') || ('\U{1c}' <= c <= '\U{1f}') || c == '\U{85}' || c == '\U{a0}'
    || c == '\U{1680}' || ('\U{2000}' <= c <= '\U{200a}') || c == '\U{2028}' || c == '\U{2029}'
    || c == '\U{202f}' || c == '\U{205f}' || c == '\U{3000}'
  }

  /** How many leading characters `lstrip` removes. */
  function LStripLen(s: string, drop: char -> bool): (n: nat)
    ensures n <= |s|
  {
    if |s| > 0 && drop(s[0]) then 1 + LStripLen(s[1..], drop) else 0
  }

  /** How many trailing characters `rstrip` removes. */
  function RStripLen(s: string, drop: char -> bool): (n: nat)
    ensures n <= |s|
  {
    if |s| > 0 && drop(s[|s| - 1]) then 1 + RStripLen(s[..|s| - 1], drop) else 0
  }

  /** `s.lstrip(chars)`, the characters given by a predicate */
  function LStripBy(s: string, drop: char -> bool): (r: string)
    ensures |r| <= |s| && r == s[|s| - |r|..]
  {
    s[LStripLen(s, drop)..]
  }

  /** `s.rstrip(chars)`, the characters given by a predicate */
  function RStripBy(s: string, drop: char -> bool): (r: string)
    ensures |r| <= |s| && r == s[..|r|]
  {
    s[..|s| - RStripLen(s, drop)]
  }

  lemma {:induction false} LStripLenFacts(s: string, drop: char -> bool)
    ensures var n := LStripLen(s, drop);
            (forall i :: 0 <= i < n ==> drop(s[i])) && (n < |s| ==> !drop(s[n]))
  {
    if |s| > 0 && drop(s[0]) {
      LStripLenFacts(s[1..], drop);
      var n' := LStripLen(s[1..], drop);
      forall i | 0 <= i < n' + 1 ensures drop(s[i]) {
        if i > 0 {
          assert s[i] == s[1..][i - 1];
        }
      }
      if n' + 1 < |s| {
        assert s[n' + 1] == s[1..][n'];
      }
    }
  }

  lemma {:induction false} RStripLenFacts(s: string, drop: char -> bool)
    ensures var n := RStripLen(s, drop);
            (forall i :: |s| - n <= i < |s| ==> drop(s[i])) && (n < |s| ==> !drop(s[|s| - n - 1]))
  {
    if |s| > 0 && drop(s[|s| - 1]) {
      RStripLenFacts(s[..|s| - 1], drop);
      var n' := RStripLen(s[..|s| - 1], drop);
      forall i | |s| - (n' + 1) <= i < |s| ensures drop(s[i]) {
        if i < |s| - 1 {
          assert s[i] == s[..|s| - 1][i];
        }
      }
      if n' + 1 < |s| {
        assert s[|s| - (n' + 1) - 1] == s[..|s| - 1][|s| - 1 - n' - 1];
      }
    }
  }

  /** `lstrip` removes exactly the leading run of dropped characters. */
  lemma LStripByFacts(s: string, drop: char -> bool)
    ensures var r := LStripBy(s, drop);
            && (r == [] || !drop(r[0]))
            && forall i :: 0 <= i < |s| - |r| ==> drop(s[i])
  {
    LStripLenFacts(s, drop);
  }

  /** `rstrip` removes exactly the trailing run of dropped characters. */
  lemma RStripByFacts(s: string, drop: char -> bool)
    ensures var r := RStripBy(s, drop);
            && (r == [] || !drop(r[|r| - 1]))
            && forall i :: |r| <= i < |s| ==> drop(s[i])
  {
    RStripLenFacts(s, drop);
  }

  function StripBy(s: string, drop: char -> bool): string {
    RStripBy(LStripBy(s, drop), drop)
  }

  /** `s.strip()` */
  function Strip(s: string): string {
    StripBy(s, IsSpace)
  }

  function LowerChar(c: char): char {
    if 'A' <= c <= 'Z' then (c as int + 32) as char else c
  }

  function UpperChar(c: char): char {
    if 'a' <= c <= 'z' then (c as int - 32) as char else c
  }

  /** `s.lower()` */
  function Lower(s: string): (r: string)
    ensures |r| == |s| && forall i :: 0 <= i < |s| ==> r[i] == LowerChar(s[i])
  {
    if s == [] then [] else [LowerChar(s[0])] + Lower(s[1..])
  }

  /** `s.upper()` */
  function Upper(s: string): (r: string)
    ensures |r| == |s| && forall i :: 0 <= i < |s| ==> r[i] == UpperChar(s[i])
  {
    if s == [] then [] else [UpperChar(s[0])] + Upper(s[1..])
  }

  /** `s.count(c)` */
  function Count(s: string, c: char): nat {
    if s == [] then 0 else (if s[0] == c then 1 else 0) + Count(s[1..], c)
  }

  /** `s.find(c)`: the first index of `c`, or -1 */
  function Find(s: string, c: char): (r: int)
    ensures -1 <= r < |s|
    ensures r == -1 ==> c !in s
    ensures r >= 0 ==> s[r] == c && c !in s[..r]
  {
    if s == [] then -1
    else if s[0] == c then 0
    else var k := Find(s[1..], c); if k == -1 then -1 else k + 1
  }

  /** `s.replace(pat, rep)`: leftmost, non-overlapping occurrences */
  function Replace(s: string, pat: string, rep: string): string
    requires pat != []
  {
    if s == [] then []
    else if StartsWith(s, pat) then rep + Replace(s[|pat|..], pat, rep)
    else [s[0]] + Replace(s[1..], pat, rep)
  }

  /** `s` with every occurrence of `c` removed, the other characters kept in order. */
  function Without(s: string, c: char): (r: string)
    ensures c !in r && |r| <= |s|
    ensures forall x :: x != c ==> (x in r <==> x in s)
  {
    if s == [] then [] else (if s[0] == c then [] else [s[0]]) + Without(s[1..], c)
  }

  lemma {:induction false} WithoutAppend(a: string, b: string, c: char)
    ensures Without(a + b, c) == Without(a, c) + Without(b, c)
  {
    if a != [] {
      assert (a + b)[1..] == a[1..] + b;
      WithoutAppend(a[1..], b, c);
    } else {
      assert a + b == b;
    }
  }

  /** Removing `c` from a string that holds none changes nothing. */
  lemma {:induction false} WithoutAbsent(s: string, c: char)
    requires c !in s
    ensures Without(s, c) == s
  {
    if s != [] {
      WithoutAbsent(s[1..], c);
      assert s == [s[0]] + s[1..];
    }
  }

  /** `s.split(sep)` for a one-character separator: never empty */
  function Split(s: string, sep: char): (r: seq<string>)
    ensures |r| >= 1
    ensures forall i :: 0 <= i < |r| ==> sep !in r[i]
  {
    if s == [] then [""]
    else
      var rest := Split(s[1..], sep);
      if s[0] == sep then [""] + rest else [[s[0]] + rest[0]] + rest[1..]
  }

  /** `sep.join(parts)` */
  function Join(sep: string, parts: seq<string>): string {
    if parts == [] then []
    else if |parts| == 1 then parts[0]
    else parts[0] + sep + Join(sep, parts[1..])
  }

  lemma JoinCons(sep: string, a: string, rest: seq<string>)
    requires rest != []
    ensures Join(sep, [a] + rest) == a + sep + Join(sep, rest)
  {
    assert ([a] + rest)[1..] == rest;
  }

  lemma JoinAppend(sep: string, parts: seq<string>, b: string)
    requires parts != []
    ensures Join(sep, parts + [b]) == Join(sep, parts) + sep + b
  {
    if |parts| == 1 {
      assert parts + [b] == [parts[0], b];
    } else {
      assert (parts + [b])[1..] == parts[1..] + [b];
      JoinAppend(sep, parts[1..], b);
    }
  }

  /** Splitting a join on a separator that no part contains gives the parts back. */
  lemma {:induction false} SplitJoin(parts: seq<string>, sep: char)
    requires parts != []
    requires forall i :: 0 <= i < |parts| ==> sep !in parts[i]
    ensures Split(Join([sep], parts), sep) == parts
  {
    if |parts| == 1 {
      SplitNoSep(parts[0], sep);
    } else {
      SplitJoin(parts[1..], sep);
      JoinCons([sep], parts[0], parts[1..]);
      SplitPrefix(parts[0], [sep] + Join([sep], parts[1..]), sep);
      assert ([sep] + Join([sep], parts[1..]))[1..] == Join([sep], parts[1..]);
      var tail := [sep] + Join([sep], parts[1..]);
      assert parts[0] + [sep] + Join([sep], parts[1..]) == parts[0] + tail;
      assert Split(tail, sep) == [""] + parts[1..];
      assert parts[0] + "" == parts[0];
      assert parts == [parts[0]] + parts[1..];
    }
  }

  lemma {:induction false} SplitNoSep(s: string, sep: char)
    requires sep !in s
    ensures Split(s, sep) == [s]
  {
    if s != [] {
      SplitNoSep(s[1..], sep);
      assert s == [s[0]] + s[1..];
    }
  }

  /** A piece without the separator glues onto the first field. */
  lemma {:induction false} SplitPrefix(a: string, b: string, sep: char)
    requires sep !in a
    ensures Split(a + b, sep) == [a + Split(b, sep)[0]] + Split(b, sep)[1..]
  {
    if a != [] {
      assert (a + b)[1..] == a[1..] + b;
      SplitPrefix(a[1..], b, sep);
      assert [a[0]] + (a[1..] + Split(b, sep)[0]) == a + Split(b, sep)[0];
    } else {
      assert a + b == b;
      var r := Split(b, sep);
      assert a + r[0] == r[0];
      assert r == [r[0]] + r[1..];
    }
  }

  /** Joining the fields of a split on the same separator gives the string back. */
  lemma {:induction false} JoinSplit(s: string, sep: char)
    ensures Join([sep], Split(s, sep)) == s
  {
    if s != [] {
      var rest := Split(s[1..], sep);
      JoinSplit(s[1..], sep);
      if s[0] == sep {
        JoinCons([sep], "", rest);
        assert s == [sep] + s[1..];
      } else if |rest| == 1 {
        assert Split(s, sep) == [[s[0]] + rest[0]];
        assert s == [s[0]] + s[1..];
      } else {
        JoinCons([sep], [s[0]] + rest[0], rest[1..]);
        JoinCons([sep], rest[0], rest[1..]);
        assert rest == [rest[0]] + rest[1..];
        assert s == [s[0]] + s[1..];
      }
    }
  }

  /** The line boundaries of Python's `str.splitlines()`. */
  predicate IsLineBoundary(c: char) {
    c == '\n' || c == '\r' || c == '\U{0b}' || c == '\U{0c}' || ('\U{1c}' <= c <= '\U{1e}')
    || c == '\U{85}' || c == '\U{2028}' || c == '\U{2029}'
  }

  /** The index of the first line boundary in `s`, or `|s|` */
  function BoundaryIndex(s: string): (i: nat)
    ensures i <= |s|
    ensures i < |s| ==> IsLineBoundary(s[i])
    ensures forall j :: 0 <= j < i ==> !IsLineBoundary(s[j])
  {
    if s == [] || IsLineBoundary(s[0]) then 0 else 1 + BoundaryIndex(s[1..])
  }

  /** `s.splitlines()`: no trailing empty line, and "\r\n" is one boundary */
  function Splitlines(s: string): (r: seq<string>)
    ensures forall k :: 0 <= k < |r| ==> forall j :: 0 <= j < |r[k]| ==> !IsLineBoundary(r[k][j])
    decreases |s|
  {
    if s == [] then []
    else
      var i := BoundaryIndex(s);
      if i == |s| then [s]
      else
        var skip := if s[i] == '\r' && i + 1 < |s| && s[i + 1] == '\n' then 2 else 1;
        [s[..i]] + Splitlines(s[i + skip..])
  }

  function DigitChar(d: nat): char
    requires d < 10
  {
    "0123456789"[d]
  }

  /** `str(n)` for a natural number */
  function NatToStr(n: nat): (r: string)
    ensures |r| >= 1
    ensures forall i :: 0 <= i < |r| ==> '0' <= r[i] <= '9'
    decreases n
  {
    if n < 10 then [DigitChar(n)] else NatToStr(n / 10) + [DigitChar(n % 10)]
  }

  /** `str(i)` for an integer */
  function IntToStr(i: int): string {
    if i < 0 then "-" + NatToStr(-i) else NatToStr(i)
  }

  function Pow10(d: nat): (r: nat)
    ensures r >= 1
  {
    if d == 0 then 1 else 10 * Pow10(d - 1)
  }

  /** `str(n)` has at most `d` digits exactly when `n < 10^d` (for d >= 1). */
  lemma {:induction false} NatToStrLength(n: nat, d: nat)
    requires d >= 1
    ensures |NatToStr(n)| <= d <==> n < Pow10(d)
    decreases n
  {
    if n >= 10 {
      if d == 1 {
        assert |NatToStr(n / 10)| >= 1;
      } else {
        NatToStrLength(n / 10, d - 1);
      }
    }
  }
}
