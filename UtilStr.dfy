/**
 * String utilities of xdoctest: `indent`, `codeblock` (with the `textwrap.dedent`
 * it relies on), `add_line_numbers` and `strip_ansi`.
 */
module UtilStr {
  import opened Wrappers
  import opened PyStr

  // ---------------------------------------------------------------- indent

  /** Each string of `lines` with `prefix` in front. */
  function Prefixed(prefix: string, lines: seq<string>): (r: seq<string>)
    ensures |r| == |lines|
    ensures forall i :: 0 <= i < |r| ==> r[i] == prefix + lines[i]
  {
    seq(|lines|, i requires 0 <= i < |lines| => prefix + lines[i])
  }

  /** `indent(text, prefix)`: the prefix in front of the text and after every newline. */
  function Indent(text: string, prefix: string): string {
    prefix + Replace(text, "\n", "\n" + prefix)
  }

  /** Every line with `prefix` removed from its front where it is there. */
  function Unindent(text: string, prefix: string): string {
    var lines := Split(text, '\n');
    Join("\n", seq(|lines|, i requires 0 <= i < |lines| =>
                     if StartsWith(lines[i], prefix) then lines[i][|prefix|..] else lines[i]))
  }

  lemma JoinPrefixFirst(sep: string, q: string, a: string, xs: seq<string>)
    ensures q + Join(sep, [a] + xs) == Join(sep, [q + a] + xs)
  {
    if xs != [] {
      JoinCons(sep, a, xs);
      JoinCons(sep, q + a, xs);
    }
  }

  lemma {:induction false} ReplaceNewlines(s: string, prefix: string)
    ensures var lines := Split(s, '\n');
            Replace(s, "\n", "\n" + prefix) == Join("\n", [lines[0]] + Prefixed(prefix, lines[1..]))
  {
    if s != [] {
      ReplaceNewlines(s[1..], prefix);
      if s[0] == '\n' {
        ReplaceNewlineHead(s, prefix);
      } else {
        ReplaceOtherHead(s, prefix);
      }
    }
  }

  lemma ReplaceNewlineHead(s: string, prefix: string)
    requires s != [] && s[0] == '\n'
    requires var lines := Split(s[1..], '\n');
             Replace(s[1..], "\n", "\n" + prefix) == Join("\n", [lines[0]] + Prefixed(prefix, lines[1..]))
    ensures var lines := Split(s, '\n');
            Replace(s, "\n", "\n" + prefix) == Join("\n", [lines[0]] + Prefixed(prefix, lines[1..]))
  {
    var rest := Split(s[1..], '\n');
    assert StartsWith(s, "\n") by { assert s[..1] == [s[0]]; }
    assert Split(s, '\n') == [""] + rest;
    JoinPrefixFirst("\n", prefix, rest[0], Prefixed(prefix, rest[1..]));
    assert Prefixed(prefix, rest) == [prefix + rest[0]] + Prefixed(prefix, rest[1..]);
    JoinCons("\n", "", Prefixed(prefix, rest));
    assert ([""] + rest)[1..] == rest;
  }

  lemma ReplaceOtherHead(s: string, prefix: string)
    requires s != [] && s[0] != '\n'
    requires var lines := Split(s[1..], '\n');
             Replace(s[1..], "\n", "\n" + prefix) == Join("\n", [lines[0]] + Prefixed(prefix, lines[1..]))
    ensures var lines := Split(s, '\n');
            Replace(s, "\n", "\n" + prefix) == Join("\n", [lines[0]] + Prefixed(prefix, lines[1..]))
  {
    var rest := Split(s[1..], '\n');
    assert !StartsWith(s, "\n");
    JoinPrefixFirst("\n", [s[0]], rest[0], Prefixed(prefix, rest[1..]));
  }

  /** `indent` is `'\n'.join(prefix + line for line in text.split('\n'))`. */
  lemma IndentIsJoinOfPrefixedLines(text: string, prefix: string)
    ensures Indent(text, prefix) == Join("\n", Prefixed(prefix, Split(text, '\n')))
  {
    var lines := Split(text, '\n');
    ReplaceNewlines(text, prefix);
    JoinPrefixFirst("\n", prefix, lines[0], Prefixed(prefix, lines[1..]));
    assert Prefixed(prefix, lines) == [prefix + lines[0]] + Prefixed(prefix, lines[1..]);
  }

  /** With a one-line prefix, the result has the text's lines, each starting with the prefix. */
  lemma IndentLines(text: string, prefix: string)
    requires '\n' !in prefix
    ensures Split(Indent(text, prefix), '\n') == Prefixed(prefix, Split(text, '\n'))
    ensures |Split(Indent(text, prefix), '\n')| == |Split(text, '\n')|
    ensures forall line :: line in Split(Indent(text, prefix), '\n') ==> StartsWith(line, prefix)
  {
    IndentIsJoinOfPrefixedLines(text, prefix);
    var lines := Prefixed(prefix, Split(text, '\n'));
    forall i | 0 <= i < |lines| ensures '\n' !in lines[i] {
      assert lines[i] == prefix + Split(text, '\n')[i];
    }
    SplitJoin(lines, '\n');
    forall line | line in lines ensures StartsWith(line, prefix) {
      var i :| 0 <= i < |lines| && lines[i] == line;
      assert line[..|prefix|] == prefix;
    }
  }

  /** Removing the prefix from every line of the indented text gives the text back. */
  lemma IndentRoundTrip(text: string, prefix: string)
    requires '\n' !in prefix
    ensures Unindent(Indent(text, prefix), prefix) == text
  {
    IndentLines(text, prefix);
    var orig := Split(text, '\n');
    var lines := Split(Indent(text, prefix), '\n');
    var stripped := seq(|lines|, i requires 0 <= i < |lines| =>
                          if StartsWith(lines[i], prefix) then lines[i][|prefix|..] else lines[i]);
    forall i | 0 <= i < |lines| ensures stripped[i] == orig[i] {
      assert lines[i] == prefix + orig[i];
      assert StartsWith(lines[i], prefix);
    }
    assert stripped == orig;
    JoinSplit(text, '\n');
  }

  // ---------------------------------------------------------------- dedent

  predicate IsBlankChar(c: char) {
    c == ' ' || c == '\t'
  }

  /** A line made only of spaces and tabs (and at least one of them). */
  predicate IsBlankLine(line: string) {
    line != [] && forall i :: 0 <= i < |line| ==> IsBlankChar(line[i])
  }

  /** The leading spaces and tabs of a line. */
  function Leading(line: string): (r: string)
    ensures StartsWith(line, r)
    ensures forall i :: 0 <= i < |r| ==> IsBlankChar(r[i])
    ensures |r| < |line| ==> !IsBlankChar(line[|r|])
  {
    if line != [] && IsBlankChar(line[0]) then [line[0]] + Leading(line[1..]) else []
  }

  function CommonPrefix(a: string, b: string): (r: string)
    ensures StartsWith(a, r) && StartsWith(b, r)
  {
    if a != [] && b != [] && a[0] == b[0] then [a[0]] + CommonPrefix(a[1..], b[1..]) else []
  }

  /** Every common prefix of `a` and `b` is a prefix of `CommonPrefix(a, b)`. */
  lemma {:induction false} CommonPrefixLongest(a: string, b: string, x: string)
    requires StartsWith(a, x) && StartsWith(b, x)
    ensures StartsWith(CommonPrefix(a, b), x)
  {
    if x != [] {
      assert a[0] == x[0] && b[0] == x[0];
      CommonPrefixLongest(a[1..], b[1..], x[1..]);
    }
  }

  /** Lines with a character other than space or tab (after blank lines were emptied). */
  predicate HasContent(line: string) {
    line != [] && !IsBlankLine(line)
  }

  /** The longest run of spaces and tabs that every content line starts with. */
  function Margin(lines: seq<string>): (r: Option<string>)
    ensures r == None <==> forall i :: 0 <= i < |lines| ==> !HasContent(lines[i])
    ensures r.Some? ==> forall i :: 0 <= i < |lines| && HasContent(lines[i]) ==> StartsWith(Leading(lines[i]), r.value)
    ensures r.Some? ==> forall i :: 0 <= i < |r.value| ==> IsBlankChar(r.value[i])
  {
    if lines == [] then None
    else
      var rest := Margin(lines[1..]);
      if !HasContent(lines[0]) then rest
      else if rest == None then Some(Leading(lines[0]))
      else Some(CommonPrefix(Leading(lines[0]), rest.value))
  }

  /** Anything every content line's indent starts with is part of the margin. */
  lemma {:induction false} MarginIsLongest(lines: seq<string>, x: string)
    requires Margin(lines).Some?
    requires forall i :: 0 <= i < |lines| && HasContent(lines[i]) ==> StartsWith(Leading(lines[i]), x)
    ensures StartsWith(Margin(lines).value, x)
  {
    var rest := Margin(lines[1..]);
    if rest.Some? {
      forall i | 0 <= i < |lines[1..]| && HasContent(lines[1..][i])
        ensures StartsWith(Leading(lines[1..][i]), x)
      {
        assert lines[1..][i] == lines[i + 1];
      }
      MarginIsLongest(lines[1..], x);
      if HasContent(lines[0]) {
        assert StartsWith(Leading(lines[0]), x);
        CommonPrefixLongest(Leading(lines[0]), rest.value, x);
      }
    } else {
      assert HasContent(lines[0]);
      assert StartsWith(Leading(lines[0]), x);
    }
  }

  function EmptyBlankLine(line: string): string {
    if IsBlankLine(line) then "" else line
  }

  /** The lines of `text` with blank lines emptied, as `textwrap.dedent` first does. */
  function DedentLines(text: string): (r: seq<string>)
    ensures |r| == |Split(text, '\n')|
  {
    var lines := Split(text, '\n');
    seq(|lines|, i requires 0 <= i < |lines| => EmptyBlankLine(lines[i]))
  }

  function DedentMargin(text: string): string {
    var m := Margin(DedentLines(text));
    if m.Some? then m.value else ""
  }

  /** A line with the margin removed from its front, where it is there. */
  function RemoveMargin(line: string, margin: string): string {
    if StartsWith(line, margin) then line[|margin|..] else line
  }

  function DedentedLines(text: string): (r: seq<string>)
    ensures |r| == |Split(text, '\n')|
  {
    var lines := DedentLines(text);
    var m := DedentMargin(text);
    seq(|lines|, i requires 0 <= i < |lines| => RemoveMargin(lines[i], m))
  }

  /** `textwrap.dedent(text)`: blank lines emptied, the common indent removed. */
  function Dedent(text: string): string {
    Join("\n", DedentedLines(text))
  }

  /** The margin is made of spaces and tabs, and the lines of the result are the dedented lines. */
  lemma DedentSplit(text: string)
    ensures Split(Dedent(text), '\n') == DedentedLines(text)
    ensures forall i :: 0 <= i < |DedentMargin(text)| ==> IsBlankChar(DedentMargin(text)[i])
  {
    var orig := Split(text, '\n');
    var lines := DedentLines(text);
    var outLines := DedentedLines(text);
    forall i | 0 <= i < |outLines| ensures '\n' !in outLines[i] {
      assert '\n' !in orig[i];
      assert '\n' !in lines[i];
    }
    SplitJoin(outLines, '\n');
  }

  /**
   * `dedent` keeps the line structure: a line of only spaces and tabs comes out
   * empty, and every other line loses the same indent, made of spaces and tabs.
   */
  lemma DedentLineByLine(text: string, i: nat)
    requires i < |Split(text, '\n')|
    ensures var out := Split(Dedent(text), '\n');
            var orig := Split(text, '\n')[i];
            var m := DedentMargin(text);
            && |out| == |Split(text, '\n')|
            && (!HasContent(orig) ==> out[i] == "")
            && (HasContent(orig) ==> StartsWith(orig, m) && out[i] == orig[|m|..])
  {
    DedentSplit(text);
    var lines := DedentLines(text);
    var orig := Split(text, '\n')[i];
    if HasContent(orig) {
      assert lines[i] == orig;
      StartsWithTrans(lines[i], Leading(lines[i]), DedentMargin(text));
    }
  }

  /** No space or tab starts every non-blank line of the result: the whole common indent is gone. */
  lemma DedentNoCommonIndent(text: string, c: char)
    requires IsBlankChar(c)
    requires exists i :: 0 <= i < |Split(Dedent(text), '\n')| && HasContent(Split(Dedent(text), '\n')[i])
    ensures exists i :: 0 <= i < |Split(Dedent(text), '\n')| && HasContent(Split(Dedent(text), '\n')[i])
                        && !StartsWith(Split(Dedent(text), '\n')[i], [c])
  {
    DedentSplit(text);
    var lines := DedentLines(text);
    var out := DedentedLines(text);
    var m := DedentMargin(text);
    if forall i :: 0 <= i < |out| && HasContent(out[i]) ==> StartsWith(out[i], [c]) {
      var k :| 0 <= k < |out| && HasContent(out[k]);
      assert HasContent(lines[k]);
      forall i | 0 <= i < |lines| && HasContent(lines[i])
        ensures StartsWith(Leading(lines[i]), m + [c])
      {
        assert out[i] == RemoveMargin(lines[i], m);
        MarginExtends(lines[i], m, c);
      }
      MarginIsLongest(lines, m + [c]);
      assert false;
    }
  }

  /** If a content line still starts with `c` after the margin is removed, its indent goes on with `c`. */
  lemma MarginExtends(line: string, m: string, c: char)
    requires HasContent(line) && StartsWith(Leading(line), m)
    requires forall i :: 0 <= i < |m| ==> IsBlankChar(m[i])
    requires IsBlankChar(c)
    requires HasContent(RemoveMargin(line, m)) ==> StartsWith(RemoveMargin(line, m), [c])
    ensures StartsWith(Leading(line), m + [c])
  {
    StartsWithTrans(line, Leading(line), m);
    RestHasContent(line, m);
    assert RemoveMargin(line, m) == line[|m|..];
    assert line[|m|] == c;
    StartsWithSnoc(line, m);
    LeadingExtends(line, m + [c]);
  }

  /** What follows a prefix of a content line's indent still has content. */
  lemma RestHasContent(line: string, m: string)
    requires HasContent(line) && StartsWith(Leading(line), m)
    ensures |m| < |line| && HasContent(line[|m|..])
  {
    LeadingShort(line);
    var j := |Leading(line)|;
    assert line[|m|..][j - |m|] == line[j];
  }

  /** A content line does not end inside its indent. */
  lemma {:induction false} LeadingShort(line: string)
    requires HasContent(line)
    ensures |Leading(line)| < |line|
  {
    if IsBlankChar(line[0]) {
      var i :| 0 <= i < |line| && !IsBlankChar(line[i]);
      assert line[1..][i - 1] == line[i];
      LeadingShort(line[1..]);
    }
  }

  lemma StartsWithSnoc(s: string, p: string)
    requires StartsWith(s, p) && |p| < |s|
    ensures StartsWith(s, p + [s[|p|]])
  {
    assert s[..|p| + 1] == s[..|p|] + [s[|p|]];
  }

  lemma StartsWithTrans(s: string, a: string, b: string)
    requires StartsWith(s, a) && StartsWith(a, b)
    ensures StartsWith(s, b)
  {
    assert s[..|b|] == a[..|b|];
  }

  /** A blank-only prefix of a line is a prefix of its indent. */
  lemma {:induction false} LeadingExtends(line: string, x: string)
    requires StartsWith(line, x)
    requires forall i :: 0 <= i < |x| ==> IsBlankChar(x[i])
    ensures StartsWith(Leading(line), x)
  {
    if x != [] {
      assert IsBlankChar(line[0]);
      LeadingExtends(line[1..], x[1..]);
    }
  }

  // ---------------------------------------------------------------- codeblock

  predicate IsNewline(c: char) {
    c == '\n'
  }

  /** `c * n` in Python: `n` copies of `c`. */
  function Repeat(c: char, n: nat): (r: string)
    ensures |r| == n && forall i :: 0 <= i < n ==> r[i] == c
  {
    seq(n, i => c)
  }

  /** `codeblock(s)`: the dedented text without its leading and trailing newlines. */
  function Codeblock(blockStr: string): (r: string)
    ensures r == [] || (r[0] != '\n' && r[|r| - 1] != '\n')
    ensures exists a: nat, b: nat :: Dedent(blockStr) == Repeat('\n', a) + r + Repeat('\n', b)
  {
    var d := Dedent(blockStr);
    StripNewlines(d);
    RStripBy(LStripBy(d, IsNewline), IsNewline)
  }

  lemma StripNewlines(d: string)
    ensures var l := LStripBy(d, IsNewline);
            var r := RStripBy(l, IsNewline);
            && (r == [] || (r[0] != '\n' && r[|r| - 1] != '\n'))
            && d == Repeat('\n', |d| - |l|) + r + Repeat('\n', |l| - |r|)
  {
    var l := LStripBy(d, IsNewline);
    var r := RStripBy(l, IsNewline);
    LStripByFacts(d, IsNewline);
    RStripByFacts(l, IsNewline);
    var a := |d| - |l|;
    var b := |l| - |r|;
    assert r == [] || r[0] == l[0];
    var e := Repeat('\n', a) + r + Repeat('\n', b);
    assert |e| == |d|;
    forall k | 0 <= k < |d| ensures d[k] == e[k] {
      if k < a {
        assert IsNewline(d[k]);
      } else if k < a + |r| {
        assert d[k] == l[k - a] == r[k - a];
      } else {
        assert d[k] == l[k - a];
        assert IsNewline(l[k - a]);
      }
    }
  }

  // ---------------------------------------------------------------- add_line_numbers

  /** What `add_line_numbers` accepts and returns: a string or a list of lines. */
  datatype Source = Text(text: string) | Lines(lines: seq<string>)

  /** The smallest `d` with `10^d >= x`: the integer reading of `ceil(log10(x))`. */
  function CeilLog10(x: nat): (d: nat)
    requires x >= 1
    ensures Pow10(d) >= x
    ensures d == 0 || Pow10(d - 1) < x
  {
    if x <= 1 then 0 else 1 + CeilLog10((x + 9) / 10)
  }

  /** `s` right-aligned in a field of `width` characters. */
  function PadLeft(s: string, width: nat): (r: string)
    ensures |s| < width ==> r == Repeat(' ', width - |s|) + s
    ensures |s| >= width ==> r == s
    ensures |s| <= width ==> |r| == width
    ensures EndsWith(r, s)
  {
    if |s| < width then Repeat(' ', width - |s|) + s else s
  }

  /** The width `'{count:{n}d}'` gives for `n_digits = n`: a minus sign reads as the sign option. */
  function FieldWidth(nDigits: int): nat {
    if nDigits < 0 then -nDigits else nDigits
  }

  function NumberedLine(count: int, width: nat, line: string): string {
    PadLeft(IntToStr(count), width) + " " + line
  }

  function NumberLines(lines: seq<string>, start: int, width: nat): (r: seq<string>)
    ensures |r| == |lines|
    ensures forall i :: 0 <= i < |r| ==> r[i] == NumberedLine(start + i, width, lines[i])
  {
    seq(|lines|, i requires 0 <= i < |lines| => NumberedLine(start + i, width, lines[i]))
  }

  function SourceLines(source: Source): seq<string> {
    match source
    case Text(s) => Splitlines(s)
    case Lines(ls) => ls
  }

  /** The default `n_digits`: enough digits for `start + len(lines)`. */
  function DefaultDigits(start: int, n: nat): nat {
    var endline := start + n;
    CeilLog10(if endline < 1 then 1 else endline)
  }

  /** `add_line_numbers(source, start, n_digits)` */
  function AddLineNumbers(source: Source, start: int, nDigits: Option<int>): (r: Source)
    ensures r.Text? <==> source.Text?
    ensures r.Lines? ==> r.lines == NumberLines(source.lines, start,
                                         FieldWidth(if nDigits.Some? then nDigits.value
                                                    else DefaultDigits(start, |source.lines|)))
    ensures r.Text? ==> r.text == Join("\n", NumberLines(Splitlines(source.text), start,
                                         FieldWidth(if nDigits.Some? then nDigits.value
                                                    else DefaultDigits(start, |Splitlines(source.text)|))))
  {
    var lines := SourceLines(source);
    var width := FieldWidth(if nDigits.Some? then nDigits.value else DefaultDigits(start, |lines|));
    var numbered := NumberLines(lines, start, width);
    if source.Text? then Text(Join("\n", numbered)) else Lines(numbered)
  }

  /**
   * With the default width and counting from a non-negative start, every number
   * fits the width, so each output line is a number column of exactly that width,
   * one space, and the original line.
   */
  lemma AddLineNumbersAligned(lines: seq<string>, start: int, i: nat)
    requires 0 <= start && 2 <= start + |lines|
    requires i < |lines|
    ensures var w := DefaultDigits(start, |lines|);
            var line := AddLineNumbers(Lines(lines), start, None).lines[i];
            && w >= 1
            && |line| == w + 1 + |lines[i]|
            && line[w] == ' '
            && line[w + 1..] == lines[i]
  {
    var w := DefaultDigits(start, |lines|);
    assert Pow10(w) >= 2;
    assert w >= 1;
    NatToStrLength(start + i, w);
    var num := PadLeft(IntToStr(start + i), w);
    assert |num| == w;
    var line := AddLineNumbers(Lines(lines), start, None).lines[i];
    assert line == num + " " + lines[i];
  }

  /** For a string, the lines of the result are the numbered `splitlines()` of the input. */
  lemma AddLineNumbersText(s: string, start: int, nDigits: Option<int>)
    requires Splitlines(s) != []
    ensures var lines := Splitlines(s);
            var w := FieldWidth(if nDigits.Some? then nDigits.value else DefaultDigits(start, |lines|));
            Split(AddLineNumbers(Text(s), start, nDigits).text, '\n') == NumberLines(lines, start, w)
  {
    var lines := Splitlines(s);
    var w := FieldWidth(if nDigits.Some? then nDigits.value else DefaultDigits(start, |lines|));
    var numbered := NumberLines(lines, start, w);
    forall i | 0 <= i < |numbered| ensures '\n' !in numbered[i] {
      assert forall j :: 0 <= j < |lines[i]| ==> lines[i][j] != '\n';
      NumberedLineOneLine(start + i, w, lines[i]);
    }
    SplitJoin(numbered, '\n');
  }

  lemma NumberedLineOneLine(count: int, width: nat, line: string)
    requires '\n' !in line
    ensures '\n' !in NumberedLine(count, width, line)
  {
    var digits := IntToStr(count);
    assert '\n' !in digits;
    assert '\n' !in PadLeft(digits, width) by {
      if |digits| < width {
        assert '\n' !in Repeat(' ', width - |digits|);
      }
    }
  }

  // ---------------------------------------------------------------- strip_ansi

  const Esc: char := '\U{1b}'
  const Csi: char := '\U{9b}'

  /** Parameter bytes 0x30-0x3F (section 5.4 of ECMA-48). */
  predicate IsParameterByte(c: char) {
    '0' <= c <= '?'
  }

  /** Intermediate bytes 0x20-0x2F. */
  predicate IsIntermediateByte(c: char) {
    ' ' <= c <= '/'
  }

  /** Final bytes 0x40-0x7E. */
  predicate IsFinalByte(c: char) {
    '@' <= c <= '~'
  }

  /** Length of the control sequence introducer at the start of `s`, or 0. */
  function IntroducerLength(s: string): nat {
    if |s| >= 1 && s[0] == Csi then 1
    else if |s| >= 2 && s[0] == Esc && s[1] == '[' then 2
    else 0
  }

  /** The number of characters from `i` on that satisfy `p`. */
  function RunLength(s: string, i: nat, p: char -> bool): (n: nat)
    requires i <= |s|
    ensures i + n <= |s|
    ensures forall k :: i <= k < i + n ==> p(s[k])
    ensures i + n == |s| || !p(s[i + n])
    decreases |s| - i
  {
    if i < |s| && p(s[i]) then 1 + RunLength(s, i + 1, p) else 0
  }

  /**
   * The length of the control sequence starting at the beginning of `s`, if
   * one does: introducer, parameter bytes, intermediate bytes, one final byte.
   * The three byte classes are disjoint, so the regular expression's greedy
   * repetitions never need to give characters back.
   */
  function SequenceLength(s: string): (r: Option<nat>)
    ensures r.Some? ==> 2 <= r.value <= |s|
  {
    var intro := IntroducerLength(s);
    if intro == 0 then None
    else
      var params := RunLength(s, intro, IsParameterByte);
      var inters := RunLength(s, intro + params, IsIntermediateByte);
      var fin := intro + params + inters;
      if fin < |s| && IsFinalByte(s[fin]) then Some(fin + 1) else None
  }

  /** `strip_ansi(text)`: every control sequence removed, leftmost first, without overlap. */
  function StripAnsi(text: string): (r: string)
    ensures |r| <= |text|
    ensures forall c :: c in r ==> c in text
    decreases |text|
  {
    if text == [] then []
    else
      match SequenceLength(text)
      case Some(n) => StripAnsi(text[n..])
      case None => [text[0]] + StripAnsi(text[1..])
  }

  /** Text without ESC or 0x9B comes back unchanged. */
  lemma {:induction false} StripAnsiPlain(text: string)
    requires Esc !in text && Csi !in text
    ensures StripAnsi(text) == text
  {
    if text != [] {
      StripAnsiPlain(text[1..]);
      assert text == [text[0]] + text[1..];
    }
  }

  /** A plain prefix survives and stripping goes on after it. */
  lemma {:induction false} StripAnsiPlainPrefix(plain: string, rest: string)
    requires Esc !in plain && Csi !in plain
    ensures StripAnsi(plain + rest) == plain + StripAnsi(rest)
  {
    if plain != [] {
      assert plain + rest == [plain[0]] + (plain[1..] + rest);
      StripAnsiPlainHead(plain[0], plain[1..] + rest);
      StripAnsiPlainPrefix(plain[1..], rest);
      assert plain == [plain[0]] + plain[1..];
    } else {
      assert plain + rest == rest;
    }
  }

  lemma StripAnsiPlainHead(c: char, t: string)
    requires c != Esc && c != Csi
    ensures StripAnsi([c] + t) == [c] + StripAnsi(t)
  {
    var s := [c] + t;
    assert s[0] == c && s[1..] == t;
    assert SequenceLength(s) == None;
  }

  /** An ECMA-48 control sequence: introducer, parameters, intermediates, final byte. */
  function ControlSequence(useCsi: bool, params: string, inters: string, final: char): string {
    (if useCsi then [Csi] else [Esc, '[']) + params + inters + [final]
  }

  /** A well-formed control sequence at the front is removed entirely. */
  lemma ControlSequenceRemoved(useCsi: bool, params: string, inters: string, final: char, rest: string)
    requires forall i :: 0 <= i < |params| ==> IsParameterByte(params[i])
    requires forall i :: 0 <= i < |inters| ==> IsIntermediateByte(inters[i])
    requires IsFinalByte(final)
    ensures StripAnsi(ControlSequence(useCsi, params, inters, final) + rest) == StripAnsi(rest)
  {
    var s := ControlSequence(useCsi, params, inters, final) + rest;
    var intro := if useCsi then 1 else 2;
    assert IntroducerLength(s) == intro;
    RunExact(s, intro, |params|, IsParameterByte);
    RunExact(s, intro + |params|, |inters|, IsIntermediateByte);
    assert SequenceLength(s) == Some(intro + |params| + |inters| + 1);
    assert s[intro + |params| + |inters| + 1..] == rest;
  }

  /** A run of exactly `n` characters satisfying `p`, followed by one that does not. */
  lemma RunExact(s: string, i: nat, n: nat, p: char -> bool)
    requires i + n <= |s|
    requires forall k :: i <= k < i + n ==> p(s[k])
    requires i + n == |s| || !p(s[i + n])
    ensures RunLength(s, i, p) == n
  {
    var m := RunLength(s, i, p);
  }
}
