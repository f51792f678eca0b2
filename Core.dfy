/**
 * Grouping of parsed docstring parts into doctest examples (freeform,
 * google and auto styles), the style dispatch with its exception filter,
 * and the walk over the callables of a module.
 *
 * The line-level doctest parser, the google block splitter and the
 * example's own parse step are not modelled: their results are inputs.
 */
module Core {
  import opened Wrappers
  import opened PyStr
  import UtilStr

  // ---------------------------------------------------------------------------
  // Parser output and examples
  // ---------------------------------------------------------------------------

  /** A doctest part as the line parser produces it. */
  datatype DoctestPart = DoctestPart(origLines: seq<string>, want: Option<string>, nLines: nat, lineOffset: int)

  /** The parser yields plain text and doctest parts in textual order. */
  datatype Part = Text(text: string) | Doctest(d: DoctestPart)

  /** A `DocTest` as the core builds it; `blockType` is `None` for freeform examples. */
  datatype Example = Example(
    docsrc: string,
    callname: string,
    num: nat,
    lineno: int,
    parts: seq<DoctestPart>,
    blockType: Option<string>)

  /** How many docstring lines a part spans. */
  function PartLines(p: Part): nat {
    match p
    case Text(t) => Count(t, '\n') + 1
    case Doctest(d) => d.nLines
  }

  function TotalLines(parts: seq<Part>): nat {
    if parts == [] then 0 else TotalLines(parts[..|parts| - 1]) + PartLines(parts[|parts| - 1])
  }

  function SumLines(ds: seq<DoctestPart>): nat {
    if ds == [] then 0 else SumLines(ds[..|ds| - 1]) + ds[|ds| - 1].nLines
  }

  lemma SumLinesAppend(ds: seq<DoctestPart>, d: DoctestPart)
    ensures SumLines(ds + [d]) == SumLines(ds) + d.nLines
  {
    assert (ds + [d])[..|ds|] == ds;
  }

  // ---------------------------------------------------------------------------
  // Skip labels
  // ---------------------------------------------------------------------------

  /** The google headers that disable the doctests after them, lower-cased. */
  const SkipLabels: seq<string> :=
    ["disabledoctest:", "disableexample:", "skipdoctest:", "ignore:", "script:", "benchmark:", "sympy:"]

  /** `s.endswith(tuple(labels))` */
  predicate EndsWithAny(s: string, labels: seq<string>) {
    labels != [] && (EndsWith(s, labels[0]) || EndsWithAny(s, labels[1..]))
  }

  /** A text part whose stripped, lower-cased form ends with a skip label. */
  predicate StartsSkip(text: string) {
    EndsWithAny(Lower(Strip(text)), SkipLabels)
  }

  /** `_start_ignoring(prev)`: the previous part is text ending in a skip label. */
  predicate StartIgnoring(prev: Option<Part>) {
    prev.Some? && prev.value.Text? && StartsSkip(prev.value.text)
  }

  // ---------------------------------------------------------------------------
  // Reference grouping: split at text parts, drop skipped segments
  // ---------------------------------------------------------------------------

  /**
   * The doctest parts between two text parts: the text before them (`None`
   * for the run before the first text), whether that text disables them,
   * and the number of docstring lines before the segment.
   */
  datatype Seg = Seg(prev: Option<string>, skip: bool, items: seq<DoctestPart>, offset: nat)

  /**
   * The parts cut at every text part: one segment per text part, plus the
   * leading one. `skip` decides which texts disable the doctests after them.
   */
  function Segments(parts: seq<Part>, skip: string -> bool): (r: seq<Seg>)
    ensures |r| >= 1
  {
    if parts == [] then [Seg(None, false, [], 0)]
    else
      var segs := Segments(parts[..|parts| - 1], skip);
      var last := segs[|segs| - 1];
      match parts[|parts| - 1]
      case Text(t) => segs + [Seg(Some(t), skip(t), [], TotalLines(parts))]
      case Doctest(d) => segs[..|segs| - 1] + [last.(items := last.items + [d])]
  }

  /** The last segment: opened by the last text part, or extended by the last doctest part. */
  lemma SegmentsLast(parts: seq<Part>, skip: string -> bool)
    ensures var r := Segments(parts, skip);
            && (parts == [] ==> r[|r| - 1] == Seg(None, false, [], 0))
            && (parts != [] && parts[|parts| - 1].Text? ==>
                  var t := parts[|parts| - 1].text;
                  r[|r| - 1] == Seg(Some(t), skip(t), [], TotalLines(parts)))
            && (parts != [] && parts[|parts| - 1].Doctest? ==> r[|r| - 1].items != [])
  {
  }

  /** The doctest parts that make up one example, and the lines before them. */
  datatype Group = Group(items: seq<DoctestPart>, offset: nat)

  /** `asone=False`: one group per non-empty, non-skipped segment. */
  function Runs(segs: seq<Seg>): (r: seq<Group>)
    ensures |r| <= |segs|
    ensures forall k :: 0 <= k < |r| ==> r[k].items != []
  {
    if segs == [] then []
    else
      var last := segs[|segs| - 1];
      Runs(segs[..|segs| - 1]) + (if !last.skip && last.items != [] then [Group(last.items, last.offset)] else [])
  }

  /** `asone=True`: the parts of every non-skipped segment, lumped together. */
  function Lumped(segs: seq<Seg>): Group {
    if segs == [] then Group([], 0)
    else
      var g := Lumped(segs[..|segs| - 1]);
      var last := segs[|segs| - 1];
      if last.skip || last.items == [] then g
      else if g.items == [] then Group(last.items, last.offset)
      else Group(g.items + last.items, g.offset)
  }

  function GroupsOf(segs: seq<Seg>, asone: bool): (r: seq<Group>)
    ensures asone ==> |r| <= 1
    ensures forall k :: 0 <= k < |r| ==> r[k].items != []
  {
    if asone then (var g := Lumped(segs); if g.items == [] then [] else [g])
    else Runs(segs)
  }

  /** The groups that become examples, with the skip labels of the source. */
  function Groups(parts: seq<Part>, asone: bool): (r: seq<Group>)
    ensures asone ==> |r| <= 1
    ensures forall k :: 0 <= k < |r| ==> r[k].items != []
  {
    GroupsOf(Segments(parts, StartsSkip), asone)
  }

  // ---------------------------------------------------------------------------
  // Building an example from a group
  // ---------------------------------------------------------------------------

  /** The source lines a part contributes: its lines, then its expected output. */
  function PartSource(p: DoctestPart): seq<string> {
    if p.want.None? then p.origLines else p.origLines + Splitlines(p.want.value)
  }

  function FlattenSources(ds: seq<DoctestPart>): seq<string> {
    if ds == [] then [] else PartSource(ds[0]) + FlattenSources(ds[1..])
  }

  /** The parts with their line offsets shifted so that the first is 0. */
  function Rebase(ds: seq<DoctestPart>): (r: seq<DoctestPart>)
    ensures |r| == |ds| && (ds != [] ==> r[0].lineOffset == 0)
    ensures forall j, k :: 0 <= j < |r| && 0 <= k < |r| ==>
              r[j].lineOffset - r[k].lineOffset == ds[j].lineOffset - ds[k].lineOffset
    ensures forall j :: 0 <= j < |r| ==>
              r[j].origLines == ds[j].origLines && r[j].want == ds[j].want && r[j].nLines == ds[j].nLines
  {
    if ds == [] then []
    else seq(|ds|, j requires 0 <= j < |ds| => ds[j].(lineOffset := ds[j].lineOffset - ds[0].lineOffset))
  }

  /**
   * `doctest_from_parts`: the example's source is the dedented join of the
   * parts' lines and expected outputs.
   */
  function DoctestFromParts(g: Group, num: nat, callname: string, lineno: int): Example {
    Example(UtilStr.Dedent(Join("\n", FlattenSources(g.items))), callname, num, lineno + g.offset,
            Rebase(g.items), None)
  }

  /** The groups turned into examples numbered 0, 1, 2, ... */
  function FromGroups(gs: seq<Group>, callname: string, lineno: int): (r: seq<Example>)
    ensures |r| == |gs|
    ensures forall k :: 0 <= k < |r| ==> r[k] == DoctestFromParts(gs[k], k, callname, lineno)
  {
    seq(|gs|, k requires 0 <= k < |gs| => DoctestFromParts(gs[k], k, callname, lineno))
  }

  /** `parse_freeform_docstr_examples`, given what the line parser returns. */
  function Freeform(parsed: Result<seq<Part>>, callname: string, lineno: int, asone: bool): (r: Stream<Example>)
    ensures parsed.Err? ==> r == Stream([], Some(parsed.error))
    ensures parsed.Ok? ==> r.error == None
    ensures asone ==> |r.items| <= 1
    ensures forall k :: 0 <= k < |r.items| ==> r.items[k].num == k && r.items[k].blockType == None
  {
    match parsed
    case Err(e) => Stream([], Some(e))
    case Ok(parts) => Stream(FromGroups(Groups(parts, asone), callname, lineno), None)
  }

  // ---------------------------------------------------------------------------
  // The freeform loop
  // ---------------------------------------------------------------------------

  /** The loop's variables other than the examples already built. */
  datatype Acc = Acc(done: seq<Group>, curr: seq<DoctestPart>, offset: nat, ignoring: bool)

  /** After the loop has read `parts`, its variables agree with the reference grouping. */
  ghost predicate Tracks(parts: seq<Part>, skip: string -> bool, asone: bool, a: Acc) {
    var segs := Segments(parts, skip);
    var last := segs[|segs| - 1];
    && a.ignoring == (last.skip && last.items != [])
    && (a.curr == [] ==> a.offset == TotalLines(parts))
    && (if asone then TracksOne(segs, a) else TracksRuns(segs, a))
  }

  /** `asone=False`: the finished runs are emitted, the last segment's parts are pending. */
  ghost predicate TracksRuns(segs: seq<Seg>, a: Acc)
    requires segs != []
  {
    var last := segs[|segs| - 1];
    && a.done == Runs(segs[..|segs| - 1])
    && a.curr == (if last.skip then [] else last.items)
    && (a.curr != [] ==> a.offset == last.offset)
  }

  /** `asone=True`: nothing is emitted, every enabled part so far is pending. */
  ghost predicate TracksOne(segs: seq<Seg>, a: Acc) {
    && a.done == []
    && a.curr == Lumped(segs).items
    && (a.curr != [] ==> a.offset == Lumped(segs).offset)
  }

  lemma TracksStart(skip: string -> bool, asone: bool)
    ensures Tracks([], skip, asone, Acc([], [], 0, false))
  {
    assert Segments([], skip)[..0] == [];
  }

  /** The segments after a text part: a new, empty one opened by that text. */
  lemma SegmentsText(parts: seq<Part>, skip: string -> bool, t: string)
    ensures var segs := Segments(parts, skip);
            var segs' := Segments(parts + [Text(t)], skip);
            && segs' == segs + [Seg(Some(t), skip(t), [], TotalLines(parts + [Text(t)]))]
            && segs'[..|segs'| - 1] == segs
            && TotalLines(parts + [Text(t)]) == TotalLines(parts) + Count(t, '\n') + 1
  {
    var parts' := parts + [Text(t)];
    assert parts'[..|parts|] == parts;
  }

  /** The pending parts and their offset account for every line read so far. */
  lemma PendingLines(parts: seq<Part>, skip: string -> bool, a: Acc)
    requires Tracks(parts, skip, false, a)
    ensures a.offset + SumLines(a.curr) == TotalLines(parts)
  {
    SegmentsLines(parts, skip);
  }

  /** A text part ends the current run and emits it (`asone=False`). */
  lemma TracksTextRuns(parts: seq<Part>, skip: string -> bool, a: Acc, t: string)
    requires Tracks(parts, skip, false, a)
    ensures Tracks(parts + [Text(t)], skip, false,
                   Acc(a.done + (if a.curr != [] then [Group(a.curr, a.offset)] else []), [],
                       a.offset + SumLines(a.curr) + Count(t, '\n') + 1, false))
  {
    SegmentsText(parts, skip, t);
    PendingLines(parts, skip, a);
    var segs := Segments(parts, skip);
    assert segs == segs[..|segs| - 1] + [segs[|segs| - 1]];
  }

  /** A text part only stops ignoring (`asone=True`). */
  lemma TracksTextOne(parts: seq<Part>, skip: string -> bool, a: Acc, t: string)
    requires Tracks(parts, skip, true, a)
    ensures Tracks(parts + [Text(t)], skip, true,
                   Acc([], a.curr, if a.curr == [] then a.offset + Count(t, '\n') + 1 else a.offset, false))
  {
    SegmentsText(parts, skip, t);
  }

  /** Whether the loop ignores the next doctest part is whether the last segment is disabled. */
  lemma IgnoreDecision(parts: seq<Part>, skip: string -> bool, asone: bool, a: Acc)
    requires Tracks(parts, skip, asone, a)
    ensures var segs := Segments(parts, skip);
            (a.ignoring || (parts != [] && parts[|parts| - 1].Text? && skip(parts[|parts| - 1].text)))
            == segs[|segs| - 1].skip
  {
    SegmentsLast(parts, skip);
    var segs := Segments(parts, skip);
    var last := segs[|segs| - 1];
    if parts != [] && parts[|parts| - 1].Text? {
      assert last.items == [];
    }
  }

  /** The segments after a doctest part: the last one grows by that part. */
  lemma SegmentsDoctest(parts: seq<Part>, skip: string -> bool, d: DoctestPart)
    ensures var segs := Segments(parts, skip);
            var segs' := Segments(parts + [Doctest(d)], skip);
            var last := segs[|segs| - 1];
            segs' == segs[..|segs| - 1] + [last.(items := last.items + [d])]
            && segs'[..|segs'| - 1] == segs[..|segs| - 1]
            && TotalLines(parts + [Doctest(d)]) == TotalLines(parts) + d.nLines
  {
    var parts' := parts + [Doctest(d)];
    assert parts'[..|parts|] == parts;
  }

  /** A doctest part in a disabled segment is ignored (`asone=False`). */
  lemma TracksIgnoredRuns(parts: seq<Part>, skip: string -> bool, a: Acc, d: DoctestPart)
    requires Tracks(parts, skip, false, a)
    requires var segs := Segments(parts, skip); segs[|segs| - 1].skip
    ensures Tracks(parts + [Doctest(d)], skip, false, Acc(a.done, a.curr, a.offset + d.nLines, true))
  {
    SegmentsDoctest(parts, skip, d);
  }

  /** A doctest part in a disabled segment is ignored (`asone=True`). */
  lemma TracksIgnoredOne(parts: seq<Part>, skip: string -> bool, a: Acc, d: DoctestPart)
    requires Tracks(parts, skip, true, a)
    requires var segs := Segments(parts, skip); segs[|segs| - 1].skip
    ensures Tracks(parts + [Doctest(d)], skip, true,
                   Acc(a.done, a.curr, if a.curr != [] then a.offset else a.offset + d.nLines, true))
  {
    SegmentsDoctest(parts, skip, d);
    var segs := Segments(parts, skip);
    var segs' := Segments(parts + [Doctest(d)], skip);
    assert segs'[|segs'| - 1].skip;
    assert Lumped(segs') == Lumped(segs[..|segs| - 1]);
    assert Lumped(segs) == Lumped(segs[..|segs| - 1]);
  }

  /** Any other doctest part joins the current run (`asone=False`). */
  lemma TracksJoinedRuns(parts: seq<Part>, skip: string -> bool, a: Acc, d: DoctestPart)
    requires Tracks(parts, skip, false, a)
    requires var segs := Segments(parts, skip); !segs[|segs| - 1].skip
    ensures Tracks(parts + [Doctest(d)], skip, false, Acc(a.done, a.curr + [d], a.offset, a.ignoring))
  {
    SegmentsDoctest(parts, skip, d);
    SegmentsLines(parts, skip);
  }

  /** Any other doctest part joins the current run (`asone=True`). */
  lemma TracksJoinedOne(parts: seq<Part>, skip: string -> bool, a: Acc, d: DoctestPart)
    requires Tracks(parts, skip, true, a)
    requires var segs := Segments(parts, skip); !segs[|segs| - 1].skip
    ensures Tracks(parts + [Doctest(d)], skip, true, Acc(a.done, a.curr + [d], a.offset, a.ignoring))
  {
    SegmentsDoctest(parts, skip, d);
    SegmentsLines(parts, skip);
    var segs := Segments(parts, skip);
    var init, last := segs[..|segs| - 1], segs[|segs| - 1];
    assert segs == init + [last];
    LumpedGrow(init, last, d);
  }

  /** Growing an enabled last segment by `d` grows the lumped group by `d`. */
  lemma LumpedGrow(init: seq<Seg>, last: Seg, d: DoctestPart)
    requires !last.skip
    ensures var g := Lumped(init + [last]);
            var g' := Lumped(init + [last.(items := last.items + [d])]);
            && g'.items == g.items + [d]
            && (g.items != [] ==> g'.offset == g.offset)
            && (g.items == [] ==> g'.offset == last.offset)
  {
    var last' := last.(items := last.items + [d]);
    assert (init + [last])[..|init|] == init;
    assert (init + [last'])[..|init|] == init;
    var g := Lumped(init);
    if g.items != [] {
      assert g.items + (last.items + [d]) == (g.items + last.items) + [d];
    }
  }

  /** When the loop ends, the pending run is the last group. */
  lemma TracksEnd(parts: seq<Part>, skip: string -> bool, asone: bool, a: Acc)
    requires Tracks(parts, skip, asone, a)
    ensures GroupsOf(Segments(parts, skip), asone) == a.done + (if a.curr != [] then [Group(a.curr, a.offset)] else [])
  {
  }

  lemma FromGroupsSnoc(gs: seq<Group>, g: Group, callname: string, lineno: int)
    ensures FromGroups(gs + [g], callname, lineno) == FromGroups(gs, callname, lineno) + [DoctestFromParts(g, |gs|, callname, lineno)]
  {
    assert (gs + [g])[..|gs|] == gs;
  }

  /** One pass of the loop body over part `p`, `prev` being the part before it. */
  ghost function Step(a: Acc, p: Part, prev: Option<Part>, asone: bool, skip: string -> bool): Acc {
    match p
    case Text(t) =>
      if asone then Acc([], a.curr, if a.curr == [] then a.offset + Count(t, '\n') + 1 else a.offset, false)
      else Acc(a.done + (if a.curr != [] then [Group(a.curr, a.offset)] else []), [],
               a.offset + SumLines(a.curr) + Count(t, '\n') + 1, false)
    case Doctest(d) =>
      if a.ignoring || (prev.Some? && prev.value.Text? && skip(prev.value.text)) then
        Acc(a.done, a.curr, if asone && a.curr != [] then a.offset else a.offset + d.nLines, true)
      else Acc(a.done, a.curr + [d], a.offset, a.ignoring)
  }

  /** The loop's variables after it has read the first `n` parts. */
  ghost function Scan(parts: seq<Part>, n: nat, asone: bool, skip: string -> bool): Acc
    requires n <= |parts|
  {
    if n == 0 then Acc([], [], 0, false)
    else Step(Scan(parts, n - 1, asone, skip), parts[n - 1], if n == 1 then None else Some(parts[n - 2]), asone, skip)
  }

  /** Each pass of the loop body keeps the variables in step with the reference grouping. */
  lemma TracksSnoc(pre: seq<Part>, p: Part, asone: bool, skip: string -> bool, a: Acc)
    requires Tracks(pre, skip, asone, a)
    ensures Tracks(pre + [p], skip, asone, Step(a, p, if pre == [] then None else Some(pre[|pre| - 1]), asone, skip))
  {
    match p
    case Text(t) => TracksSnocText(pre, t, asone, skip, a);
    case Doctest(d) => TracksSnocDoctest(pre, d, asone, skip, a);
  }

  lemma TracksSnocText(pre: seq<Part>, t: string, asone: bool, skip: string -> bool, a: Acc)
    requires Tracks(pre, skip, asone, a)
    ensures Tracks(pre + [Text(t)], skip, asone, Step(a, Text(t), if pre == [] then None else Some(pre[|pre| - 1]), asone, skip))
  {
    if asone {
      TracksTextOne(pre, skip, a, t);
    } else {
      TracksTextRuns(pre, skip, a, t);
    }
  }

  lemma TracksSnocDoctest(pre: seq<Part>, d: DoctestPart, asone: bool, skip: string -> bool, a: Acc)
    requires Tracks(pre, skip, asone, a)
    ensures Tracks(pre + [Doctest(d)], skip, asone, Step(a, Doctest(d), if pre == [] then None else Some(pre[|pre| - 1]), asone, skip))
  {
    IgnoreDecision(pre, skip, asone, a);
    var segs := Segments(pre, skip);
    if segs[|segs| - 1].skip {
      if asone {
        TracksIgnoredOne(pre, skip, a, d);
      } else {
        TracksIgnoredRuns(pre, skip, a, d);
      }
    } else {
      if asone {
        TracksJoinedOne(pre, skip, a, d);
      } else {
        TracksJoinedRuns(pre, skip, a, d);
      }
    }
  }

  lemma TracksStep(parts: seq<Part>, i: nat, asone: bool, skip: string -> bool, a: Acc)
    requires i < |parts|
    requires Tracks(parts[..i], skip, asone, a)
    ensures Tracks(parts[..i + 1], skip, asone, Step(a, parts[i], if i == 0 then None else Some(parts[i - 1]), asone, skip))
  {
    TakeSnoc(parts, i);
    if i > 0 {
      assert parts[..i][i - 1] == parts[i - 1];
    }
    TracksSnoc(parts[..i], parts[i], asone, skip, a);
  }

  lemma {:induction false} ScanTracks(parts: seq<Part>, n: nat, asone: bool, skip: string -> bool)
    requires n <= |parts|
    ensures Tracks(parts[..n], skip, asone, Scan(parts, n, asone, skip))
  {
    if n == 0 {
      TracksStart(skip, asone);
    } else {
      ScanTracks(parts, n - 1, asone, skip);
      TracksStep(parts, n - 1, asone, skip, Scan(parts, n - 1, asone, skip));
    }
  }

  lemma ScanNext(parts: seq<Part>, i: nat, asone: bool, skip: string -> bool)
    requires i < |parts|
    ensures Scan(parts, i + 1, asone, skip) == Step(Scan(parts, i, asone, skip), parts[i], if i == 0 then None else Some(parts[i - 1]), asone, skip)
  {
  }

  /** The groups the loop has built once the pending run is flushed. */
  ghost function Flush(a: Acc): seq<Group> {
    a.done + (if a.curr != [] then [Group(a.curr, a.offset)] else [])
  }

  /** Scanning every part and flushing gives the reference grouping. */
  lemma ScanGroupsOf(parts: seq<Part>, asone: bool, skip: string -> bool)
    ensures GroupsOf(Segments(parts, skip), asone) == Flush(Scan(parts, |parts|, asone, skip))
  {
    TakeAll(parts);
    ScanTracks(parts, |parts|, asone, skip);
    TracksEnd(parts, skip, asone, Scan(parts, |parts|, asone, skip));
  }

  lemma ScanGroups(parts: seq<Part>, asone: bool)
    ensures Groups(parts, asone) == Flush(Scan(parts, |parts|, asone, StartsSkip))
  {
    ScanGroupsOf(parts, asone, StartsSkip);
  }

  lemma DropAppend<T>(a: seq<T>, b: seq<T>)
    requires a != []
    ensures (a + b)[0] == a[0] && (a + b)[1..] == a[1..] + b
  {
  }

  lemma TakeSnoc<T>(s: seq<T>, i: nat)
    requires i < |s|
    ensures s[..i + 1] == s[..i] + [s[i]]
  {
  }

  lemma TakeAll<T>(s: seq<T>)
    ensures s[..|s|] == s
  {
  }

  /** One pass of the loop of `parse_freeform_docstr_examples` over `part`: the variables move as `Step` says. */
  method FreeformPart(part: Part, prevPart: Option<Part>, asone: bool, callname: string, lineno: int,
                      examples: seq<Example>, currParts: seq<DoctestPart>, currOffset: nat, num: nat,
                      ignoring: bool, ghost done: seq<Group>)
    returns (examples': seq<Example>, currParts': seq<DoctestPart>, currOffset': nat, num': nat,
             ignoring': bool, ghost done': seq<Group>)
    requires asone ==> done == []
    requires examples == FromGroups(done, callname, lineno) && num == |done|
    ensures asone ==> done' == []
    ensures examples' == FromGroups(done', callname, lineno) && num' == |done'|
    ensures Acc(done', currParts', currOffset', ignoring')
            == Step(Acc(done, currParts, currOffset, ignoring), part, prevPart, asone, StartsSkip)
  {
    examples', currParts', currOffset', num', ignoring', done' := examples, currParts, currOffset, num, ignoring, done;
    match part {
      case Text(t) =>
        if asone {
          if currParts' == [] {
            currOffset' := currOffset' + Count(t, '\n') + 1;
          }
        } else {
          if currParts' != [] {
            var example := DoctestFromParts(Group(currParts', currOffset'), num', callname, lineno);
            FromGroupsSnoc(done', Group(currParts', currOffset'), callname, lineno);
            examples' := examples' + [example];
            done' := done' + [Group(currParts', currOffset')];
            currOffset' := currOffset' + SumLines(currParts');
            num' := num' + 1;
            currParts' := [];
          }
          currOffset' := currOffset' + Count(t, '\n') + 1;
        }
        ignoring' := false;
      case Doctest(d) =>
        if ignoring' || StartIgnoring(prevPart) {
          ignoring' := true;
          if asone {
            if currParts' == [] {
              currOffset' := currOffset' + d.nLines;
            }
          } else {
            currOffset' := currOffset' + d.nLines;
          }
        } else {
          currParts' := currParts' + [d];
        }
    }
  }

  /** The loop of `parse_freeform_docstr_examples`, proved to build the reference grouping. */
  method ParseFreeform(parsed: Result<seq<Part>>, callname: string, lineno: int, asone: bool)
    returns (s: Stream<Example>)
    ensures s == Freeform(parsed, callname, lineno, asone)
  {
    if parsed.Err? {
      return Stream([], Some(parsed.error));
    }
    var parts := parsed.value;
    var examples: seq<Example> := [];
    var currParts: seq<DoctestPart> := [];
    var currOffset: nat := 0;
    var num: nat := 0;
    var prevPart: Option<Part> := None;
    var ignoring := false;
    ghost var done: seq<Group> := [];
    var i := 0;
    while i < |parts|
      invariant 0 <= i <= |parts|
      invariant prevPart == (if i == 0 then None else Some(parts[i - 1]))
      invariant asone ==> done == []
      invariant examples == FromGroups(done, callname, lineno) && num == |done|
      invariant Acc(done, currParts, currOffset, ignoring) == Scan(parts, i, asone, StartsSkip)
    {
      ScanNext(parts, i, asone, StartsSkip);
      examples, currParts, currOffset, num, ignoring, done :=
        FreeformPart(parts[i], prevPart, asone, callname, lineno, examples, currParts, currOffset, num, ignoring, done);
      prevPart := Some(parts[i]);
      i := i + 1;
    }
    FreeformFlush(parts, callname, lineno, asone, Acc(done, currParts, currOffset, ignoring));
    if currParts != [] {
      var example := DoctestFromParts(Group(currParts, currOffset), num, callname, lineno);
      examples := examples + [example];
    }
    return Stream(examples, None);
  }

  /** After the last part, flushing the pending run yields the reference result. */
  lemma FreeformFlush(parts: seq<Part>, callname: string, lineno: int, asone: bool, a: Acc)
    requires a == Scan(parts, |parts|, asone, StartsSkip)
    ensures Freeform(Ok(parts), callname, lineno, asone)
            == Stream(FromGroups(a.done, callname, lineno)
                      + (if a.curr != [] then [DoctestFromParts(Group(a.curr, a.offset), |a.done|, callname, lineno)] else []),
                      None)
  {
    ScanGroups(parts, asone);
    if a.curr != [] {
      FromGroupsSnoc(a.done, Group(a.curr, a.offset), callname, lineno);
    }
  }

  // ---------------------------------------------------------------------------
  // Properties of the freeform grouping
  // ---------------------------------------------------------------------------

  /** The last segment starts where the lines of its doctest parts end the docstring prefix. */
  lemma {:induction false} SegmentsLines(parts: seq<Part>, skip: string -> bool)
    ensures var segs := Segments(parts, skip);
            segs[|segs| - 1].offset + SumLines(segs[|segs| - 1].items) == TotalLines(parts)
  {
    if parts != [] {
      var init := parts[..|parts| - 1];
      SegmentsLines(init, skip);
      var segs := Segments(init, skip);
      var last := segs[|segs| - 1];
      if parts[|parts| - 1].Doctest? {
        SumLinesAppend(last.items, parts[|parts| - 1].d);
      }
    }
  }

  /** All doctest parts, in order. */
  function DoctestsOf(parts: seq<Part>): seq<DoctestPart> {
    if parts == [] then []
    else DoctestsOf(parts[..|parts| - 1]) + (if parts[|parts| - 1].Doctest? then [parts[|parts| - 1].d] else [])
  }

  function TextCount(parts: seq<Part>): nat {
    if parts == [] then 0 else TextCount(parts[..|parts| - 1]) + (if parts[|parts| - 1].Text? then 1 else 0)
  }

  function ConcatItems(segs: seq<Seg>): seq<DoctestPart> {
    if segs == [] then [] else ConcatItems(segs[..|segs| - 1]) + segs[|segs| - 1].items
  }

  lemma ConcatItemsReplaceLast(segs: seq<Seg>, s: Seg)
    requires segs != []
    ensures ConcatItems(segs[..|segs| - 1] + [s]) == ConcatItems(segs[..|segs| - 1]) + s.items
  {
    assert (segs[..|segs| - 1] + [s])[..|segs| - 1] == segs[..|segs| - 1];
  }

  /** The segments partition the doctest parts: one per text part plus one, in order, nothing lost. */
  lemma {:induction false} SegmentsPartition(parts: seq<Part>, skip: string -> bool)
    ensures |Segments(parts, skip)| == TextCount(parts) + 1
    ensures ConcatItems(Segments(parts, skip)) == DoctestsOf(parts)
  {
    if parts != [] {
      var init := parts[..|parts| - 1];
      SegmentsPartition(init, skip);
      var segs := Segments(init, skip);
      var last := segs[|segs| - 1];
      match parts[|parts| - 1]
      case Text(t) =>
        assert (segs + [Seg(Some(t), skip(t), [], TotalLines(parts))])[..|segs|] == segs;
      case Doctest(d) =>
        ConcatItemsReplaceLast(segs, last.(items := last.items + [d]));
        assert segs == segs[..|segs| - 1] + [last];
        ConcatItemsReplaceLast(segs, last);
    }
  }

  /** The text of the last text part in `parts`, if any. */
  function LastText(parts: seq<Part>): Option<string> {
    if parts == [] then None
    else if parts[|parts| - 1].Text? then Some(parts[|parts| - 1].text)
    else LastText(parts[..|parts| - 1])
  }

  /**
   * The doctest parts that are run: a doctest part is dropped exactly when
   * the nearest text part before it is disabling.
   */
  function KeptDoctests(parts: seq<Part>, skip: string -> bool): seq<DoctestPart> {
    if parts == [] then []
    else
      var init := parts[..|parts| - 1];
      var p := parts[|parts| - 1];
      KeptDoctests(init, skip) + (if p.Doctest? && !(LastText(init).Some? && skip(LastText(init).value)) then [p.d] else [])
  }

  function ConcatGroups(gs: seq<Group>): seq<DoctestPart> {
    if gs == [] then [] else ConcatGroups(gs[..|gs| - 1]) + gs[|gs| - 1].items
  }

  function KeptItems(segs: seq<Seg>): seq<DoctestPart> {
    if segs == [] then []
    else KeptItems(segs[..|segs| - 1]) + (if segs[|segs| - 1].skip then [] else segs[|segs| - 1].items)
  }

  lemma {:induction false} RunsAreKeptItems(segs: seq<Seg>)
    ensures ConcatGroups(Runs(segs)) == KeptItems(segs)
  {
    if segs != [] {
      RunsAreKeptItems(segs[..|segs| - 1]);
      var last := segs[|segs| - 1];
      var rs := Runs(segs[..|segs| - 1]);
      if !last.skip && last.items != [] {
        assert (rs + [Group(last.items, last.offset)])[..|rs|] == rs;
      } else {
        assert rs + [] == rs;
      }
    }
  }

  lemma {:induction false} LastSegTracksParts(parts: seq<Part>, skip: string -> bool)
    ensures var segs := Segments(parts, skip);
            segs[|segs| - 1].prev == LastText(parts) &&
            segs[|segs| - 1].skip == (LastText(parts).Some? && skip(LastText(parts).value))
  {
    if parts != [] {
      var init := parts[..|parts| - 1];
      LastSegTracksParts(init, skip);
    }
  }

  lemma KeptItemsReplaceLast(segs: seq<Seg>, s: Seg)
    requires segs != []
    ensures KeptItems(segs[..|segs| - 1] + [s]) == KeptItems(segs[..|segs| - 1]) + (if s.skip then [] else s.items)
  {
    assert (segs[..|segs| - 1] + [s])[..|segs| - 1] == segs[..|segs| - 1];
  }

  lemma {:induction false} KeptItemsTracksParts(parts: seq<Part>, skip: string -> bool)
    ensures KeptItems(Segments(parts, skip)) == KeptDoctests(parts, skip)
  {
    if parts != [] {
      var init := parts[..|parts| - 1];
      KeptItemsTracksParts(init, skip);
      LastSegTracksParts(init, skip);
      var segs := Segments(init, skip);
      var last := segs[|segs| - 1];
      match parts[|parts| - 1]
      case Text(t) =>
        var s' := Seg(Some(t), skip(t), [], TotalLines(parts));
        assert Segments(parts, skip) == segs + [s'];
        assert (segs + [s'])[..|segs|] == segs;
        assert KeptItems(segs + [s']) == KeptItems(segs) + [];
      case Doctest(d) =>
        var last' := last.(items := last.items + [d]);
        assert Segments(parts, skip) == segs[..|segs| - 1] + [last'];
        KeptItemsReplaceLast(segs, last');
        assert KeptItems(segs) == KeptItems(segs[..|segs| - 1]) + (if last.skip then [] else last.items);
        var pre := KeptItems(segs[..|segs| - 1]);
        if !last.skip {
          assert pre + (last.items + [d]) == (pre + last.items) + [d];
        }
    }
  }

  /** With `asone=False`, the examples together hold exactly the doctest parts not behind a skip label. */
  lemma RunsHoldKeptDoctests(parts: seq<Part>)
    ensures ConcatGroups(Groups(parts, false)) == KeptDoctests(parts, StartsSkip)
  {
    RunsAreKeptItems(Segments(parts, StartsSkip));
    KeptItemsTracksParts(parts, StartsSkip);
  }

  /** Without disabling texts nothing is dropped. */
  lemma {:induction false} NoSkipKeepsAll(parts: seq<Part>, skip: string -> bool)
    requires forall k :: 0 <= k < |parts| && parts[k].Text? ==> !skip(parts[k].text)
    ensures KeptDoctests(parts, skip) == DoctestsOf(parts)
  {
    if parts != [] {
      var init := parts[..|parts| - 1];
      NoSkipKeepsAll(init, skip);
      LastTextIsAText(init);
    }
  }

  lemma {:induction false} LastTextIsAText(parts: seq<Part>)
    ensures LastText(parts).Some? ==> exists k :: 0 <= k < |parts| && parts[k] == Text(LastText(parts).value)
  {
    if parts != [] && parts[|parts| - 1].Doctest? {
      LastTextIsAText(parts[..|parts| - 1]);
      if LastText(parts).Some? {
        var k :| 0 <= k < |parts| - 1 && parts[..|parts| - 1][k] == Text(LastText(parts).value);
        assert parts[k] == Text(LastText(parts).value);
      }
    }
  }

  lemma {:induction false} ConcatGroupsNonEmpty(gs: seq<Group>)
    requires gs != [] && gs[0].items != []
    ensures ConcatGroups(gs) != []
  {
    if |gs| > 1 {
      ConcatGroupsNonEmpty(gs[..|gs| - 1]);
    }
  }

  /**
   * `asone=True` lumps exactly the parts that `asone=False` splits into runs,
   * and its single example starts where the first run does.
   */
  lemma {:induction false} LumpedIsRuns(segs: seq<Seg>)
    ensures Lumped(segs).items == ConcatGroups(Runs(segs))
    ensures Runs(segs) != [] ==> Lumped(segs).offset == Runs(segs)[0].offset
  {
    if segs != [] {
      var init := segs[..|segs| - 1];
      LumpedIsRuns(init);
      var last := segs[|segs| - 1];
      var rs := Runs(init);
      if !last.skip && last.items != [] {
        assert (rs + [Group(last.items, last.offset)])[..|rs|] == rs;
        if rs != [] {
          ConcatGroupsNonEmpty(rs);
        }
      } else {
        assert rs + [] == rs;
      }
    }
  }

  /** The two freeform modes yield the same doctest parts, starting at the same line. */
  lemma AsOneMatchesRuns(parts: seq<Part>)
    ensures ConcatGroups(Groups(parts, true)) == ConcatGroups(Groups(parts, false))
    ensures |Groups(parts, true)| == (if Groups(parts, false) == [] then 0 else 1)
    ensures Groups(parts, false) != [] ==> Groups(parts, true)[0].offset == Groups(parts, false)[0].offset
  {
    var segs := Segments(parts, StartsSkip);
    LumpedIsRuns(segs);
    var g := Lumped(segs);
    if g.items != [] {
      assert [g][..0] == [];
    }
    if Runs(segs) != [] {
      ConcatGroupsNonEmpty(Runs(segs));
    }
  }

  /** The shape of the docstring example of `parse_freeform_docstr_examples`. */
  function DocExampleParts(t0: string, t1: string, t2: string, t3: string, t4: string,
                           d0: DoctestPart, d1: DoctestPart, d2: DoctestPart, d3: DoctestPart,
                           d4: DoctestPart, d5: DoctestPart): seq<Part> {
    [Text(t0), Doctest(d0), Doctest(d1), Text(t1), Doctest(d2), Text(t2), Doctest(d3),
     Text(t3), Doctest(d4), Text(t4), Doctest(d5)]
  }

  /**
   * The docstring example of `parse_freeform_docstr_examples`: one example
   * as a whole and three when split, for any skip verdict that disables
   * exactly the third and fourth text parts (the `Script:` and
   * `DisableDoctest:` headers of the docstring, which `StartsSkip` disables).
   */
  lemma DocExampleGroups(t0: string, t1: string, t2: string, t3: string, t4: string,
                         d0: DoctestPart, d1: DoctestPart, d2: DoctestPart, d3: DoctestPart,
                         d4: DoctestPart, d5: DoctestPart, skip: string -> bool)
    requires !skip(t0) && !skip(t1) && skip(t2) && skip(t3) && !skip(t4)
    ensures var segs := Segments(DocExampleParts(t0, t1, t2, t3, t4, d0, d1, d2, d3, d4, d5), skip);
            |GroupsOf(segs, true)| == 1 && |GroupsOf(segs, false)| == 3
  {
    var parts := DocExampleParts(t0, t1, t2, t3, t4, d0, d1, d2, d3, d4, d5);
    ScanGroupsOf(parts, true, skip);
    ScanGroupsOf(parts, false, skip);
    DocExampleScan(parts, skip);
  }

  /** The loop's reference scan over the docstring example, one part at a time. */
  lemma DocExampleScan(parts: seq<Part>, skip: string -> bool)
    requires |parts| == 11
    requires parts[0].Text? && parts[3].Text? && parts[5].Text? && parts[7].Text? && parts[9].Text?
    requires parts[1].Doctest? && parts[2].Doctest? && parts[4].Doctest? && parts[6].Doctest?
    requires parts[8].Doctest? && parts[10].Doctest?
    requires !skip(parts[0].text) && !skip(parts[3].text) && skip(parts[5].text) && skip(parts[7].text)
    requires !skip(parts[9].text)
    ensures |Flush(Scan(parts, 11, true, skip))| == 1
    ensures |Flush(Scan(parts, 11, false, skip))| == 3
  {
    for n := 0 to 11
      invariant Scan(parts, n, true, skip).done == []
      invariant n >= 2 ==> Scan(parts, n, true, skip).curr != []
    {
      ScanNext(parts, n, true, skip);
    }
    ScanNext(parts, 0, false, skip);
    ScanNext(parts, 1, false, skip);
    ScanNext(parts, 2, false, skip);
    assert Scan(parts, 3, false, skip).done == [] && Scan(parts, 3, false, skip).curr != [];
    ScanNext(parts, 3, false, skip);
    ScanNext(parts, 4, false, skip);
    assert |Scan(parts, 5, false, skip).done| == 1 && Scan(parts, 5, false, skip).curr != [];
    ScanNext(parts, 5, false, skip);
    ScanNext(parts, 6, false, skip);
    assert |Scan(parts, 7, false, skip).done| == 2 && Scan(parts, 7, false, skip).curr == [];
    ScanNext(parts, 7, false, skip);
    ScanNext(parts, 8, false, skip);
    assert |Scan(parts, 9, false, skip).done| == 2 && Scan(parts, 9, false, skip).curr == [];
    ScanNext(parts, 9, false, skip);
    ScanNext(parts, 10, false, skip);
  }

  // ---------------------------------------------------------------------------
  // Google style
  // ---------------------------------------------------------------------------

  /** A google block: its label, its body and the offset of the label line. */
  datatype Block = Block(blockType: string, docsrc: string, offset: int)

  const ExampleTags: seq<string> := ["Example", "Doctest", "Script", "Benchmark"]

  predicate IsExampleBlock(b: Block) {
    exists k :: 0 <= k < |ExampleTags| && StartsWith(b.blockType, ExampleTags[k])
  }

  /** The blocks whose label starts with an example tag, in order. */
  function ExampleBlocks(blocks: seq<Block>): (r: seq<Block>)
    ensures |r| <= |blocks|
    ensures forall k :: 0 <= k < |r| ==> IsExampleBlock(r[k]) && r[k] in blocks
    ensures forall k :: 0 <= k < |blocks| && IsExampleBlock(blocks[k]) ==> blocks[k] in r
  {
    if blocks == [] then []
    else (if IsExampleBlock(blocks[0]) then [blocks[0]] else []) + ExampleBlocks(blocks[1..])
  }

  /** The blocks of `a + b` are those of `a` followed by those of `b`: the order is kept. */
  lemma {:induction false} ExampleBlocksAppend(a: seq<Block>, b: seq<Block>)
    ensures ExampleBlocks(a + b) == ExampleBlocks(a) + ExampleBlocks(b)
  {
    if a != [] {
      assert (a + b)[0] == a[0] && (a + b)[1..] == a[1..] + b;
      ExampleBlocksAppend(a[1..], b);
    } else {
      assert a + b == b;
    }
  }

  /** A single block is kept exactly when its label starts with an example tag. */
  lemma ExampleBlocksOne(b: Block)
    ensures IsExampleBlock(b) ==> ExampleBlocks([b]) == [b]
    ensures !IsExampleBlock(b) ==> ExampleBlocks([b]) == []
  {
    assert [b][1..] == [];
  }

  /**
   * The examples of the google blocks, numbered from `start`; the example's
   * own parse step (`parse`) may raise, which ends the stream.
   */
  function Enumerate(eb: seq<Block>, start: nat, callname: string, lineno: int,
                     parse: string -> Result<seq<DoctestPart>>): (r: Stream<Example>)
    ensures |r.items| <= |eb|
    ensures r.error == None ==> |r.items| == |eb|
    ensures r.error.Some? ==> |r.items| < |eb| && parse(eb[|r.items|].docsrc) == Err(r.error.value)
    ensures forall k :: 0 <= k < |r.items| ==>
              r.items[k].num == start + k && r.items[k].callname == callname &&
              r.items[k].docsrc == eb[k].docsrc && r.items[k].blockType == Some(eb[k].blockType) &&
              r.items[k].lineno == lineno + eb[k].offset + 1 && parse(eb[k].docsrc) == Ok(r.items[k].parts)
  {
    if eb == [] then Stream([], None)
    else
      match parse(eb[0].docsrc)
      case Err(e) => Stream([], Some(e))
      case Ok(ps) =>
        var rest := Enumerate(eb[1..], start + 1, callname, lineno, parse);
        Stream([Example(eb[0].docsrc, callname, start, lineno + eb[0].offset + 1, ps, Some(eb[0].blockType))]
               + rest.items, rest.error)
  }

  /** `parse_google_docstr_examples`, given the block splitter's result. */
  function Google(blocks: Result<seq<Block>>, callname: string, lineno: int,
                  parse: string -> Result<seq<DoctestPart>>): (r: Stream<Example>)
    ensures blocks.Err? ==> r == Stream([], Some(blocks.error))
    ensures blocks.Ok? ==> |r.items| <= |ExampleBlocks(blocks.value)|
    ensures blocks.Ok? && r.error == None ==> |r.items| == |ExampleBlocks(blocks.value)|
    ensures forall k :: 0 <= k < |r.items| ==> r.items[k].num == k && r.items[k].blockType.Some?
  {
    match blocks
    case Err(e) => Stream([], Some(e))
    case Ok(bs) => Enumerate(ExampleBlocks(bs), 0, callname, lineno, parse)
  }

  /**
   * Example `k` of the google style comes from the `k`-th block whose label
   * starts with an example tag, and its body starts on the line after the label.
   */
  lemma GoogleItems(bs: seq<Block>, callname: string, lineno: int, parse: string -> Result<seq<DoctestPart>>)
    ensures var r := Google(Ok(bs), callname, lineno, parse);
            var eb := ExampleBlocks(bs);
            forall k :: 0 <= k < |r.items| ==>
              && eb[k] in bs
              && (exists j :: 0 <= j < |ExampleTags| && StartsWith(r.items[k].blockType.value, ExampleTags[j]))
              && r.items[k].blockType == Some(eb[k].blockType)
              && r.items[k].lineno == lineno + eb[k].offset + 1
              && r.items[k].docsrc == eb[k].docsrc
              && parse(eb[k].docsrc) == Ok(r.items[k].parts)
  {
    var eb := ExampleBlocks(bs);
    var r := Enumerate(eb, 0, callname, lineno, parse);
    assert forall k :: 0 <= k < |r.items| ==> IsExampleBlock(eb[k]);
  }

  // ---------------------------------------------------------------------------
  // Auto style and the dispatch
  // ---------------------------------------------------------------------------

  /** What the unseen collaborators make of one docstring. */
  datatype DocInput = DocInput(parsed: Result<seq<Part>>, blocks: Result<seq<Block>>)

  /** `parse_auto_docstr_examples`: google first, freeform when google found nothing. */
  function Auto(doc: DocInput, callname: string, lineno: int, parse: string -> Result<seq<DoctestPart>>): (r: Stream<Example>)
    ensures r.items == [] ==> Google(doc.blocks, callname, lineno, parse).items == []
                               && Freeform(doc.parsed, callname, lineno, true).items == []
    ensures Google(doc.blocks, callname, lineno, parse).items != [] ==>
              r.error == Google(doc.blocks, callname, lineno, parse).error &&
              forall k :: 0 <= k < |r.items| ==> r.items[k].blockType.Some?
    ensures Google(doc.blocks, callname, lineno, parse).items == [] ==>
              r.error == Freeform(doc.parsed, callname, lineno, true).error &&
              forall k :: 0 <= k < |r.items| ==> r.items[k].blockType == None
  {
    FallBack(Google(doc.blocks, callname, lineno, parse), Freeform(doc.parsed, callname, lineno, true))
  }

  /** The google stream when it yielded anything, else the freeform one. */
  function FallBack(g: Stream<Example>, f: Stream<Example>): Stream<Example> {
    if g.items != [] then g else f
  }

  /** The generator of `parse_auto_docstr_examples`, counting what google yields. */
  method ParseAuto(doc: DocInput, callname: string, lineno: int, parse: string -> Result<seq<DoctestPart>>)
    returns (s: Stream<Example>)
    ensures s == Auto(doc, callname, lineno, parse)
  {
    var g := Google(doc.blocks, callname, lineno, parse);
    s := YieldAuto(g, doc.parsed, callname, lineno);
  }

  /** The counting loop over the google stream `g`, then freeform only if `g` yielded nothing. */
  method YieldAuto(g: Stream<Example>, parsed: Result<seq<Part>>, callname: string, lineno: int)
    returns (s: Stream<Example>)
    ensures s == FallBack(g, Freeform(parsed, callname, lineno, true))
  {
    var yielded: seq<Example> := [];
    var nFound := 0;
    while nFound < |g.items|
      invariant 0 <= nFound <= |g.items|
      invariant yielded == g.items[..nFound]
    {
      yielded := yielded + [g.items[nFound]];
      nFound := nFound + 1;
    }
    TakeAll(g.items);
    if g.error.Some? && nFound > 0 {
      return Stream(yielded, g.error);
    }
    if nFound == 0 {
      var f := ParseFreeform(parsed, callname, lineno, true);
      return Stream(yielded + f.items, f.error);
    }
    return Stream(yielded, None);
  }

  const DoctestStyles: seq<string> := ["freeform", "google", "auto"]

  /** The exceptions that only warn and end the stream. */
  predicate Tolerated(e: Error) {
    e.MalformedDocstr? || e.DoctestParseError?
  }

  /** `r` is the stream `s` as the caller sees it: the same examples, a tolerated error dropped, any other kept. */
  predicate ToleratedFrom(r: Stream<Example>, s: Stream<Example>) {
    && r.items == s.items
    && (r.error == None <==> s.error == None || Tolerated(s.error.value))
    && (r.error.Some? ==> r.error == s.error)
  }

  function Tolerate(s: Stream<Example>): (r: Stream<Example>)
    ensures ToleratedFrom(r, s)
  {
    if s.error.Some? && Tolerated(s.error.value) then Stream(s.items, None) else s
  }

  /** `parse_docstr_examples` */
  function ParseDocstrExamples(doc: DocInput, callname: string, lineno: int, style: string,
                               parse: string -> Result<seq<DoctestPart>>): (r: Stream<Example>)
    ensures style !in DoctestStyles ==> r == Stream([], Some(KeyError(style)))
    ensures style in DoctestStyles && r.error.Some? ==> !Tolerated(r.error.value)
    ensures style == "freeform" ==> ToleratedFrom(r, Freeform(doc.parsed, callname, lineno, true))
    ensures style == "google" ==> ToleratedFrom(r, Google(doc.blocks, callname, lineno, parse))
    ensures style == "auto" ==> ToleratedFrom(r, Auto(doc, callname, lineno, parse))
    ensures forall k :: 0 <= k < |r.items| ==> r.items[k].callname == callname
  {
    if style == "freeform" then Tolerate(Freeform(doc.parsed, callname, lineno, true))
    else if style == "google" then Tolerate(Google(doc.blocks, callname, lineno, parse))
    else if style == "auto" then Tolerate(Auto(doc, callname, lineno, parse))
    else Stream([], Some(KeyError(style)))
  }

  // ---------------------------------------------------------------------------
  // Callables of a module
  // ---------------------------------------------------------------------------

  /** A top-level callable: its name, its docstring (if any) and the docstring's line. */
  datatype Calldef = Calldef(callname: string, docstr: Option<DocInput>, doclineno: int)

  /**
   * The examples of each callable with a docstring in turn, `ex` giving one
   * callable's stream; the first error ends the whole stream.
   */
  function CollectWith(calldefs: seq<Calldef>, ex: Calldef -> Stream<Example>): Stream<Example> {
    if calldefs == [] then Stream([], None)
    else
      var rest := CollectWith(calldefs[1..], ex);
      if calldefs[0].docstr.None? then rest
      else
        var s := ex(calldefs[0]);
        if s.error.Some? then s else Stream(s.items + rest.items, rest.error)
  }

  /** The examples of one callable; only called for callables with a docstring. */
  function CallableExamples(c: Calldef, style: string, parse: string -> Result<seq<DoctestPart>>): (r: Stream<Example>)
    requires style in DoctestStyles
    ensures c.docstr.Some? ==> r == ParseDocstrExamples(c.docstr.value, c.callname, c.doclineno, style, parse)
    ensures r.error.Some? ==> !Tolerated(r.error.value)
    ensures forall k :: 0 <= k < |r.items| ==> r.items[k].callname == c.callname
  {
    match c.docstr
    case None => Stream([], None)
    case Some(doc) => ParseDocstrExamples(doc, c.callname, c.doclineno, style, parse)
  }

  /** Errors of the callables' streams pass through; every example names a callable with a docstring. */
  lemma {:induction false} CollectWithFacts(calldefs: seq<Calldef>, ex: Calldef -> Stream<Example>)
    requires forall c :: ex(c).error.Some? ==> !Tolerated(ex(c).error.value)
    requires forall c, k :: 0 <= k < |ex(c).items| ==> ex(c).items[k].callname == c.callname
    ensures var r := CollectWith(calldefs, ex);
            && (r.error.Some? ==> !Tolerated(r.error.value))
            && forall k :: 0 <= k < |r.items| ==>
                 exists j :: 0 <= j < |calldefs| && calldefs[j].docstr.Some? && r.items[k].callname == calldefs[j].callname
  {
    if calldefs != [] {
      CollectWithFacts(calldefs[1..], ex);
      var r := CollectWith(calldefs, ex);
      var rest := CollectWith(calldefs[1..], ex);
      var c := calldefs[0];
      forall k | 0 <= k < |r.items|
        ensures exists j :: 0 <= j < |calldefs| && calldefs[j].docstr.Some? && r.items[k].callname == calldefs[j].callname
      {
        if c.docstr.Some? && k < |ex(c).items| {
          assert r.items[k] == ex(c).items[k];
        } else {
          var k' := if c.docstr.None? then k else k - |ex(c).items|;
          assert r.items[k] == rest.items[k'];
          var j :| 0 <= j < |calldefs[1..]| && calldefs[1..][j].docstr.Some? && rest.items[k'].callname == calldefs[1..][j].callname;
          assert calldefs[1..][j] == calldefs[j + 1];
        }
      }
    }
  }

  /** The callables' examples, for a known style. */
  function Collect(calldefs: seq<Calldef>, style: string, parse: string -> Result<seq<DoctestPart>>): (r: Stream<Example>)
    requires style in DoctestStyles
    ensures calldefs == [] ==> r == Stream([], None)
    ensures r.error.Some? ==> !Tolerated(r.error.value)
    ensures forall k :: 0 <= k < |r.items| ==>
              exists j :: 0 <= j < |calldefs| && calldefs[j].docstr.Some? && r.items[k].callname == calldefs[j].callname
  {
    CollectWithFacts(calldefs, c => CallableExamples(c, style, parse));
    CollectWith(calldefs, c => CallableExamples(c, style, parse))
  }

  /** `parse_doctestables` over the callables of one module. */
  function Doctestables(calldefs: seq<Calldef>, style: string, parse: string -> Result<seq<DoctestPart>>): (r: Stream<Example>)
    ensures style !in DoctestStyles ==> r == Stream([], Some(KeyError(style)))
    ensures style in DoctestStyles ==> r == Collect(calldefs, style, parse)
  {
    if style !in DoctestStyles then Stream([], Some(KeyError(style)))
    else Collect(calldefs, style, parse)
  }

  lemma {:induction false} CollectWithSkips(pre: seq<Calldef>, c: Calldef, post: seq<Calldef>, ex: Calldef -> Stream<Example>)
    requires c.docstr.None?
    ensures CollectWith(pre + [c] + post, ex) == CollectWith(pre + post, ex)
  {
    if pre == [] {
      assert (pre + [c] + post)[1..] == post;
      assert pre + post == post;
    } else {
      CollectWithSkips(pre[1..], c, post, ex);
      assert (pre + [c] + post)[1..] == pre[1..] + [c] + post;
      assert (pre + post)[1..] == pre[1..] + post;
      assert (pre + [c] + post)[0] == pre[0] == (pre + post)[0];
    }
  }

  /** A callable without a docstring contributes nothing. */
  lemma SkipsMissingDocstr(pre: seq<Calldef>, c: Calldef, post: seq<Calldef>,
                           style: string, parse: string -> Result<seq<DoctestPart>>)
    requires c.docstr.None?
    ensures Doctestables(pre + [c] + post, style, parse) == Doctestables(pre + post, style, parse)
  {
    if style in DoctestStyles {
      CollectWithSkips(pre, c, post, d => CallableExamples(d, style, parse));
    }
  }

  lemma {:induction false} CollectWithAppend(a: seq<Calldef>, b: seq<Calldef>, ex: Calldef -> Stream<Example>)
    requires CollectWith(a, ex).error == None
    ensures CollectWith(a + b, ex).items == CollectWith(a, ex).items + CollectWith(b, ex).items
    ensures CollectWith(a + b, ex).error == CollectWith(b, ex).error
  {
    if a == [] {
      assert a + b == b;
    } else {
      DropAppend(a, b);
      CollectWithAppend(a[1..], b, ex);
      if a[0].docstr.Some? {
        var s := ex(a[0]);
        assert s.items + (CollectWith(a[1..], ex).items + CollectWith(b, ex).items)
            == (s.items + CollectWith(a[1..], ex).items) + CollectWith(b, ex).items;
      }
    }
  }

  /** Callables with docstrings contribute their examples in order, as long as none raises. */
  lemma CollectAppend(a: seq<Calldef>, b: seq<Calldef>, style: string,
                      parse: string -> Result<seq<DoctestPart>>)
    requires style in DoctestStyles
    requires Collect(a, style, parse).error == None
    ensures Collect(a + b, style, parse).items == Collect(a, style, parse).items + Collect(b, style, parse).items
    ensures Collect(a + b, style, parse).error == Collect(b, style, parse).error
  {
    CollectWithAppend(a, b, c => CallableExamples(c, style, parse));
  }

  /** One callable contributes the examples of its docstring, or nothing when it has none. */
  lemma CollectOne(c: Calldef, style: string, parse: string -> Result<seq<DoctestPart>>)
    requires style in DoctestStyles
    ensures c.docstr.Some? ==> Collect([c], style, parse) == CallableExamples(c, style, parse)
    ensures c.docstr.None? ==> Collect([c], style, parse) == Stream([], None)
  {
    var ex := d => CallableExamples(d, style, parse);
    assert Collect([c], style, parse) == CollectWith([c], ex);
    assert [c][1..] == [];
    assert CollectWith([c][1..], ex) == Stream([], None);
    assert ex(c).items + [] == ex(c).items;
  }

  lemma {:induction false} CollectWithStops(a: seq<Calldef>, b: seq<Calldef>, ex: Calldef -> Stream<Example>)
    requires CollectWith(a, ex).error.Some?
    ensures CollectWith(a + b, ex) == CollectWith(a, ex)
  {
    if a != [] {
      DropAppend(a, b);
      assert (a + b)[0] == a[0];
      if a[0].docstr.None? || ex(a[0]).error.None? {
        CollectWithStops(a[1..], b, ex);
      }
    }
  }

  /** Once a callable's stream raises, the callables after it contribute nothing. */
  lemma CollectStops(a: seq<Calldef>, b: seq<Calldef>, style: string,
                     parse: string -> Result<seq<DoctestPart>>)
    requires style in DoctestStyles
    requires Collect(a, style, parse).error.Some?
    ensures Collect(a + b, style, parse) == Collect(a, style, parse)
  {
    CollectWithStops(a, b, c => CallableExamples(c, style, parse));
  }
}
