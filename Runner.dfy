/**
 * The decision logic of the native runner (`xdoctest/runner.py`): reading
 * the command line, choosing the examples to run, tallying what running
 * them reported, and the closing summary line with its colour.  Running an
 * example, the clock, printing and the module walk are not modelled: what
 * they produce comes in as values.
 */
module Runner {
  import opened Wrappers
  import opened PyStr

  // ---------------------------------------------------------------- the command line

  /** What `_parse_commandline` returns; `None` is Python's `None`. */
  datatype Cli = Cli(command: Option<string>, style: string, verbose: int)

  /**
   * `_parse_commandline(command, style, verbose, argv)`, with `argv` given
   * (its `sys.argv[1:]` default is an input of the model).
   */
  function ParseCommandline(command: Option<string>, style: string, verbose: Option<int>, argv: seq<string>): (r: Cli)
    ensures command.Some? ==> r.command == command
    ensures command.None? ==>
              (r.command.Some? <==> |argv| >= 1 && argv[0] != [] && argv[0][0] != '-')
              && (r.command.Some? ==> r.command.value == argv[0])
    ensures "--freeform" in argv ==> r.style == "freeform"
    ensures "--freeform" !in argv && "--google" in argv ==> r.style == "google"
    ensures "--freeform" !in argv && "--google" !in argv ==> r.style == style
    ensures verbose.Some? ==> r.verbose == verbose.value
    ensures verbose.None? ==>
              && (r.verbose == 3 <==> "--verbose" in argv || ("--quiet" !in argv && "--silent" !in argv))
              && (r.verbose == 0 <==> "--verbose" !in argv && "--quiet" in argv)
              && (r.verbose == -1 <==> "--verbose" !in argv && "--quiet" !in argv && "--silent" in argv)
  {
    var cmd :=
      if command.None? && |argv| >= 1 && argv[0] != [] && !StartsWith(argv[0], "-") then Some(argv[0])
      else command;
    var sty :=
      if "--freeform" in argv then "freeform"
      else if "--google" in argv then "google"
      else style;
    var verb :=
      if verbose.Some? then verbose.value
      else if "--verbose" in argv then 3
      else if "--quiet" in argv then 0
      else if "--silent" in argv then -1
      else 3;
    Cli(cmd, sty, verb)
  }

  /** What `doctest_module` does with the command. */
  datatype Action = List | Dump | Run

  /** No command means listing the tests; `list` and `dump` are actions, anything else selects tests to run. */
  function ModuleAction(command: Option<string>): (a: Action)
    ensures a == List <==> command == None || command == Some("list")
    ensures a == Dump <==> command == Some("dump")
  {
    var cmd := if command.None? then "list" else command.value;
    if cmd == "list" then List else if cmd == "dump" then Dump else Run
  }

  // ---------------------------------------------------------------- selection

  /**
   * What the runner reads of a `DocTest`: its callname, its source, its
   * block type, the names that select it (`valid_testnames`) and whether
   * it is disabled (`is_disabled()`); the last two are computed by the
   * `DocTest` class, which is not part of this model.
   */
  datatype Candidate = Candidate(callname: string, docsrc: string, blockType: string,
                                 validTestnames: set<string>, disabled: bool)

  /** `gather_all` */
  predicate GatherAll(command: string) {
    command == "all" || command == "dump"
  }

  /** Whether the first pass of `doctest_module` keeps a parsed example. */
  predicate Enabled(command: string, ex: Candidate) {
    (GatherAll(command) || command in ex.validTestnames) && !(GatherAll(command) && ex.disabled)
  }

  /** The commands that run every zero-argument function. */
  const ZeroCommands: seq<string> := ["zero-all", "zero", "zero_all", "zero-args"]

  /** Whether the zero-argument pass keeps a generated example. */
  predicate ZeroEnabled(command: string, ex: Candidate) {
    command in ex.validTestnames || command in ZeroCommands
  }

  /** The elements of `xs` that `keep(command, _)` accepts, in order. */
  function Sift(command: string, xs: seq<Candidate>, keep: (string, Candidate) -> bool): (r: seq<Candidate>)
    ensures |r| <= |xs|
  {
    if xs == [] then []
    else Sift(command, xs[..|xs| - 1], keep) + (if keep(command, xs[|xs| - 1]) then [xs[|xs| - 1]] else [])
  }

  lemma {:induction false} SiftMembers(command: string, xs: seq<Candidate>, keep: (string, Candidate) -> bool, x: Candidate)
    ensures x in Sift(command, xs, keep) <==> x in xs && keep(command, x)
  {
    if xs != [] {
      var init := xs[..|xs| - 1];
      SiftMembers(command, init, keep, x);
      assert xs == init + [xs[|xs| - 1]];
    }
  }

  /**
   * The examples `doctest_module` runs: the parsed examples that are
   * enabled, or, when there are none, the zero-argument examples the
   * command names.
   */
  function Selected(command: string, examples: seq<Candidate>, zeroArg: seq<Candidate>): seq<Candidate> {
    var first := Sift(command, examples, Enabled);
    if first != [] then first else Sift(command, zeroArg, ZeroEnabled)
  }

  /** The selection loops of `doctest_module`. */
  method SelectExamples(command: string, examples: seq<Candidate>, zeroArg: seq<Candidate>)
    returns (enabled: seq<Candidate>)
    ensures enabled == Selected(command, examples, zeroArg)
  {
    enabled := GatherEnabled(command, examples);
    if |enabled| == 0 {
      enabled := GatherZeroArg(command, zeroArg);
    }
  }

  /** The first loop: the parsed examples the command enables. */
  method GatherEnabled(command: string, examples: seq<Candidate>) returns (enabled: seq<Candidate>)
    ensures enabled == Sift(command, examples, Enabled)
  {
    var gatherAll := command == "all" || command == "dump";
    enabled := [];
    for i := 0 to |examples|
      invariant enabled == Sift(command, examples[..i], Enabled)
    {
      var example := examples[i];
      SiftNext(command, examples, Enabled, i);
      if gatherAll || command in example.validTestnames {
        if gatherAll && example.disabled {
          continue;
        }
        enabled := enabled + [example];
      }
    }
    assert examples[..|examples|] == examples;
  }

  /** The fallback loop: the zero-argument examples the command names. */
  method GatherZeroArg(command: string, zeroArg: seq<Candidate>) returns (enabled: seq<Candidate>)
    ensures enabled == Sift(command, zeroArg, ZeroEnabled)
  {
    enabled := [];
    for i := 0 to |zeroArg|
      invariant enabled == Sift(command, zeroArg[..i], ZeroEnabled)
    {
      var example := zeroArg[i];
      SiftNext(command, zeroArg, ZeroEnabled, i);
      if command in example.validTestnames {
        enabled := enabled + [example];
      } else if command in ["zero-all", "zero", "zero_all", "zero-args"] {
        enabled := enabled + [example];
      }
    }
    assert zeroArg[..|zeroArg|] == zeroArg;
  }

  lemma SiftNext(command: string, xs: seq<Candidate>, keep: (string, Candidate) -> bool, i: nat)
    requires i < |xs|
    ensures Sift(command, xs[..i + 1], keep) == Sift(command, xs[..i], keep) + (if keep(command, xs[i]) then [xs[i]] else [])
  {
    assert xs[..i + 1][..i] == xs[..i];
  }

  /** A parsed example is run exactly when it is enabled, as long as any is. */
  lemma SelectedParsed(command: string, examples: seq<Candidate>, zeroArg: seq<Candidate>, x: Candidate)
    requires exists y :: y in examples && Enabled(command, y)
    ensures Selected(command, examples, zeroArg) == Sift(command, examples, Enabled)
    ensures x in Selected(command, examples, zeroArg) <==> x in examples && Enabled(command, x)
  {
    var y :| y in examples && Enabled(command, y);
    SiftMembers(command, examples, Enabled, y);
    SiftMembers(command, examples, Enabled, x);
  }

  /** Under `all` or `dump` every parsed example but the disabled ones runs. */
  lemma GatherAllDropsDisabled(command: string, ex: Candidate)
    requires GatherAll(command)
    ensures Enabled(command, ex) <==> !ex.disabled
  {
  }

  /** Under any other command an example runs when the command names it, disabled or not. */
  lemma NamedKeepsDisabled(command: string, ex: Candidate)
    requires !GatherAll(command)
    ensures Enabled(command, ex) <==> command in ex.validTestnames
  {
  }

  /** The zero-argument examples are considered only when no parsed example is enabled. */
  lemma FallbackOnlyWhenNoneEnabled(command: string, examples: seq<Candidate>, zeroArg: seq<Candidate>)
    requires forall y :: y in examples ==> !Enabled(command, y)
    ensures Selected(command, examples, zeroArg) == Sift(command, zeroArg, ZeroEnabled)
  {
    if Sift(command, examples, Enabled) != [] {
      var y := Sift(command, examples, Enabled)[0];
      SiftMembers(command, examples, Enabled, y);
    }
  }

  // ---------------------------------------------------------------- zero-argument examples

  /** The argument counts `_gather_zero_arg_examples` reads: `len(args.args)` and `len(args.defaults)`. */
  datatype ArgSpec = ArgSpec(nArgs: nat, nDefaults: nat)

  /** The example made for a function that needs no argument. */
  function ZeroArgExample(callname: string, testnames: string -> set<string>): Candidate {
    Candidate(callname, ">>> " + callname + "()", "zero-arg", testnames(callname), false)
  }

  /** Whether a callable can be called without arguments: every argument has a default. */
  predicate TakesNoArgs(args: Option<ArgSpec>) {
    args.Some? && args.value.nArgs - args.value.nDefaults == 0
  }

  /**
   * `_gather_zero_arg_examples`, given the callables of the module in order
   * (the module walk that finds them is not part of this model) and the
   * names a `DocTest` of each callname answers to.
   */
  function ZeroArgExamples(calldefs: seq<(string, Option<ArgSpec>)>, testnames: string -> set<string>): (r: seq<Candidate>)
    ensures |r| <= |calldefs|
  {
    if calldefs == [] then []
    else
      var init := ZeroArgExamples(calldefs[..|calldefs| - 1], testnames);
      var (name, args) := calldefs[|calldefs| - 1];
      init + (if TakesNoArgs(args) then [ZeroArgExample(name, testnames)] else [])
  }

  /** A zero-argument example comes from a callable whose arguments all have defaults, and each such callable gives one. */
  lemma {:induction false} ZeroArgMembers(calldefs: seq<(string, Option<ArgSpec>)>, testnames: string -> set<string>, k: nat)
    requires k < |calldefs|
    ensures TakesNoArgs(calldefs[k].1) ==> ZeroArgExample(calldefs[k].0, testnames) in ZeroArgExamples(calldefs, testnames)
  {
    var n := |calldefs|;
    if k < n - 1 {
      ZeroArgMembers(calldefs[..n - 1], testnames, k);
    }
  }

  lemma {:induction false} ZeroArgSources(calldefs: seq<(string, Option<ArgSpec>)>, testnames: string -> set<string>, x: Candidate)
    requires x in ZeroArgExamples(calldefs, testnames)
    ensures exists k :: 0 <= k < |calldefs| && TakesNoArgs(calldefs[k].1) && x == ZeroArgExample(calldefs[k].0, testnames)
    ensures x.docsrc == ">>> " + x.callname + "()" && x.blockType == "zero-arg"
  {
    var n := |calldefs|;
    var init := calldefs[..n - 1];
    if x in ZeroArgExamples(init, testnames) {
      ZeroArgSources(init, testnames, x);
      var k :| 0 <= k < |init| && TakesNoArgs(init[k].1) && x == ZeroArgExample(init[k].0, testnames);
      assert init[k] == calldefs[k];
    } else {
      assert TakesNoArgs(calldefs[n - 1].1) && x == ZeroArgExample(calldefs[n - 1].0, testnames);
    }
  }

  // ---------------------------------------------------------------- running and tallying

  /**
   * What running an example reports: the `passed`, `failed` and `skipped`
   * entries of its summary, and whether it left warnings in its
   * `warn_list`.  Running it is not part of this model.
   */
  datatype RunResult = RunResult(passed: bool, failed: bool, skipped: bool, warned: bool)

  /** How `_run_examples` files one result: skipped first, then passed, else failed. */
  datatype Outcome = Skipped | Passed | Failed

  function Classify(r: RunResult): Outcome {
    if r.skipped then Skipped else if r.passed then Passed else Failed
  }

  predicate IsFailed(r: RunResult) {
    Classify(r) == Failed
  }

  predicate IsWarned(r: RunResult) {
    r.warned
  }

  predicate PassedFlag(r: RunResult) {
    r.passed
  }

  predicate FailedFlag(r: RunResult) {
    r.failed
  }

  predicate SkippedFlag(r: RunResult) {
    r.skipped
  }

  /** The examples whose result `p` accepts, in run order. */
  function Picked(xs: seq<Candidate>, rs: seq<RunResult>, p: RunResult -> bool): (r: seq<Candidate>)
    requires |xs| == |rs|
    ensures |r| <= |xs|
  {
    if xs == [] then []
    else Picked(xs[..|xs| - 1], rs[..|rs| - 1], p) + (if p(rs[|rs| - 1]) then [xs[|xs| - 1]] else [])
  }

  /** `sum(p(s) for s in rs)` */
  function CountOf(rs: seq<RunResult>, p: RunResult -> bool): (n: nat)
    ensures n <= |rs|
  {
    if rs == [] then 0 else CountOf(rs[..|rs| - 1], p) + (if p(rs[|rs| - 1]) then 1 else 0)
  }

  /** The `run_summary` dictionary `_run_examples` returns, without the timings. */
  datatype RunSummary = RunSummary(failed: seq<Candidate>, warned: seq<Candidate>, nWarned: nat,
                                   nSkipped: nat, nPassed: nat, nFailed: nat, nTotal: nat)

  /** The summary of running `enabled` with results `rs`. */
  function Tally(enabled: seq<Candidate>, rs: seq<RunResult>): RunSummary
    requires |enabled| == |rs|
  {
    var warned := Picked(enabled, rs, IsWarned);
    RunSummary(Picked(enabled, rs, IsFailed), warned, |warned|,
               CountOf(rs, SkippedFlag), CountOf(rs, PassedFlag), CountOf(rs, FailedFlag), |enabled|)
  }

  /**
   * The loop of `_run_examples`, given what each run reports.  The source
   * first picks `on_error='raise'` for a lone example but then always uses
   * `'return'`, so a failing example reports its failure through its result.
   * An exception that `run` raises regardless is re-raised after printing and
   * ends the loop; that path is not modelled.
   */
  method RunExamples(enabled: seq<Candidate>, results: seq<RunResult>) returns (s: RunSummary)
    requires |results| == |enabled|
    ensures s == Tally(enabled, results)
  {
    var nTotal := |enabled|;
    var summaries: seq<RunResult> := [];
    var failed: seq<Candidate> := [];
    var warned: seq<Candidate> := [];
    for i := 0 to |enabled|
      invariant summaries == results[..i]
      invariant failed == Picked(enabled[..i], results[..i], IsFailed)
      invariant warned == Picked(enabled[..i], results[..i], IsWarned)
    {
      PickedNext(enabled, results, IsFailed, i);
      PickedNext(enabled, results, IsWarned, i);
      summaries := summaries + [results[i]];
      failed, warned := FileResult(enabled[i], results[i], failed, warned);
    }
    assert enabled[..|enabled|] == enabled && results[..|results|] == results;
    var nPassed := CountOf(summaries, PassedFlag);
    var nFailed := CountOf(summaries, FailedFlag);
    var nSkipped := CountOf(summaries, SkippedFlag);
    s := RunSummary(failed, warned, |warned|, nSkipped, nPassed, nFailed, nTotal);
  }

  /**
   * The body of the loop of `_run_examples` for one example: note its
   * warnings, then file it as skipped, passed or failed.
   */
  method FileResult(example: Candidate, summary: RunResult, failed: seq<Candidate>, warned: seq<Candidate>)
    returns (failed': seq<Candidate>, warned': seq<Candidate>)
    ensures failed' == failed + (if IsFailed(summary) then [example] else [])
    ensures warned' == warned + (if IsWarned(summary) then [example] else [])
  {
    failed', warned' := failed, warned;
    if summary.warned {
      warned' := warned' + [example];
    }
    if summary.skipped {
    } else if summary.passed {
    } else {
      failed' := failed' + [example];
    }
  }

  lemma PickedNext(xs: seq<Candidate>, rs: seq<RunResult>, p: RunResult -> bool, i: nat)
    requires |xs| == |rs| && i < |xs|
    ensures Picked(xs[..i + 1], rs[..i + 1], p) == Picked(xs[..i], rs[..i], p) + (if p(rs[i]) then [xs[i]] else [])
  {
    assert xs[..i + 1][..i] == xs[..i] && rs[..i + 1][..i] == rs[..i];
  }

  /** An example is in the failed list exactly when its result is neither skipped nor passed. */
  lemma {:induction false} FailedExactly(xs: seq<Candidate>, rs: seq<RunResult>, k: nat)
    requires |xs| == |rs| && k < |xs|
    requires forall i, j :: 0 <= i < j < |xs| ==> xs[i] != xs[j]
    ensures xs[k] in Tally(xs, rs).failed <==> !rs[k].skipped && !rs[k].passed
  {
    var n := |xs|;
    var init, rinit := xs[..n - 1], rs[..n - 1];
    assert Picked(xs, rs, IsFailed) == Picked(init, rinit, IsFailed) + (if IsFailed(rs[n - 1]) then [xs[n - 1]] else []);
    if k < n - 1 {
      FailedExactly(init, rinit, k);
      PickedFrom(init, rinit, IsFailed, xs[n - 1]);
    } else {
      PickedFrom(init, rinit, IsFailed, xs[k]);
    }
  }

  /** Whatever `Picked` returns was among the examples. */
  lemma {:induction false} PickedFrom(xs: seq<Candidate>, rs: seq<RunResult>, p: RunResult -> bool, x: Candidate)
    requires |xs| == |rs|
    ensures x in Picked(xs, rs, p) ==> x in xs
  {
    if xs != [] {
      PickedFrom(xs[..|xs| - 1], rs[..|rs| - 1], p, x);
    }
  }

  /** Every run is filed exactly once: skipped, passed, or in the failed list. */
  lemma {:induction false} TallyPartition(xs: seq<Candidate>, rs: seq<RunResult>)
    requires |xs| == |rs|
    ensures CountOf(rs, SkippedFlag) + CountOf(rs, PassedAndRun) + |Tally(xs, rs).failed| == Tally(xs, rs).nTotal
  {
    if xs != [] {
      TallyPartition(xs[..|xs| - 1], rs[..|rs| - 1]);
    }
  }

  /** A result counted among the passes of the classification: passed and not skipped. */
  predicate PassedAndRun(r: RunResult) {
    Classify(r) == Passed
  }

  /**
   * When each result carries exactly one of its three flags, as a run
   * reports them, the counts are those of the classification and add up
   * to the number of examples run.
   */
  lemma {:induction false} ConsistentCounts(xs: seq<Candidate>, rs: seq<RunResult>)
    requires |xs| == |rs|
    requires forall i :: 0 <= i < |rs| ==> (rs[i].passed ==> !rs[i].skipped) && (rs[i].failed <==> !rs[i].passed && !rs[i].skipped)
    ensures Tally(xs, rs).nFailed == |Tally(xs, rs).failed|
    ensures Tally(xs, rs).nPassed + Tally(xs, rs).nSkipped + Tally(xs, rs).nFailed == Tally(xs, rs).nTotal
  {
    if xs != [] {
      ConsistentCounts(xs[..|xs| - 1], rs[..|rs| - 1]);
    }
  }

  // ---------------------------------------------------------------- the summary line

  /** One count of the summary line: `'{n} {t}'`. */
  function Part(n: int, title: string): string {
    IntToStr(n) + " " + title
  }

  /** The part for one count, or nothing when the count is not positive. */
  function Shown(p: (int, string)): seq<string> {
    if p.0 > 0 then [Part(p.0, p.1)] else []
  }

  /** The parts for the counts that are positive, in the order given. */
  function CountParts(pairs: seq<(int, string)>): seq<string> {
    if pairs == [] then []
    else Shown(pairs[0]) + CountParts(pairs[1..])
  }

  /** The counts of the summary line, in the order failed, passed, skipped, warnings. */
  function SummaryParts(nFailed: int, nPassed: int, nSkipped: int, nWarnings: int): seq<string> {
    CountParts([(nFailed, "failed")] + ([(nPassed, "passed")] + ([(nSkipped, "skipped")] + [(nWarnings, "warnings")])))
  }

  lemma CountPartsCons(p: (int, string), rest: seq<(int, string)>)
    ensures CountParts([p] + rest) == Shown(p) + CountParts(rest)
  {
    assert ([p] + rest)[1..] == rest;
  }

  lemma CountPartsFour(a: (int, string), b: (int, string), c: (int, string), d: (int, string))
    ensures CountParts([a] + ([b] + ([c] + [d]))) == Shown(a) + (Shown(b) + (Shown(c) + Shown(d)))
  {
    CountPartsCons(a, [b] + ([c] + [d]));
    CountPartsCons(b, [c] + [d]);
    CountPartsCons(c, [d]);
    CountPartsCons(d, []);
    assert [d] + [] == [d];
  }

  /** A count of the summary line is shown exactly when it is positive. */
  lemma SummaryPartsShown(nFailed: int, nPassed: int, nSkipped: int, nWarnings: int)
    ensures SummaryParts(nFailed, nPassed, nSkipped, nWarnings)
            == (if nFailed > 0 then [Part(nFailed, "failed")] else [])
               + ((if nPassed > 0 then [Part(nPassed, "passed")] else [])
               + ((if nSkipped > 0 then [Part(nSkipped, "skipped")] else [])
               + (if nWarnings > 0 then [Part(nWarnings, "warnings")] else [])))
  {
    CountPartsFour((nFailed, "failed"), (nPassed, "passed"), (nSkipped, "skipped"), (nWarnings, "warnings"));
  }

  /**
   * The final line of `_print_summary_report`; `seconds` is the elapsed
   * time already formatted with two decimals (the clock and the float
   * formatting are not part of this model).
   */
  function SummaryLine(nFailed: int, nPassed: int, nSkipped: int, nWarnings: int, seconds: string): (r: string)
    ensures StartsWith(r, "=== ")
  {
    "=== " + Join(", ", SummaryParts(nFailed, nPassed, nSkipped, nWarnings)) + " in " + seconds + " seconds ==="
  }

  datatype Colour = Red | Yellow | Green

  /** The colour of the summary line: red for failures, else yellow for warnings, else green. */
  function SummaryColour(nFailed: int, nWarnings: int): (c: Colour)
    ensures c == Red <==> nFailed > 0
    ensures c == Yellow <==> nFailed <= 0 && nWarnings > 0
    ensures c == Green <==> nFailed <= 0 && nWarnings <= 0
  {
    if nFailed > 0 then Red else if nWarnings > 0 then Yellow else Green
  }

  /** The summary line and its colour for a run, counting the parse-time warnings with the run-time ones. */
  function Report(s: RunSummary, nParseWarnings: nat, seconds: string): (string, Colour) {
    var nWarnings := |s.warned| + nParseWarnings;
    (SummaryLine(s.nFailed, s.nPassed, s.nSkipped, nWarnings, seconds), SummaryColour(s.nFailed, nWarnings))
  }

  /** A run without failures or warnings is reported in green with no failure count. */
  lemma CleanRunIsGreen(xs: seq<Candidate>, rs: seq<RunResult>, seconds: string)
    requires |xs| == |rs|
    requires forall i :: 0 <= i < |rs| ==> !rs[i].failed && !rs[i].warned
    ensures Report(Tally(xs, rs), 0, seconds).1 == Green
  {
    NoneCounted(rs, FailedFlag);
    NonePicked(xs, rs, IsWarned);
  }

  lemma {:induction false} NoneCounted(rs: seq<RunResult>, p: RunResult -> bool)
    requires forall i :: 0 <= i < |rs| ==> !p(rs[i])
    ensures CountOf(rs, p) == 0
  {
    if rs != [] {
      NoneCounted(rs[..|rs| - 1], p);
    }
  }

  lemma {:induction false} NonePicked(xs: seq<Candidate>, rs: seq<RunResult>, p: RunResult -> bool)
    requires |xs| == |rs|
    requires forall i :: 0 <= i < |rs| ==> !p(rs[i])
    ensures Picked(xs, rs, p) == []
  {
    if xs != [] {
      NonePicked(xs[..|xs| - 1], rs[..|rs| - 1], p);
    }
  }
}
