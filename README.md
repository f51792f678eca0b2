# xdoctest core, modelled in Dafny

This project models the core of xdoctest, a doctest runner for Python, and
proves properties of the model. It covers these parts:

- **Directives and runtime state** (`Directive.dfy`, module `Directives`).
  - Directive comments such as `# xdoctest: +SKIP, -ELLIPSIS, +REQUIRES(--flag)` are parsed into `Directive` values.
  - Each directive has an `Effect`: `assign`, `set.add`, `set.remove`, `set_report_style` or `noop`.
  - The `RuntimeState` class holds a global layer that persists and an inline layer that every `update` clears.
  - A `REQUIRES` argument is checked against the command line, the platform, the OS name and a cached module lookup.
- **Example grouping** (`Core.dfy`, module `Core`).
  - The freeform parser folds the parts of a docstring into numbered examples. It drops runs that follow a skip header such as `Script:` and rebases line offsets.
  - The google parser filters and numbers the example blocks.
  - Auto style falls back from google to freeform.
  - The style dispatch decides which exceptions end a stream with a warning and which propagate.
  - A module walk skips callables that have no docstring.
- **Runner decisions** (`Runner.dfy`, module `Runner`).
  - The command line is read for the command, the style and the verbosity.
  - The examples to run are chosen, with the zero-argument fallback.
  - Each run is filed as skipped, passed or failed, and the counts are tallied.
  - The summary line and its colour are built.
- **String utilities** (`UtilStr.dfy`): `indent`, `codeblock` with the `textwrap.dedent` it relies on, `add_line_numbers`, and `strip_ansi`. `strip_ansi` removes the control sequences of section 5.4 of ECMA-48.
- **`NiceRepr`** (`UtilMixins.dfy`): how `str` and `repr` are built from `__nice__`.

`PyStr.dfy` writes out the Python `str` built-ins the core calls (`startswith`, `strip`, `lower`, `split`, `join`, `replace`, `splitlines`, `str(int)`). `Wrappers.dfy` holds `Option`, `Result` and the exception kinds. A Python generator that may raise is modelled as a `Stream(items, error)`.

Imperative code stays imperative:

- `RuntimeState` is a class whose methods update its two maps.
- The module cache is a class.
- The loops of `parse_freeform_docstr_examples`, `parse_auto_docstr_examples`, `doctest_module` and `_run_examples` are methods with loop invariants. Each is proved equal to a reference function, and the properties are proved about that function.

Two behaviours of the source are modelled as written:

- A positive `REPORT_*` directive is a `noop`. A negative one selects that report style.
- An inline `REQUIRES` directive whose requirement is unmet ends the update with `KeyError('REQUIRES')`, because the inline layer never holds `REQUIRES`. A met one is a noop.

## Model

| member | source | states |
|---|---|---|
| Directives.CommandsListed | xdoctest/directive.py:490-493 | a name is a known directive command exactly when it is one of the default state keys or `REQUIRES` |
| Directives.DirectiveNice | xdoctest/directive.py:349-355 | the nice text is the sign (`+` when positive), the name, and the arguments in parentheses when there are any |
| Directives.RequiresCheck | xdoctest/directive.py:449-474 | a `-` argument is met iff it is on the command line; `module:` with exactly one more field is met iff that module exists; otherwise the lower-cased argument, when it is a platform tag, is met iff `sys.platform` starts with it, and when it is an OS-name tag, iff `os.name` starts with it; anything else is a ValueError, the only error |
| Directives.IsRequiresSatisfiedAsWritten | xdoctest/directive.py:438-474 | `_is_requires_satisfied` with the platform tag list exactly as written (including `cywgin`); errors are ValueErrors |
| Directives.IsRequiresSatisfied | xdoctest/directive.py:438-474 | the same decision with the `cygwin` tag spelled as `sys.platform` reports it; this is what `effect` uses |
| Directives.CygwinAsWritten | xdoctest/directive.py:449-473 | on Cygwin, `REQUIRES(cygwin)` raises ValueError and `REQUIRES(cywgin)` is never met |
| Directives.CygwinCorrected | xdoctest/directive.py:449-461 | with the corrected tag, `REQUIRES(cygwin)` is met on Cygwin |
| Directives.PlatformTagsMet | xdoctest/directive.py:460-461 | a platform tag, in any letter case, is met exactly when `sys.platform` starts with it |
| Directives.RequiresCaseInsensitive | xdoctest/directive.py:460-463 | two tag arguments that lower-case alike get the same verdict |
| Directives.RequiresModule | xdoctest/directive.py:453-459 | `module:<name>` is met iff the module exists; a further ':' makes it a ValueError |
| Directives.UnpackArgs | xdoctest/directive.py:357-363 | exactly one argument is returned, any other count is a TypeError |
| Directives.EffectOf | xdoctest/directive.py:365-435 | the effect's key is the name; `REQUIRES` is `noop` when met, else `set.add` (positive) or `set.remove` (negative) of its argument, TypeError unless there is one argument, ValueError from the check; `REPORT_*` is `noop` when positive and `set_report_style` when negative; every other name assigns its sign |
| Directives.EffectIgnoresArgs | xdoctest/directive.py:425-434 | only `REQUIRES` reads its arguments or the environment; every other effect succeeds |
| Directives.PySlice | xdoctest/directive.py:527 | Python's `s[start:stop]`: the plain slice for an in-range stop, empty for a stop before the start, the rest of the string for a stop past the end, and a stop of -1 counts from the end (`s[start:len(s)-1]`) |
| Directives.RemoveSpaces | xdoctest/directive.py:521 | the result is the input with every space, and nothing else, removed |
| Directives.CleanOptstr | xdoctest/directive.py:519-521 | the cleaned option is the stripped input with its spaces removed, so it holds no space and holds a '(' iff the input does |
| Directives.OptArgs | xdoctest/directive.py:523-530 | no argument without a '('; with `(` before `)` the one argument is the text between them; with `)` first it is empty; with no `)` it is the text after `(` up to the last character; space-free for a space-free option |
| Directives.ParseDirectiveOptstr | xdoctest/directive.py:502-546 | the result is a directive iff the upper-cased head of the cleaned option, sign removed, is a known command (None for any other name); it then has that name, the cleaned option's arguments, the given inline flag, and is negative iff the head starts with '-' |
| Directives.ParseLoose | xdoctest/directive.py:518-546 | spaces anywhere, any letter case and a missing `+` give the same directive as the canonical text: a sign, a known name and at most one argument without ')' parse to that name upper-cased, positive unless the sign is '-', with that argument |
| Directives.ParseSpacedSkip | xdoctest/directive.py:302-304 | the docstring's ` + SKIP` parses to `+SKIP` |
| Directives.ParseLowerRequires | xdoctest/directive.py:307-309 | the docstring's lower-case `requires(--show)` parses to `+REQUIRES(--show)` |
| Directives.ParseUnknown | xdoctest/directive.py:312-316 | the docstring's unknown `does_not_exist` parses to nothing |
| Directives.ParseCleanWord | xdoctest/directive.py:518-546 | a clean word with no sign or argument parses to its upper-cased self, positive, when that is a known command, and to nothing otherwise |
| Directives.CleanPlainSpaces | xdoctest/directive.py:519-521 | when the only whitespace is the plain space, cleaning is removing the spaces |
| Directives.ParenSurvives | xdoctest/directive.py:519-523 | stripping and dropping spaces keep every '(' and add none |
| Directives.ParseNiceRoundTrip | xdoctest/directive.py:502-546 | parsing the nice text of a directive gives the directive back, for a known name and at most one argument without spaces or ')' |
| Directives.IsInline | xdoctest/directive.py:333-335 | extracted directives are inline iff some stripped line of the text does not start with '#' |
| Directives.MatchDirective | xdoctest/directive.py:494-499 | the directive pattern matches iff the comment body starts, case-insensitively, with `xdoctest:`, `doctest:`, `xdoc:` or `doc:`; the captured text holds no newline |
| Directives.ParseOptParts | xdoctest/directive.py:344-347 | each comma-separated option is parsed and unknown ones are dropped: a directive is in the result iff some option parses to it, every result is a known command with the given inline flag, and there are no more results than options |
| Directives.ParseOptPartsAppend | xdoctest/directive.py:344-347 | the options are parsed in order: the directives of two lists of options are those of the first followed by those of the second |
| Directives.ParseOptPartsOne | xdoctest/directive.py:345-347 | a single option gives its parsed directive when it parses, and nothing when it does not |
| Directives.FilterMap | xdoctest/directive.py:344-347 | the mapped values that are present, each coming from some element, and no more of them than elements |
| Directives.ExtractComment | xdoctest/directive.py:337-347 | the directives of one comment are the parsed options of its comma-split directive text, none for a comment without the directive prefix or with an empty option text; each is a known command with the given inline flag |
| Directives.EmptyOptNone | xdoctest/directive.py:343-344 | an empty option text yields no directive |
| Directives.Extract | xdoctest/directive.py:284-347 | a directive is extracted iff it comes from one of the comments, and every one is a known command whose inline flag is that of the whole text |
| Directives.ExtractAppend | xdoctest/directive.py:337-347 | directives come out in textual order: extraction distributes over the comments |
| Directives.ExtractNonDirective | xdoctest/directive.py:340-341 | a comment that does not start with a directive prefix yields nothing |
| Directives.Lookup | xdoctest/directive.py:203-209 | reading a key absent from the global layer is a KeyError of that key; otherwise the inline value wins over the global one |
| Directives.ReportStyle | xdoctest/directive.py:226-232 | the `set_report_style` loop. Stated by `ReportStyleOneHot`: the chosen `REPORT_*` key is on, the other `REPORT_*` keys are off, and the other keys are kept |
| Directives.ReportStyleOneHot | xdoctest/directive.py:216-232 | after `set_report_style(c)` the key `REPORT_<C>` is on, every other `REPORT_*` key is off, and every other key keeps its value |
| Directives.ApplyEffect | xdoctest/directive.py:248-270 | `noop` changes nothing; `assign` writes the flag to the named layer; `set.add` / `set.remove` add or remove the item in the set under the key of the named layer, a KeyError when the layer lacks the key (or `remove` the item), an AttributeError when the key holds a flag; `set_report_style` rewrites only the global layer; other effects write only the named layer |
| Directives.AssignThenLookup | xdoctest/directive.py:263-264 | after `assign`, reading the key gives the written flag when no inline value hides a global write |
| Directives.SetAddThenRemove | xdoctest/directive.py:265-268 | adding an item the set lacks and then removing it gives back the starting state |
| Directives.RunSnoc | xdoctest/directive.py:244-270 | an update over one more directive is the update over the others followed by that directive's step, unless an error already stopped it |
| Directives.RunStops | xdoctest/directive.py:244-270 | once an error is raised, the remaining directives are not applied |
| Directives.StepLayers | xdoctest/directive.py:254-268 | an inline directive leaves the global layer alone and a global one leaves the inline layer alone, report styles apart |
| Directives.RunAppend | xdoctest/directive.py:244-270 | applying two batches of directives is applying the second after the first |
| Directives.RequiresAddThenRemove | xdoctest/directive.py:409-424 | an unmet requirement added by `+REQUIRES` and removed by `-REQUIRES` leaves the state as it was |
| Directives.InlineRequiresMet | xdoctest/directive.py:409-416 | an inline `REQUIRES` whose requirement is met is a noop: the update ends with the state unchanged and no error |
| Directives.InlineRequiresUnmet | xdoctest/directive.py:245-268 | an inline `REQUIRES` whose requirement is unmet ends the update with `KeyError('REQUIRES')` and the state unchanged, because the inline layer does not hold `REQUIRES` |
| Directives.RunKeepsKeys | xdoctest/directive.py:244-270 | an update never removes a key from the global layer |
| Directives.RuntimeStateExample | xdoctest/directive.py:153-167 | the class docstring example: `-ELLIPSIS, +IGNORE_WHITESPACE` persist, an inline `-IGNORE_WHITESPACE` holds for one update, and an empty update restores it |
| Directives.SortedKeys | xdoctest/directive.py:196 | the keys in strictly increasing Python string order, each exactly once |
| Directives.ToDict | xdoctest/directive.py:193-197 | `to_dict()` lists every key of the merged layers once, in increasing order, with the inline value winning |
| Directives.ToDictAgreesWithLookup | xdoctest/directive.py:193-209 | every global key appears in `to_dict()` with the value `state[key]` reads |
| Directives.RuntimeStateNice | xdoctest/directive.py:199-201 | the nice text is braces around the `KEY: value` entries of `to_dict()` |
| Directives.DefaultToDict | xdoctest/directive.py:169-197 | for a fresh state, `to_dict()` lists the twelve default keys in the order the class docstring shows, each with its default value |
| Directives.DefaultNice | xdoctest/directive.py:169-201 | `RuntimeState().__nice__()`, the text the docstring shows inside `<RuntimeState(...)>`, is `KEY: value` for each default key in order (`False`/`True`, `set()` for `REQUIRES`), joined by `, ` inside braces |
| Directives.SortedUnique | xdoctest/directive.py:196 | two strictly increasing key lists with the same keys are the same list, so the sorted order is unique |
| Directives.RuntimeState.constructor | xdoctest/directive.py:187-191 | the global layer is the defaults overridden by `default_state`; the inline layer is empty |
| Directives.RuntimeState.Get | xdoctest/directive.py:203-209 | `state[key]` is a KeyError iff the key is not global; otherwise the inline value if there is one, else the global one |
| Directives.RuntimeState.Set | xdoctest/directive.py:211-214 | `state[key] = value` writes only the global layer, and only for a known key; otherwise it is a KeyError and nothing changes |
| Directives.RuntimeState.SetReportStyle | xdoctest/directive.py:216-232 | the global layer becomes `ReportStyle` of the old one and the inline layer is untouched |
| Directives.RuntimeState.Apply | xdoctest/directive.py:248-270 | one effect changes the layers as `ApplyEffect` says; a failing effect changes nothing |
| Directives.Step | xdoctest/directive.py:246-270 | one pass of the `update` loop: the directive's effect, or its error, applied to the layer `update` picks. Stated by `ApplyEffect`'s ensures and `StepLayers` |
| Directives.Run | xdoctest/directive.py:245-270 | the `update` loop over the directives in order, stopping at the first error. Stated by `RunSnoc`, `RunAppend` and `RunStops`, and matched by `RuntimeState.Update` |
| Directives.RuntimeState.Update | xdoctest/directive.py:234-270 | the inline layer is cleared, then the directives are applied in order, and the state and the error are those of `Run` from the cleared state |
| Directives.ModuleCache.Exists | xdoctest/directive.py:477-487 | the answer is the lookup's, and the cache afterwards holds exactly the old entries plus this one |
| Core.SumLinesAppend | xdoctest/core.py:162 | the line count of the parts grows by the added part's `n_lines` |
| Core.StartIgnoring | xdoctest/core.py:119-137 | the previous part disables what follows iff it is text whose stripped, lower-cased form ends with one of the skip headers |
| Core.Segments | xdoctest/core.py:149-182 | the doctest parts cut at every text part, each segment recording the text that opened it, whether that text disables it, and the lines before it |
| Core.SegmentsPartition | xdoctest/core.py:149-182 | there is one segment per text part plus one, and together they hold all doctest parts in order |
| Core.SegmentsLines | xdoctest/core.py:152-178 | the last segment's offset plus the lines of its parts is the line count of everything read |
| Core.Runs | xdoctest/core.py:149-186 | with `asone=False`, one group per non-empty, enabled segment, each non-empty |
| Core.GroupsOf | xdoctest/core.py:149-186 | with `asone=True` there is at most one group, and no group is empty |
| Core.Rebase | xdoctest/core.py:102-105 | the first part's offset becomes 0 and all differences between offsets are kept; nothing else changes |
| Core.DoctestFromParts | xdoctest/core.py:87-108 | `doctest_from_parts`: the source is the dedented join of the parts' lines and expected outputs, the line is `lineno` plus the group's offset, and the parts are rebased. Used through `FromGroups`; the rebasing is stated by `Rebase` |
| Core.FromGroups | xdoctest/core.py:87-108 | example `k` is built from group `k` with number `k` and line `lineno` plus the group's offset |
| Core.Freeform | xdoctest/core.py:34-186 | a parser error ends the stream with that error; otherwise no error, at most one example with `asone`, and examples numbered 0, 1, 2, … |
| Core.ParseFreeform | xdoctest/core.py:143-186 | the loop yields exactly the reference `Freeform` stream |
| Core.FreeformPart | xdoctest/core.py:149-182 | one pass of the loop body moves the variables as the reference step says and keeps the yielded examples equal to the finished groups |
| Core.ScanTracks | xdoctest/core.py:149-182 | after each part, the loop's variables agree with the reference grouping of the parts read |
| Core.ScanGroups | xdoctest/core.py:149-186 | scanning every part and flushing the pending run gives the reference grouping |
| Core.IgnoreDecision | xdoctest/core.py:166-178 | the loop ignores the next doctest part exactly when the current segment was opened by a skip header |
| Core.RunsHoldKeptDoctests | xdoctest/core.py:167-181 | with `asone=False` the examples together hold exactly the doctest parts whose nearest preceding text is not a skip header |
| Core.NoSkipKeepsAll | xdoctest/core.py:172-181 | without skip headers no doctest part is dropped |
| Core.AsOneMatchesRuns | xdoctest/core.py:149-186 | `asone=True` yields one example holding the same parts as the `asone=False` examples together, starting on the same line, and none when they yield none |
| Core.DocExampleScan | xdoctest/core.py:57-84 | for the docstring example, the loop gives 1 example with `asone=True` and 3 with `asone=False` |
| Core.DocExampleGroups | xdoctest/core.py:57-84 | the same example read off the reference grouping, 1 example with `asone=True` and 3 with `asone=False`, for skip verdicts that disable exactly the third and fourth text parts (`Script:` and `DisableDoctest:` in the docstring) |
| Core.ExampleBlocks | xdoctest/core.py:210-214 | the blocks kept are exactly those whose label starts with `Example`, `Doctest`, `Script` or `Benchmark`, each one from the input |
| Core.ExampleBlocksAppend | xdoctest/core.py:210-214 | the filter keeps the order: the blocks of `a + b` are those of `a` followed by those of `b` |
| Core.ExampleBlocksOne | xdoctest/core.py:212-214 | a single block is kept iff its label starts with an example tag |
| Core.Enumerate | xdoctest/core.py:215-226 | example `k` is numbered from the start, keeps the block's source and label, and starts on the line after the label; a parse error ends the stream at that block |
| Core.Google | xdoctest/core.py:189-226 | a splitter error ends the stream with it; otherwise one example per example block unless one fails to parse, numbered 0, 1, 2, … |
| Core.GoogleItems | xdoctest/core.py:211-222 | example `k` comes from the `k`-th example block, its label starts with an example tag, and its line is `lineno + offset + 1` |
| Core.Auto | xdoctest/core.py:229-251 | freeform is used iff google yielded nothing; google's error propagates once it yielded something and is swallowed otherwise |
| Core.ParseAuto | xdoctest/core.py:237-251 | the counting generator yields exactly the `Auto` stream |
| Core.YieldAuto | xdoctest/core.py:237-251 | counting what google yields, then freeform only if the count is 0, gives the google stream when it yielded anything and the freeform one otherwise |
| Core.Tolerate | xdoctest/core.py:321-352 | MalformedDocstr and DoctestParseError end the stream quietly with the items kept; other errors pass through unchanged |
| Core.ParseDocstrExamples | xdoctest/core.py:254-354 | an unknown style is a KeyError; each known style gives its parser's stream with the same examples, the tolerated errors dropped and any other error passed through unchanged; every example has the given callname |
| Core.CallableExamples | xdoctest/core.py:506-515 | a callable with a docstring gives `parse_docstr_examples` of that docstring with its name and line; its examples carry its callname and no tolerated error escapes |
| Core.CollectWithFacts | xdoctest/core.py:504-515 | errors of a callable's stream pass through, and every example names a callable that has a docstring |
| Core.Collect | xdoctest/core.py:504-515 | no callables give no examples; each example names a callable that has a docstring, and no tolerated error escapes |
| Core.CollectOne | xdoctest/core.py:506-515 | one callable contributes its docstring's examples, or nothing when it has no docstring |
| Core.CollectStops | xdoctest/core.py:506-515 | once a callable's stream raises, the callables after it contribute nothing |
| Core.Doctestables | xdoctest/core.py:499-515 | an unknown style is a KeyError before anything is parsed; otherwise the examples are those collected from the callables |
| Core.SkipsMissingDocstr | xdoctest/core.py:507-508 | a callable whose docstring is None contributes nothing |
| Core.CollectAppend | xdoctest/core.py:504-515 | callables contribute their examples in order, as long as none raises |
| Runner.ParseCommandline | xdoctest/runner.py:397-426 | an explicit command is kept; otherwise it is `argv[0]` iff that is non-empty and does not start with '-'; `--freeform` wins over `--google`, and with neither the style is unchanged; an explicit verbosity is kept, otherwise 3 with `--verbose`, else 0 with `--quiet`, else -1 with `--silent`, else 3 |
| Runner.ModuleAction | xdoctest/runner.py:96-155 | with no command, or `list`, the tests are listed; `dump` dumps them; anything else runs them |
| Runner.Selected | xdoctest/runner.py:131-144 | the examples that run: the enabled parsed examples, or the zero-argument fallback when none is enabled. Stated by `SelectedParsed` and `FallbackOnlyWhenNoneEnabled`, and computed by `SelectExamples` |
| Runner.SelectExamples | xdoctest/runner.py:129-144 | the loops choose exactly the reference `Selected` examples |
| Runner.GatherEnabled | xdoctest/runner.py:131-135 | the first loop keeps exactly the enabled parsed examples, in order |
| Runner.GatherZeroArg | xdoctest/runner.py:137-144 | the fallback loop keeps exactly the zero-argument examples the command names, or all of them for a zero command, in order |
| Runner.SiftMembers | xdoctest/runner.py:131-144 | an example is selected iff it is a candidate the test accepts |
| Runner.SelectedParsed | xdoctest/runner.py:131-137 | when some parsed example is enabled, exactly the enabled ones run and the fallback is not used |
| Runner.GatherAllDropsDisabled | xdoctest/runner.py:108-134 | under `all` or `dump` every parsed example runs except the disabled ones |
| Runner.NamedKeepsDisabled | xdoctest/runner.py:108-134 | under any other command an example runs iff the command is one of its test names, disabled or not |
| Runner.FallbackOnlyWhenNoneEnabled | xdoctest/runner.py:137-144 | when no parsed example is enabled, the zero-argument examples are the ones chosen |
| Runner.ZeroArgExamples | xdoctest/runner.py:285-303 | `_gather_zero_arg_examples`: at most one example per callable. Exactly which ones is stated by `ZeroArgMembers` and `ZeroArgSources` |
| Runner.ZeroArgMembers | xdoctest/runner.py:291-297 | every callable whose arguments all have defaults gives a zero-argument example |
| Runner.ZeroArgSources | xdoctest/runner.py:291-301 | every zero-argument example comes from such a callable, with source `>>> <callname>()` and block type `zero-arg` |
| Runner.Tally | xdoctest/runner.py:369-394 | the run summary of `_run_examples`. Stated by `FailedExactly`, `TallyPartition` and `ConsistentCounts`, and computed by `RunExamples` |
| Runner.RunExamples | xdoctest/runner.py:306-393 | the loop returns the reference `Tally` of the results |
| Runner.FileResult | xdoctest/runner.py:335-352 | an example with warnings joins the warned list, and one neither skipped nor passed joins the failed list |
| Runner.FailedExactly | xdoctest/runner.py:338-352 | an example is in the failed list iff its result is neither skipped nor passed |
| Runner.TallyPartition | xdoctest/runner.py:338-352 | skipped, passed-and-not-skipped and failed examples add up to the number run |
| Runner.ConsistentCounts | xdoctest/runner.py:369-391 | when each result carries exactly one flag, `n_failed` is the length of the failed list and the three counts add up to `n_total` |
| Runner.SummaryPartsShown | xdoctest/runner.py:262-264 | the summary lists `<n> failed`, `<n> passed`, `<n> skipped`, `<n> warnings` in that order, each only when its count is positive |
| Runner.SummaryLine | xdoctest/runner.py:265-266 | the summary line starts with `=== ` |
| Runner.SummaryColour | xdoctest/runner.py:268-274 | red iff something failed, else yellow iff there were warnings, else green |
| Runner.Report | xdoctest/runner.py:261-274 | the summary line and its colour, with warnings counted as the warned examples plus the parse warnings. Stated by `SummaryPartsShown`, `SummaryColour` and `CleanRunIsGreen` |
| Runner.CleanRunIsGreen | xdoctest/runner.py:261-274 | a run without failures or warnings is reported in green |
| UtilStr.Prefixed | xdoctest/utils/util_str.py:140 | one output line per input line, each with the prefix in front |
| UtilStr.Indent | xdoctest/utils/util_str.py:120-140 | `indent`: the prefix before the text and after every newline. Its meaning is stated by `IndentIsJoinOfPrefixedLines`, `IndentLines` and `IndentRoundTrip` |
| UtilStr.IndentIsJoinOfPrefixedLines | xdoctest/utils/util_str.py:140 | `indent` is the prefixed lines of the text joined by newlines |
| UtilStr.IndentLines | xdoctest/utils/util_str.py:135-140 | with a one-line prefix, the result has as many lines as the text, each starting with the prefix |
| UtilStr.IndentRoundTrip | xdoctest/utils/util_str.py:140 | removing the prefix from each line of the result gives the text back |
| UtilStr.Margin | xdoctest/utils/util_str.py:253 | the common indent of the dedent is made of spaces and tabs, starts the indent of every line with content, and is absent only when no line has content |
| UtilStr.MarginIsLongest | xdoctest/utils/util_str.py:253 | anything that starts every content line's indent is part of the margin |
| UtilStr.Dedent | xdoctest/utils/util_str.py:253 | `textwrap.dedent`: the longest blank margin common to the content lines is removed from each line, and blank lines become empty. Stated by `DedentSplit`, `DedentLineByLine` and `DedentNoCommonIndent` |
| UtilStr.DedentSplit | xdoctest/utils/util_str.py:253 | the lines of `dedent(text)` are the text's lines with the margin removed and blank lines emptied |
| UtilStr.DedentLineByLine | xdoctest/utils/util_str.py:253 | a blank line comes out empty, and every other line loses the same indent made of spaces and tabs |
| UtilStr.DedentNoCommonIndent | xdoctest/utils/util_str.py:253 | no space or tab starts every content line of the result |
| UtilStr.Codeblock | xdoctest/utils/util_str.py:221-253 | the result neither starts nor ends with a newline, and is the dedented text with only leading and trailing newlines removed |
| UtilStr.CeilLog10 | xdoctest/utils/util_str.py:203-206 | the smallest `d` with `10^d >= x` |
| UtilStr.PadLeft | xdoctest/utils/util_str.py:208-212 | a number narrower than the field gets spaces in front up to the width; a wider one is left as it is |
| UtilStr.NumberLines | xdoctest/utils/util_str.py:210-213 | line `i` of the output is `start + i` in the field, a space, and line `i` of the input |
| UtilStr.AddLineNumbers | xdoctest/utils/util_str.py:186-218 | a list in gives the numbered list out; a string in gives the numbered `splitlines()` joined by newlines; the width is `n_digits` when given (a minus sign dropped) and the digit count of `start + len(lines)` otherwise |
| UtilStr.AddLineNumbersAligned | xdoctest/utils/util_str.py:203-212 | with the default width and a non-negative start, every line is a number column of exactly that width, a space, and the original line |
| UtilStr.AddLineNumbersText | xdoctest/utils/util_str.py:200-216 | for a string, the lines of the result are the numbered lines of the input |
| UtilStr.SequenceLength | xdoctest/utils/util_str.py:30 | a matched control sequence spans at least two characters and lies within the text |
| UtilStr.StripAnsi | xdoctest/utils/util_str.py:14-32 | the result is never longer than the text and holds only its characters |
| UtilStr.StripAnsiPlain | xdoctest/utils/util_str.py:30-31 | text without ESC or 0x9B comes back unchanged |
| UtilStr.StripAnsiPlainPrefix | xdoctest/utils/util_str.py:30-31 | a plain prefix survives and removal goes on after it |
| UtilStr.ControlSequenceRemoved | xdoctest/utils/util_str.py:30-31 | a control sequence at the front (introducer, parameter bytes, intermediate bytes, final byte) is removed entirely |
| UtilMixins.Str | xdoctest/utils/util_mixins.py:36-46 | `str` fails iff `__nice__` raises, with that error; without `__nice__` it is the object's default text |
| UtilMixins.Repr | xdoctest/utils/util_mixins.py:23-33 | `repr` fails iff `__nice__` raises, with that error; without `__nice__` it is the object's default text |
| UtilMixins.StrRoundTrip | xdoctest/utils/util_mixins.py:36-40 | `str` is `<Class(nice)>`, from which the nice text can be read back |
| UtilMixins.ReprExtendsStr | xdoctest/utils/util_mixins.py:23-40 | `repr` is `str` with ` at <address>` before the closing `>`; without `__nice__` they agree |
| UtilMixins.ObjectRepr | xdoctest/utils/util_mixins.py:33-46 | `object.__repr__`, which `__str__` and `__repr__` fall back to when `__nice__` is missing. Stated by `Str`, `Repr` and `MissingNiceShowsObject` |
| UtilMixins.MissingNiceShowsObject | xdoctest/utils/util_mixins.py:10-46 | a class without `__nice__` shows `object at` in both `str` and `repr` |
| UtilMixins.BarExample | xdoctest/utils/util_mixins.py:13-19 | the class docstring example: `str` is `<Bar(info)>` and `repr` starts with `<Bar(info) at ` |

## Left out

- Printing, `time.time()`, durations, `warnings.warn` (a no-op here) and the exact text of warning and error messages. The summary line takes the elapsed seconds as already formatted text, so the `{:.2f}` float formatting is left out.
- The collaborators that are not part of this model are inputs: the line-level doctest parser, the google block splitter, the `DocTest` class (its parse step, `run`, `valid_testnames`, `is_disabled`, `warn_list`), the comment tokenizer used by `extract`, and `modname_to_modpath`.
- `package_calldefs`, `_rectify_to_modpath` and the module walk. The callables of a module, with their docstrings and argument counts, are given in order.
- `sys.argv`, `sys.platform` and `os.name` are inputs: the `argv` default of `_parse_commandline` and the `Env` of the `REQUIRES` check.
- `parser_kw` is not modelled. The dispatch calls freeform with `asone=True` and google with `eager_parse=True`, the defaults. `Core.Freeform` still takes `asone` as a parameter.
- `doctest_from_parts` rebases the offsets of a copy of the parts, not of the parser's part objects. Aliasing between the parts and the example is not modelled.
- Directives.RuntimeState.constructor: `__init__` copies the values of `default_state` into the global layer. The source's `self._global_state.update(default_state)` (xdoctest/directive.py:189) keeps the caller's `REQUIRES` set object, so a later `+REQUIRES`/`-REQUIRES` also changes the caller's set. That sharing is not modelled.
- Case mapping (`lower`, `upper`) is ASCII only. The `re.IGNORECASE` of the `strip_ansi` pattern only matters for non-ASCII final bytes, and those are not modelled.
- `str()` of a non-empty set in `RuntimeState.__nice__` is an input (`showSet`), because Python does not fix the iteration order of a set.
- `hex(id(self))` in `NiceRepr.__repr__` is an abstract address string.
- `color_text`, `highlight_code` and `ensure_unicode` are thin wrappers around pygments and codecs.
- `math.log` in `add_line_numbers` is replaced by the integer digit count `CeilLog10`. The float rounding of `ceil(log10(x))` at exact powers of ten is not modelled.
- In `_run_examples`, KeyboardInterrupt handling and the `times` dictionary are left out. So is the `on_error == 'raise'` branch, which is dead because `on_error` is always set to `'return'`.
- In `doctest_module`, `config.update`, the disabled random shuffle and `_convert_to_test_module` are left out. The action is modelled, but not what is dumped.
- Runner.RunExamples: an exception raised by `example.run` itself (xdoctest/runner.py:331-333) is printed and re-raised, ending the loop with no summary. Each run is given as a `RunResult`, so that path is not modelled.
- Directives.EffectOf and Directives.RuntimeState.Update: they use the corrected platform tag `cygwin` (see Findings). As written, `REQUIRES(cygwin)` makes `update` raise ValueError, and that behaviour is modelled only by Directives.CygwinAsWritten.
- Runner.SummaryLine: only its framing is stated as a contract. What it lists is stated by Runner.SummaryPartsShown.
- Core.DocExampleScan and Core.DocExampleGroups: the docstring example is stated for any skip verdict on the five text parts that matches the one `StartsSkip` gives for its texts. Evaluating `StartsSkip` on those literal texts is not part of the proof.

## Findings

| source | as written | input that shows it | evidently intended | confidence | as-written member | corrected member |
|---|---|---|---|---|---|---|
| xdoctest/directive.py:449 | the platform tags are `win32`, `linux`, `darwin` and `cywgin` | `REQUIRES(cygwin)` raises ValueError, and `REQUIRES(cywgin)` is unmet when `sys.platform` is `cygwin` | the tag `cygwin`, which `sys.platform` reports on Cygwin | not executed | Directives.CygwinAsWritten | Directives.CygwinCorrected |
