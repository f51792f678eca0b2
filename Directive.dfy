/**
 * Directives (`# xdoctest: +SKIP, -ELLIPSIS, +REQUIRES(--flag)`) and the
 * runtime state they modify.
 *
 * The runtime state has two layers: the global layer persists across
 * updates, the inline layer holds the overrides of the current line and
 * is cleared by every update.  Reading a key prefers the inline layer.
 */
module Directives {
  import opened Wrappers
  import opened PyStr

  // ---------------------------------------------------------------- values and defaults

  /** A runtime-state value: a boolean flag, or the set of unmet requirements. */
  datatype Value = Flag(b: bool) | Reqs(items: set<string>)

  const DefaultRuntimeState: map<string, Value> := map[
    "DONT_ACCEPT_BLANKLINE" := Flag(false),
    "ELLIPSIS" := Flag(true),
    "IGNORE_WHITESPACE" := Flag(false),
    "IGNORE_EXCEPTION_DETAIL" := Flag(false),
    "NORMALIZE_WHITESPACE" := Flag(true),
    "IGNORE_WANT" := Flag(false),
    "NORMALIZE_REPR" := Flag(true),
    "REPORT_CDIFF" := Flag(false),
    "REPORT_NDIFF" := Flag(false),
    "REPORT_UDIFF" := Flag(true),
    "SKIP" := Flag(false),
    "REQUIRES" := Reqs({})
  ]

  /** The directive names the parser accepts (`COMMANDS`): the default keys and `REQUIRES`. */
  const Commands: set<string> := DefaultRuntimeState.Keys + {"REQUIRES"}

  /** `COMMANDS` as the list it is: the default keys in their order, then `REQUIRES` once more. */
  const CommandList: seq<string> := [
    "DONT_ACCEPT_BLANKLINE", "ELLIPSIS", "IGNORE_WHITESPACE", "IGNORE_EXCEPTION_DETAIL",
    "NORMALIZE_WHITESPACE", "IGNORE_WANT", "NORMALIZE_REPR", "REPORT_CDIFF", "REPORT_NDIFF",
    "REPORT_UDIFF", "SKIP", "REQUIRES", "REQUIRES"
  ]

  /** The list holds exactly the accepted names. */
  lemma CommandsListed(name: string)
    ensures name in Commands <==> name in CommandList
  {
  }

  // ---------------------------------------------------------------- directives

  /**
   * A parsed directive.  The source's `inline=None` default behaves as a
   * false `inline` wherever it is read, so `inline` is a plain boolean here.
   */
  datatype Directive = Directive(name: string, positive: bool, args: seq<string>, inline: bool)

  /** `Directive.__nice__`: the sign, the name, and the arguments in parentheses if any. */
  function DirectiveNice(d: Directive): string {
    (if d.positive then "+" else "-") + d.name
    + (if d.args != [] then "(" + Join(", ", d.args) + ")" else "")
  }

  /** How a directive changes a runtime state: `Effect(action, key, value)` of the source. */
  datatype Effect =
    | Noop(key: string)
    | Assign(key: string, value: bool)
    | SetAdd(key: string, item: string)
    | SetRemove(key: string, item: string)
    | SetReportStyle(key: string)

  /**
   * What the directive code sees of the environment: the command line
   * (`sys.argv`), `sys.platform`, `os.name`, and whether a module can be
   * found by name.
   */
  datatype Env = Env(argv: seq<string>, platform: string, osName: string, moduleExists: string -> bool)

  // ---------------------------------------------------------------- REQUIRES

  /** The platform tags exactly as the source lists them, including the `cywgin` misspelling. */
  const SysPlatformTagsAsWritten: seq<string> := ["win32", "linux", "darwin", "cywgin"]

  /** The platform tags with `cygwin` spelled as `sys.platform` reports it on Cygwin. */
  const SysPlatformTags: seq<string> := ["win32", "linux", "darwin", "cygwin"]

  const OsNameTags: seq<string> := ["posix", "nt", "java"]

  /**
   * Whether the argument of a `REQUIRES` directive is met, given the
   * platform tags in use: a command-line flag, `module:<name>`, a platform
   * tag or an OS-name tag; anything else is a ValueError.
   */
  function RequiresCheck(arg: string, env: Env, platformTags: seq<string>): (r: Result<bool>)
    ensures r.Err? ==> r.error == ValueError
    ensures StartsWith(arg, "-") ==> r == Ok(arg in env.argv)
    ensures StartsWith(arg, "module:") && |Split(arg, ':')| == 2 ==> r == Ok(env.moduleExists(Split(arg, ':')[1]))
    ensures !StartsWith(arg, "-") && !StartsWith(arg, "module:") && Lower(arg) in platformTags
            ==> r == Ok(StartsWith(env.platform, Lower(arg)))
    ensures !StartsWith(arg, "-") && !StartsWith(arg, "module:") && Lower(arg) !in platformTags && Lower(arg) in OsNameTags
            ==> r == Ok(StartsWith(env.osName, Lower(arg)))
    ensures r.Err? <==>
              !StartsWith(arg, "-") &&
              if StartsWith(arg, "module:") then |Split(arg, ':')| != 2
              else Lower(arg) !in platformTags && Lower(arg) !in OsNameTags
  {
    if StartsWith(arg, "-") then Ok(arg in env.argv)
    else if StartsWith(arg, "module:") then
      var parts := Split(arg, ':');
      if |parts| != 2 then Err(ValueError) else Ok(env.moduleExists(parts[1]))
    else if Lower(arg) in platformTags then Ok(StartsWith(env.platform, Lower(arg)))
    else if Lower(arg) in OsNameTags then Ok(StartsWith(env.osName, Lower(arg)))
    else Err(ValueError)
  }

  /** `_is_requires_satisfied` exactly as written. */
  function IsRequiresSatisfiedAsWritten(arg: string, env: Env): (r: Result<bool>)
    ensures r.Err? ==> r.error == ValueError
  {
    RequiresCheck(arg, env, SysPlatformTagsAsWritten)
  }

  /** `_is_requires_satisfied` with the platform tag `cygwin` spelled correctly. */
  function IsRequiresSatisfied(arg: string, env: Env): (r: Result<bool>)
    ensures r.Err? ==> r.error == ValueError
  {
    RequiresCheck(arg, env, SysPlatformTags)
  }

  /** As written, `REQUIRES(cygwin)` is rejected and `REQUIRES(cywgin)` is never met on Cygwin. */
  lemma CygwinAsWritten(env: Env)
    requires env.platform == "cygwin"
    ensures IsRequiresSatisfiedAsWritten("cygwin", env) == Err(ValueError)
    ensures IsRequiresSatisfiedAsWritten("cywgin", env) == Ok(false)
  {
    CygwinRejected(env);
    CywginUnmet(env);
  }

  lemma CygwinRejected(env: Env)
    ensures IsRequiresSatisfiedAsWritten("cygwin", env) == Err(ValueError)
  {
    LowerOfLower("cygwin");
    DiffersAt("cygwin", "-", 0);
    DiffersAt("cygwin", "module:", 0);
    assert "cygwin" !in SysPlatformTagsAsWritten;
    assert "cygwin" !in OsNameTags;
  }

  lemma CywginUnmet(env: Env)
    requires env.platform == "cygwin"
    ensures IsRequiresSatisfiedAsWritten("cywgin", env) == Ok(false)
  {
    LowerOfLower("cywgin");
    DiffersAt("cywgin", "-", 0);
    DiffersAt("cywgin", "module:", 0);
    DiffersAt("cygwin", "cywgin", 2);
    assert "cywgin" in SysPlatformTagsAsWritten;
  }

  /** With the tag spelled `cygwin`, `REQUIRES(cygwin)` is met on Cygwin. */
  lemma CygwinCorrected(env: Env)
    requires env.platform == "cygwin"
    ensures IsRequiresSatisfied("cygwin", env) == Ok(true)
  {
    LowerOfLower("cygwin");
    assert "cygwin" in SysPlatformTags;
    DiffersAt("cygwin", "-", 0);
    DiffersAt("cygwin", "module:", 0);
  }

  /** Every platform tag, in any letter case, is met exactly when `sys.platform` starts with it. */
  lemma PlatformTagsMet(tag: string, arg: string, env: Env)
    requires tag in SysPlatformTags
    requires Lower(arg) == tag
    ensures IsRequiresSatisfied(arg, env) == Ok(StartsWith(env.platform, tag))
  {
    DiffersAt(arg, "-", 0);
    DiffersAt(arg, "module:", 0);
  }

  /** Tags are read case-insensitively: two arguments that lower-case alike are judged alike. */
  lemma RequiresCaseInsensitive(a: string, b: string, env: Env)
    requires Lower(a) == Lower(b)
    requires !StartsWith(a, "-") && !StartsWith(b, "-")
    requires !StartsWith(a, "module:") && !StartsWith(b, "module:")
    ensures IsRequiresSatisfied(a, env) == IsRequiresSatisfied(b, env)
  {
  }

  /** `module:<name>` for a name without ':' asks whether that module exists; with a ':' it is a ValueError. */
  lemma RequiresModule(modname: string, env: Env)
    ensures ':' !in modname ==> IsRequiresSatisfied("module:" + modname, env) == Ok(env.moduleExists(modname))
    ensures ':' in modname ==> IsRequiresSatisfied("module:" + modname, env) == Err(ValueError)
  {
    var arg := "module:" + modname;
    assert arg[..7] == "module:";
    DiffersAt(arg, "-", 0);
    var tail := ":" + modname;
    assert tail[0] == ':' && tail[1..] == modname;
    assert Split(tail, ':') == [""] + Split(modname, ':');
    assert arg == "module" + tail;
    SplitPrefix("module", tail, ':');
    assert "module" + "" == "module";
    var parts := Split(arg, ':');
    assert parts == ["module"] + Split(modname, ':');
    if ':' !in modname {
      SplitNoSep(modname, ':');
      assert parts == ["module", modname];
    } else {
      SplitHasSepFields(modname, ':');
    }
  }

  /** A string holding the separator splits into at least two fields. */
  lemma {:induction false} SplitHasSepFields(s: string, sep: char)
    requires sep in s
    ensures |Split(s, sep)| >= 2
  {
    if s[0] != sep {
      SplitHasSepFields(s[1..], sep);
    }
  }

  // ---------------------------------------------------------------- effect

  /** `Directive._unpack_args(1)`: the single argument, or a TypeError. */
  function UnpackArgs(d: Directive): (r: Result<string>)
    ensures r.Ok? <==> |d.args| == 1
    ensures r.Ok? ==> r.value == d.args[0]
    ensures r.Err? ==> r.error == TypeError
  {
    if |d.args| != 1 then Err(TypeError) else Ok(d.args[0])
  }

  /** `Directive.effect(argv)` */
  function EffectOf(d: Directive, env: Env): (r: Result<Effect>)
    ensures r.Ok? ==> r.value.key == d.name
    ensures r.Err? ==> d.name == "REQUIRES"
    ensures d.name == "REQUIRES" && |d.args| != 1 ==> r == Err(TypeError)
    ensures d.name == "REQUIRES" && |d.args| == 1 ==>
              match IsRequiresSatisfied(d.args[0], env)
              case Err(e) => r == Err(e)
              case Ok(met) =>
                if met then r == Ok(Noop("REQUIRES"))
                else if d.positive then r == Ok(SetAdd("REQUIRES", d.args[0]))
                else r == Ok(SetRemove("REQUIRES", d.args[0]))
    ensures d.name != "REQUIRES" && StartsWith(d.name, "REPORT_") ==>
              r == Ok(if d.positive then Noop(d.name) else SetReportStyle(d.name))
    ensures d.name != "REQUIRES" && !StartsWith(d.name, "REPORT_") ==> r == Ok(Assign(d.name, d.positive))
  {
    if d.name == "REQUIRES" then
      match UnpackArgs(d)
      case Err(e) => Err(e)
      case Ok(arg) =>
        match IsRequiresSatisfied(arg, env)
        case Err(e) => Err(e)
        case Ok(met) =>
          if met then Ok(Noop("REQUIRES"))
          else if d.positive then Ok(SetAdd("REQUIRES", arg))
          else Ok(SetRemove("REQUIRES", arg))
    else if StartsWith(d.name, "REPORT_") then
      Ok(if d.positive then Noop(d.name) else SetReportStyle(d.name))
    else
      Ok(Assign(d.name, d.positive))
  }

  /** Only `REQUIRES` looks at its arguments or at the environment. */
  lemma EffectIgnoresArgs(d: Directive, args: seq<string>, env: Env, env': Env)
    requires d.name != "REQUIRES"
    ensures EffectOf(d, env) == EffectOf(d.(args := args), env')
    ensures EffectOf(d, env).Ok?
  {
  }

  // ---------------------------------------------------------------- parse_directive_optstr

  /**
   * Python's `s[start:stop]` for a non-negative start and a stop that may be
   * negative (counted from the end) or past the end.
   */
  function PySlice(s: string, start: nat, stop: int): (r: string)
    requires start <= |s|
    ensures |r| <= |s| - start
    ensures forall c :: c in r ==> c in s
    ensures 0 <= stop <= |s| && start <= stop ==> r == s[start..stop]
    ensures 0 <= stop < start ==> r == []
    ensures stop > |s| ==> r == s[start..]
    ensures stop < 0 ==> r == if start <= |s| + stop then s[start..|s| + stop] else []
  {
    var end := if stop < 0 then (if |s| + stop < 0 then 0 else |s| + stop) else if stop > |s| then |s| else stop;
    if end <= start then [] else s[start..end]
  }

  /** `s.replace(' ', '')`: the input without its spaces, everything else kept in order. */
  function RemoveSpaces(s: string): (r: string)
    ensures r == Without(s, ' ')
  {
    ReplaceSpaceIsWithout(s);
    Replace(s, " ", "")
  }

  lemma {:induction false} ReplaceSpaceIsWithout(s: string)
    ensures Replace(s, " ", "") == Without(s, ' ')
  {
    if s != [] {
      ReplaceSpaceIsWithout(s[1..]);
      assert s[..1] == [s[0]];
      if StartsWith(s, " ") {
        assert s[|" "|..] == s[1..];
      }
    }
  }

  /** The option text as the parser reads it: stripped, with every space removed. */
  function CleanOptstr(optpart: string): (s: string)
    ensures s == Without(Strip(optpart), ' ')
    ensures ' ' !in s
    ensures '(' in s <==> '(' in optpart
  {
    ParenSurvives(optpart);
    RemoveSpaces(Strip(optpart))
  }

  /**
   * The one argument: the text from after the first '(' up to the first ')',
   * as a Python slice.  Without a ')' the stop is -1, so the last character
   * is cut off; a ')' before the '(' gives the empty argument.
   */
  function OptArgs(s: string): (args: seq<string>)
    ensures |args| <= 1
    ensures args != [] <==> '(' in s
    ensures ' ' !in s ==> forall i :: 0 <= i < |args| ==> ' ' !in args[i]
    ensures '(' in s && ')' in s && Find(s, '(') < Find(s, ')') ==> args == [s[Find(s, '(') + 1..Find(s, ')')]]
    ensures '(' in s && ')' in s && Find(s, ')') < Find(s, '(') ==> args == [""]
    ensures '(' in s && ')' !in s ==> args == [if Find(s, '(') + 1 < |s| then s[Find(s, '(') + 1..|s| - 1] else ""]
  {
    var paren := Find(s, '(');
    if paren > -1 then [PySlice(s, paren + 1, Find(s, ')'))] else []
  }

  /** The text before the first '('. */
  function OptHead(s: string): string {
    var paren := Find(s, '(');
    if paren > -1 then s[..paren] else s
  }

  /** The name: the head without its sign, upper-cased. */
  function OptName(head: string): string {
    Upper(if StartsWith(head, "+") || StartsWith(head, "-") then head[1..] else head)
  }

  /**
   * `parse_directive_optstr(optpart, inline)`: strip, drop every space, take
   * the parenthesised text as the one argument, read the sign ('-' negative,
   * '+' or none positive), upper-case the name, and keep the directive only
   * if the name is a known command.
   */
  function ParseDirectiveOptstr(optpart: string, inline: bool): (r: Option<Directive>)
    ensures r.Some? <==> OptName(OptHead(CleanOptstr(optpart))) in Commands
    ensures r.Some? ==> r.value.name == OptName(OptHead(CleanOptstr(optpart))) && r.value.args == OptArgs(CleanOptstr(optpart))
    ensures r.Some? ==> r.value.name in Commands && r.value.inline == inline
    ensures r.Some? ==> |r.value.args| <= 1 && forall i :: 0 <= i < |r.value.args| ==> ' ' !in r.value.args[i]
    ensures r.Some? ==> (r.value.args != [] <==> '(' in optpart)
    ensures r.Some? ==> (r.value.positive <==> !StartsWith(OptHead(CleanOptstr(optpart)), "-"))
  {
    var s := CleanOptstr(optpart);
    var head := OptHead(s);
    var name := OptName(head);
    if name in Commands then Some(Directive(name, !StartsWith(head, "-"), OptArgs(s), inline)) else None
  }

  /** Stripping and dropping spaces keep every '(' and add none. */
  lemma ParenSurvives(s: string)
    ensures '(' in RemoveSpaces(Strip(s)) <==> '(' in s
  {
    StripKeepsNonSpace(s, '(');
  }

  lemma StripKeepsNonSpace(s: string, c: char)
    requires !IsSpace(c)
    ensures c in Strip(s) <==> c in s
  {
    var l := LStripBy(s, IsSpace);
    LStripKeeps(s, IsSpace, c);
    RStripKeeps(l, IsSpace, c);
  }

  lemma LStripKeeps(s: string, drop: char -> bool, c: char)
    requires !drop(c)
    ensures c in LStripBy(s, drop) <==> c in s
  {
    var l := LStripBy(s, drop);
    LStripByFacts(s, drop);
    if c in s {
      var i :| 0 <= i < |s| && s[i] == c;
      assert i >= |s| - |l|;
      assert l[i - (|s| - |l|)] == c;
    }
    if c in l {
      var i :| 0 <= i < |l| && l[i] == c;
      assert s[i + (|s| - |l|)] == c;
    }
  }

  lemma RStripKeeps(s: string, drop: char -> bool, c: char)
    requires !drop(c)
    ensures c in RStripBy(s, drop) <==> c in s
  {
    var r := RStripBy(s, drop);
    RStripByFacts(s, drop);
    if c in s {
      var i :| 0 <= i < |s| && s[i] == c;
      assert i < |r|;
      assert r[i] == c;
    }
    if c in r {
      var i :| 0 <= i < |r| && r[i] == c;
      assert s[i] == c;
    }
  }

  /** Where the only whitespace is the plain space, stripping first makes no difference. */
  lemma CleanPlainSpaces(s: string)
    requires forall i :: 0 <= i < |s| && IsSpace(s[i]) ==> s[i] == ' '
    ensures CleanOptstr(s) == Without(s, ' ')
  {
    LStripPlain(s);
    RStripPlain(LStripBy(s, IsSpace));
  }

  lemma LStripPlain(s: string)
    requires forall i :: 0 <= i < |s| && IsSpace(s[i]) ==> s[i] == ' '
    ensures var l := LStripBy(s, IsSpace);
            Without(l, ' ') == Without(s, ' ') && forall i :: 0 <= i < |l| && IsSpace(l[i]) ==> l[i] == ' '
  {
    var l := LStripBy(s, IsSpace);
    var n := |s| - |l|;
    LStripByFacts(s, IsSpace);
    assert s == s[..n] + l;
    WithoutAppend(s[..n], l, ' ');
    OnlySpaces(s[..n]);
    assert forall i :: 0 <= i < |l| ==> l[i] == s[n + i];
  }

  lemma RStripPlain(s: string)
    requires forall i :: 0 <= i < |s| && IsSpace(s[i]) ==> s[i] == ' '
    ensures Without(RStripBy(s, IsSpace), ' ') == Without(s, ' ')
  {
    var r := RStripBy(s, IsSpace);
    var t := s[|r|..];
    RStripByFacts(s, IsSpace);
    forall i | 0 <= i < |t|
      ensures t[i] == ' '
    {
      assert IsSpace(s[|r| + i]);
    }
    OnlySpaces(t);
    assert s == r + t;
    WithoutAppend(r, t, ' ');
  }

  lemma {:induction false} OnlySpaces(s: string)
    requires forall i :: 0 <= i < |s| ==> s[i] == ' '
    ensures Without(s, ' ') == []
  {
    if s != [] {
      OnlySpaces(s[1..]);
    }
  }

  /**
   * The parser is forgiving: spaces anywhere, any letter case and a missing
   * sign give the same directive as the canonical text.
   */
  lemma ParseLoose(optpart: string, inline: bool, sign: string, word: string, args: seq<string>)
    requires sign == "" || sign == "+" || sign == "-"
    requires forall i :: 0 <= i < |optpart| && IsSpace(optpart[i]) ==> optpart[i] == ' '
    requires |args| <= 1 && forall i :: 0 <= i < |args| ==> ')' !in args[i]
    requires Without(optpart, ' ') == sign + word + (if args == [] then "" else "(" + args[0] + ")")
    requires Upper(word) in Commands
    ensures ParseDirectiveOptstr(optpart, inline) == Some(Directive(Upper(word), sign != "-", args, inline))
  {
    CommandsAreNames(Upper(word));
    WordChars(word);
    if args == [] {
      assert Without(optpart, ' ') == sign + word;
      LoosePlain(optpart, sign, word);
      ParseFromParts(optpart, inline, Upper(word), sign != "-", []);
    } else {
      assert args == [args[0]];
      LooseArg(optpart, sign, word, args[0]);
      ParseFromParts(optpart, inline, Upper(word), sign != "-", [args[0]]);
    }
  }

  /** The head of a loosely written option without an argument. */
  lemma LoosePlain(optpart: string, sign: string, word: string)
    requires sign == "" || sign == "+" || sign == "-"
    requires forall i :: 0 <= i < |optpart| && IsSpace(optpart[i]) ==> optpart[i] == ' '
    requires Without(optpart, ' ') == sign + word
    requires word != [] && forall i :: 0 <= i < |word| ==> word[i] != '(' && word[i] != ')' && word[i] != '+' && word[i] != '-'
    ensures OptName(OptHead(CleanOptstr(optpart))) == Upper(word)
    ensures OptArgs(CleanOptstr(optpart)) == []
    ensures StartsWith(OptHead(CleanOptstr(optpart)), "-") <==> sign == "-"
  {
    CleanPlainSpaces(optpart);
    SignedWord(sign, word);
    NoParenParts(sign + word);
  }

  /** The head and the argument of a loosely written option with an argument. */
  lemma LooseArg(optpart: string, sign: string, word: string, a: string)
    requires sign == "" || sign == "+" || sign == "-"
    requires forall i :: 0 <= i < |optpart| && IsSpace(optpart[i]) ==> optpart[i] == ' '
    requires ')' !in a
    requires Without(optpart, ' ') == sign + word + "(" + a + ")"
    requires word != [] && forall i :: 0 <= i < |word| ==> word[i] != '(' && word[i] != ')' && word[i] != '+' && word[i] != '-'
    ensures OptName(OptHead(CleanOptstr(optpart))) == Upper(word)
    ensures OptArgs(CleanOptstr(optpart)) == [a]
    ensures StartsWith(OptHead(CleanOptstr(optpart)), "-") <==> sign == "-"
  {
    CleanPlainSpaces(optpart);
    SignedWord(sign, word);
    ParenParts(sign + word, a);
  }

  /** A cleaned text whose head names a command parses to that directive. */
  lemma ParseFromParts(optpart: string, inline: bool, name: string, positive: bool, args: seq<string>)
    requires OptName(OptHead(CleanOptstr(optpart))) == name && name in Commands
    requires OptArgs(CleanOptstr(optpart)) == args
    requires StartsWith(OptHead(CleanOptstr(optpart)), "-") <==> !positive
    ensures ParseDirectiveOptstr(optpart, inline) == Some(Directive(name, positive, args, inline))
  {
  }

  /** The name and the sign read back from an optional sign and a word of letters and underscores. */
  lemma SignedWord(sign: string, word: string)
    requires sign == "" || sign == "+" || sign == "-"
    requires word != [] && forall i :: 0 <= i < |word| ==> word[i] != '(' && word[i] != ')' && word[i] != '+' && word[i] != '-'
    ensures var head := sign + word;
            '(' !in head && ')' !in head && OptName(head) == Upper(word) && (StartsWith(head, "-") <==> sign == "-")
  {
    var head := sign + word;
    if sign == "" {
      assert head == word;
      DiffersAt(head, "-", 0);
      DiffersAt(head, "+", 0);
    } else {
      assert StartsWith(head, sign) && head[1..] == word;
      if sign == "+" {
        DiffersAt(head, "-", 0);
      }
    }
  }

  /** A word that upper-cases to a command name is letters and underscores only. */
  lemma WordChars(word: string)
    requires NameChars(Upper(word)) && Upper(word) != []
    ensures word != [] && forall i :: 0 <= i < |word| ==> word[i] != '(' && word[i] != ')' && word[i] != '+' && word[i] != '-'
  {
    forall i | 0 <= i < |word|
      ensures word[i] != '(' && word[i] != ')' && word[i] != '+' && word[i] != '-'
    {
      NameCharOf(word[i], Upper(word)[i]);
    }
  }

  lemma NameCharOf(c: char, u: char)
    requires u == UpperChar(c) && ('A' <= u <= 'Z' || u == '_')
    ensures c != '(' && c != ')' && c != '+' && c != '-'
  {
  }

  /** The docstring's `+ SKIP`: the space after the sign is ignored. */
  lemma ParseSpacedSkip(text: string, inline: bool)
    requires text == " + SKIP"
    ensures ParseDirectiveOptstr(text, inline) == Some(Directive("SKIP", true, [], inline))
  {
    SpacedSkipText(text);
    SpacedSign(text[..3]);
    UpperOfUpper(text[3..]);
    WithoutAppend(text[..3], text[3..], ' ');
    WithoutAbsent(text[3..], ' ');
    ParseLoose(text, inline, "+", text[3..], []);
  }

  lemma SpacedSkipText(text: string)
    requires text == " + SKIP"
    ensures forall i :: 0 <= i < |text| && IsSpace(text[i]) ==> text[i] == ' '
    ensures text == text[..3] + text[3..] && text[..3] == " + " && text[3..] == "SKIP"
    ensures NoLowerCase(text[3..]) && ' ' !in text[3..]
  {
  }

  lemma SpacedSign(p: string)
    requires p == " + "
    ensures Without(p, ' ') == "+"
  {
    assert Without(p[2..], ' ') == Without(p[3..], ' ') == [];
    assert Without(p[1..], ' ') == "+" + Without(p[2..], ' ');
  }

  /** The docstring's `requires(--show)`: lower case, no sign, one argument. */
  lemma ParseLowerRequires(text: string, inline: bool)
    requires text == "requires(--show)"
    ensures ParseDirectiveOptstr(text, inline) == Some(Directive("REQUIRES", true, ["--show"], inline))
  {
    RequiresShowText(text);
    NoSpaceWithout(text);
    UpperRequires(text[..8]);
    ParseLoose(text, inline, "", text[..8], [text[9..15]]);
  }

  lemma RequiresShowText(text: string)
    requires text == "requires(--show)"
    ensures forall i :: 0 <= i < |text| ==> !IsSpace(text[i])
    ensures text == "" + text[..8] + ("(" + text[9..15] + ")")
    ensures text[..8] == "requires" && text[9..15] == "--show" && ')' !in text[9..15]
  {
  }

  lemma NoSpaceWithout(text: string)
    requires forall i :: 0 <= i < |text| ==> !IsSpace(text[i])
    ensures Without(text, ' ') == text
  {
    WithoutAbsent(text, ' ');
  }

  lemma UpperRequires(w: string)
    requires w == "requires"
    ensures Upper(w) == "REQUIRES"
  {
  }

  /** The docstring's `does_not_exist`: an unknown name is dropped. */
  lemma ParseUnknown(text: string, inline: bool)
    requires text == "does_not_exist"
    ensures ParseDirectiveOptstr(text, inline) == None
  {
    UnknownName(Upper(text));
    UnknownWord(text);
    ParseCleanWord(text, inline);
  }

  lemma UnknownName(w: string)
    requires |w| == 14 && w[0] == 'D'
    ensures w !in Commands
  {
  }

  /** A word that needs no cleaning and has no sign or argument is parsed as its upper-cased self. */
  lemma ParseCleanWord(word: string, inline: bool)
    requires CleanOptstr(word) == word
    requires OptName(OptHead(word)) == Upper(word) && OptArgs(word) == [] && !StartsWith(OptHead(word), "-")
    ensures Upper(word) in Commands ==> ParseDirectiveOptstr(word, inline) == Some(Directive(Upper(word), true, [], inline))
    ensures Upper(word) !in Commands ==> ParseDirectiveOptstr(word, inline) == None
  {
  }

  lemma UnknownWord(text: string)
    requires text == "does_not_exist"
    ensures CleanOptstr(text) == text
    ensures OptName(OptHead(text)) == Upper(text) && OptArgs(text) == [] && !StartsWith(OptHead(text), "-")
  {
    UnknownText(text);
    PlainWordClean(text);
    PlainWordHead(text);
  }

  lemma UnknownText(text: string)
    requires text == "does_not_exist"
    ensures forall i :: 0 <= i < |text| ==> !IsSpace(text[i])
    ensures '(' !in text && text != [] && text[0] != '+' && text[0] != '-'
  {
  }

  lemma PlainWordClean(word: string)
    requires forall i :: 0 <= i < |word| ==> !IsSpace(word[i])
    ensures CleanOptstr(word) == word
  {
    CleanPlainSpaces(word);
    WithoutAbsent(word, ' ');
  }

  lemma PlainWordHead(word: string)
    requires '(' !in word
    requires word != [] && word[0] != '+' && word[0] != '-'
    ensures OptName(OptHead(word)) == Upper(word) && OptArgs(word) == [] && !StartsWith(OptHead(word), "-")
  {
    NoParenParts(word);
    DiffersAt(word, "-", 0);
    DiffersAt(word, "+", 0);
  }

  predicate NoLowerCase(s: string) {
    forall i :: 0 <= i < |s| ==> !('a' <= s[i] <= 'z')
  }

  predicate NameChars(s: string) {
    forall i :: 0 <= i < |s| ==> 'A' <= s[i] <= 'Z' || s[i] == '_'
  }

  lemma CommandsAreNames(name: string)
    requires name in Commands
    ensures NameChars(name) && name != []
  {
    CommandsListed(name);
    var k :| 0 <= k < |CommandList| && CommandList[k] == name;
    CommandListNames(k);
  }

  lemma CommandListNames(k: nat)
    requires k < |CommandList|
    ensures NameChars(CommandList[k]) && CommandList[k] != []
  {
  }

  lemma UpperOfUpper(s: string)
    requires NoLowerCase(s)
    ensures Upper(s) == s
  {
  }

  lemma LowerOfLower(s: string)
    requires forall i :: 0 <= i < |s| ==> !('A' <= s[i] <= 'Z')
    ensures Lower(s) == s
  {
  }

  lemma StripUnchanged(s: string)
    requires s != [] && !IsSpace(s[0]) && !IsSpace(s[|s| - 1])
    ensures Strip(s) == s
  {
    assert LStripBy(s, IsSpace) == s;
  }

  /** The nice text of a name of capitals and underscores, with a space-free argument, needs no cleaning. */
  lemma NiceIsClean(d: Directive)
    requires NameChars(d.name)
    requires forall i :: 0 <= i < |d.args| ==> ' ' !in d.args[i]
    requires |d.args| <= 1
    ensures CleanOptstr(DirectiveNice(d)) == DirectiveNice(d)
  {
    var text := DirectiveNice(d);
    var sign := if d.positive then "+" else "-";
    var head := sign + d.name;
    if d.args == [] {
      assert text == head;
    } else {
      assert Join(", ", d.args) == d.args[0];
      assert text == head + "(" + d.args[0] + ")";
    }
    assert ' ' !in text;
    assert !IsSpace(text[0]) && !IsSpace(text[|text| - 1]);
    StripUnchanged(text);
    WithoutAbsent(text, ' ');
  }

  /** The head of the nice text is the signed name, and the argument comes back out of the parentheses. */
  lemma NiceParts(d: Directive)
    requires NameChars(d.name)
    requires |d.args| <= 1
    requires forall i :: 0 <= i < |d.args| ==> ')' !in d.args[i]
    ensures OptHead(DirectiveNice(d)) == (if d.positive then "+" else "-") + d.name
    ensures OptArgs(DirectiveNice(d)) == d.args
  {
    var head := (if d.positive then "+" else "-") + d.name;
    assert '(' !in head && ')' !in head;
    if d.args == [] {
      assert DirectiveNice(d) == head;
      NoParenParts(head);
    } else {
      assert Join(", ", d.args) == d.args[0];
      assert DirectiveNice(d) == head + "(" + d.args[0] + ")";
      ParenParts(head, d.args[0]);
    }
  }

  /** Text without '(' is all head and no argument. */
  lemma NoParenParts(head: string)
    requires '(' !in head
    ensures OptHead(head) == head && OptArgs(head) == []
  {
  }

  /** `head(a)` splits back into `head` and `a` when neither holds a stray parenthesis. */
  lemma ParenParts(head: string, a: string)
    requires '(' !in head && ')' !in head && ')' !in a
    ensures OptHead(head + "(" + a + ")") == head && OptArgs(head + "(" + a + ")") == [a]
  {
    var text := head + "(" + a + ")";
    assert text == head + ("(" + a + ")");
    FindFirst(head, "(" + a + ")", '(');
    assert text == (head + "(" + a) + ")";
    FindFirst(head + "(" + a, ")", ')');
    assert text[|head| + 1..|text| - 1] == a;
  }

  /** The first `c` of `x + y` is the first of `y` when `x` holds none. */
  lemma {:induction false} FindFirst(x: string, y: string, c: char)
    requires c !in x && y != [] && y[0] == c
    ensures Find(x + y, c) == |x|
  {
    if x != [] {
      assert (x + y)[1..] == x[1..] + y;
      FindFirst(x[1..], y, c);
    }
  }

  /**
   * Parsing the nice text of a directive gives the directive back, for a known
   * command with at most one argument that holds no space and no ')'.
   */
  lemma ParseNiceRoundTrip(d: Directive, inline: bool)
    requires d.name in Commands
    requires |d.args| <= 1
    requires forall i :: 0 <= i < |d.args| ==> ' ' !in d.args[i] && ')' !in d.args[i]
    ensures ParseDirectiveOptstr(DirectiveNice(d), inline) == Some(d.(inline := inline))
  {
    CommandsAreNames(d.name);
    NiceIsClean(d);
    NiceParts(d);
    SignedName(d.positive, d.name);
  }

  /** The name and the sign read back from a signed upper-case name. */
  lemma SignedName(positive: bool, name: string)
    requires NameChars(name)
    ensures var head := (if positive then "+" else "-") + name;
            OptName(head) == name && (StartsWith(head, "-") <==> !positive)
  {
    var sign := if positive then "+" else "-";
    var head := sign + name;
    assert StartsWith(head, sign);
    assert head[1..] == name;
    if positive {
      DiffersAt(head, "-", 0);
    }
    UpperOfUpper(name);
  }

  // ---------------------------------------------------------------- extract

  /** Whether some line of the text, stripped, is not a comment: extracted directives are then inline. */
  function IsInline(text: string): (r: bool)
    ensures r <==> exists i :: 0 <= i < |Splitlines(text)| && !StartsWith(Strip(Splitlines(text)[i]), "#")
  {
    !AllComments(Splitlines(text))
  }

  function AllComments(lines: seq<string>): (r: bool)
    ensures r <==> forall i :: 0 <= i < |lines| ==> StartsWith(Strip(lines[i]), "#")
  {
    if lines == [] then true
    else StartsWith(Strip(lines[0]), "#") && AllComments(lines[1..])
  }

  /** The text before the first newline: what `.*` matches. */
  function RestOfLine(s: string): (r: string)
    ensures '\n' !in r && StartsWith(s, r)
    ensures |r| < |s| ==> s[|r|] == '\n'
  {
    var k := Find(s, '\n');
    if k == -1 then s else s[..k]
  }

  /**
   * The directive pattern `x?doctest:\s*(.*)|x?doc:\s*(.*)`, matched
   * case-insensitively at the start of a comment body: the captured option
   * text, or None when the body is not a directive.
   */
  function MatchDirective(body: string): (r: Option<string>)
    ensures r.Some? ==> '\n' !in r.value
    ensures r.Some? <==> (StartsWith(Lower(body), "xdoctest:") || StartsWith(Lower(body), "doctest:")
                          || StartsWith(Lower(body), "xdoc:") || StartsWith(Lower(body), "doc:"))
  {
    var low := Lower(body);
    var n := if StartsWith(low, "xdoctest:") then 9
             else if StartsWith(low, "doctest:") then 8
             else if StartsWith(low, "xdoc:") then 5
             else if StartsWith(low, "doc:") then 4
             else 0;
    if n == 0 then None else Some(RestOfLine(LStripBy(body[n..], IsSpace)))
  }

  /** Each comma-separated option parsed; unknown ones are dropped. */
  function ParseOptParts(parts: seq<string>, inline: bool): (r: seq<Directive>)
    ensures |r| <= |parts|
    ensures forall d :: d in r <==> exists i :: 0 <= i < |parts| && ParseDirectiveOptstr(parts[i], inline) == Some(d)
    ensures forall i :: 0 <= i < |r| ==> r[i].name in Commands && r[i].inline == inline
  {
    ParseOptPartsValid(parts, inline);
    FilterMap(parts, ParseWith(inline))
  }

  /** `parse_directive_optstr` with the inline flag fixed. */
  function ParseWith(inline: bool): string -> Option<Directive> {
    p => ParseDirectiveOptstr(p, inline)
  }

  lemma ParseOptPartsValid(parts: seq<string>, inline: bool)
    ensures forall d :: d in FilterMap(parts, ParseWith(inline)) ==> d.name in Commands && d.inline == inline
  {
    forall d | d in FilterMap(parts, ParseWith(inline))
      ensures d.name in Commands && d.inline == inline
    {
      var i :| 0 <= i < |parts| && ParseWith(inline)(parts[i]) == Some(d);
      ParsedValid(parts[i], inline, d);
    }
  }

  lemma ParsedValid(p: string, inline: bool, d: Directive)
    requires ParseDirectiveOptstr(p, inline) == Some(d)
    ensures d.name in Commands && d.inline == inline
  {
  }

  /** The values `f` gives, in order, skipping the elements it maps to None. */
  function FilterMap<T, U(!new)>(xs: seq<T>, f: T -> Option<U>): (r: seq<U>)
    ensures |r| <= |xs|
    ensures forall u :: u in r <==> exists i :: 0 <= i < |xs| && f(xs[i]) == Some(u)
  {
    if xs == [] then []
    else
      var rest := FilterMap(xs[1..], f);
      FilterMapStep(xs, f, rest);
      (match f(xs[0]) case Some(u) => [u] case None => []) + rest
  }

  lemma FilterMapStep<T, U(!new)>(xs: seq<T>, f: T -> Option<U>, rest: seq<U>)
    requires xs != []
    requires forall u :: u in rest <==> exists i :: 0 <= i < |xs| - 1 && f(xs[1..][i]) == Some(u)
    ensures forall u :: (exists i :: 0 <= i < |xs| && f(xs[i]) == Some(u)) <==> f(xs[0]) == Some(u) || u in rest
  {
    forall u | exists i :: 0 <= i < |xs| && f(xs[i]) == Some(u)
      ensures f(xs[0]) == Some(u) || u in rest
    {
      var i :| 0 <= i < |xs| && f(xs[i]) == Some(u);
      if i > 0 {
        assert xs[1..][i - 1] == xs[i];
      }
    }
    forall u | u in rest
      ensures exists i :: 0 <= i < |xs| && f(xs[i]) == Some(u)
    {
      var i :| 0 <= i < |xs| - 1 && f(xs[1..][i]) == Some(u);
      assert xs[1..][i] == xs[i + 1];
    }
  }

  /** The parsed options keep the order of the parts: parsing distributes over concatenation. */
  lemma ParseOptPartsAppend(a: seq<string>, b: seq<string>, inline: bool)
    ensures ParseOptParts(a + b, inline) == ParseOptParts(a, inline) + ParseOptParts(b, inline)
  {
    FilterMapAppend(a, b, ParseWith(inline));
  }

  /** One option gives its directive when it parses, and nothing otherwise. */
  lemma ParseOptPartsOne(p: string, inline: bool, d: Option<Directive>)
    requires d == ParseDirectiveOptstr(p, inline)
    ensures d.Some? ==> ParseOptParts([p], inline) == [d.value]
    ensures d.None? ==> ParseOptParts([p], inline) == []
  {
    assert [p][1..] == [];
  }

  lemma {:induction false} FilterMapAppend<T, U(!new)>(a: seq<T>, b: seq<T>, f: T -> Option<U>)
    ensures FilterMap(a + b, f) == FilterMap(a, f) + FilterMap(b, f)
  {
    if a == [] {
      assert a + b == b;
    } else {
      assert (a + b)[0] == a[0] && (a + b)[1..] == a[1..] + b;
      FilterMapAppend(a[1..], b, f);
    }
  }

  /** The comment text after its '#', stripped. */
  function CommentBody(comment: string): string {
    Strip(if comment == [] then [] else comment[1..])
  }

  /** The comma-separated option texts of a directive comment; none for any other comment. */
  function OptParts(comment: string): seq<string> {
    match MatchDirective(CommentBody(comment))
    case None => []
    case Some(optstr) => Split(optstr, ',')
  }

  /** The directives of one comment token (including its leading '#'). */
  function ExtractComment(comment: string, inline: bool): (r: seq<Directive>)
    ensures forall i :: 0 <= i < |r| ==> r[i].name in Commands && r[i].inline == inline
    ensures r == ParseOptParts(OptParts(comment), inline)
  {
    var body := CommentBody(comment);
    match MatchDirective(body)
    case None => []
    case Some(optstr) =>
      if optstr == [] then (EmptyOptNone(inline); []) else ParseOptParts(Split(optstr, ','), inline)
  }

  /** An empty option names no command. */
  lemma EmptyOptNone(inline: bool)
    ensures ParseOptParts(Split("", ','), inline) == []
  {
    EmptyParsesNone("", inline);
    assert Split("", ',') == [""];
  }

  lemma EmptyParsesNone(e: string, inline: bool)
    requires e == []
    ensures ParseDirectiveOptstr(e, inline) == None
  {
    PlainWordClean(e);
    NoParenParts(e);
    assert OptName(OptHead(e)) == Upper(e) == e;
    if e in Commands {
      CommandsAreNames(e);
    }
    ParseCleanWord(e, inline);
  }

  /** `f` applied to each element in turn, the results concatenated. */
  function ConcatMap<T, U>(xs: seq<T>, f: T -> seq<U>): seq<U> {
    if xs == [] then [] else f(xs[0]) + ConcatMap(xs[1..], f)
  }

  lemma {:induction false} ConcatMapAppend<T, U>(xs: seq<T>, ys: seq<T>, f: T -> seq<U>)
    ensures ConcatMap(xs + ys, f) == ConcatMap(xs, f) + ConcatMap(ys, f)
  {
    if xs == [] {
      assert xs + ys == ys;
    } else {
      assert (xs + ys)[1..] == xs[1..] + ys;
      assert (xs + ys)[0] == xs[0];
      ConcatMapAppend(xs[1..], ys, f);
    }
  }

  /** The directives of each comment token in turn. */
  function ExtractEach(comments: seq<string>, inline: bool): seq<Directive> {
    ConcatMap(comments, c => ExtractComment(c, inline))
  }

  lemma {:induction false} ExtractEachValid(comments: seq<string>, inline: bool)
    ensures var r := ExtractEach(comments, inline);
            forall i :: 0 <= i < |r| ==> r[i].name in Commands && r[i].inline == inline
  {
    if comments != [] {
      ExtractEachValid(comments[1..], inline);
      var h: seq<Directive> := ExtractComment(comments[0], inline);
      var t: seq<Directive> := ExtractEach(comments[1..], inline);
      assert ExtractEach(comments, inline) == h + t;
      forall i | 0 <= i < |h + t| ensures (h + t)[i].name in Commands && (h + t)[i].inline == inline {
        if i < |h| {
          assert (h + t)[i] == h[i];
        } else {
          assert (h + t)[i] == t[i - |h|];
        }
      }
    }
  }

  /**
   * `Directive.extract(text)`, given the comment tokens of the text in
   * order (the tokenizer that finds them is not part of this model).
   */
  function Extract(text: string, comments: seq<string>): (r: seq<Directive>)
    ensures forall i :: 0 <= i < |r| ==> r[i].name in Commands && r[i].inline == IsInline(text)
    ensures forall d :: d in r <==> exists i :: 0 <= i < |comments| && d in ExtractComment(comments[i], IsInline(text))
  {
    ExtractEachValid(comments, IsInline(text));
    ExtractEachMembers(comments, IsInline(text));
    ExtractEach(comments, IsInline(text))
  }

  lemma ExtractEachMembers(comments: seq<string>, inline: bool)
    ensures forall d :: d in ExtractEach(comments, inline) <==> exists i :: 0 <= i < |comments| && d in ExtractComment(comments[i], inline)
  {
    var f := c => ExtractComment(c, inline);
    forall d
      ensures d in ExtractEach(comments, inline) <==> exists i :: 0 <= i < |comments| && d in ExtractComment(comments[i], inline)
    {
      ConcatMapMember(comments, f, d);
      assert forall i :: 0 <= i < |comments| ==> f(comments[i]) == ExtractComment(comments[i], inline);
    }
  }

  /** An element of a concatenated map comes from the image of some element. */
  lemma {:induction false} ConcatMapMember<T, U>(xs: seq<T>, f: T -> seq<U>, u: U)
    ensures u in ConcatMap(xs, f) <==> exists i :: 0 <= i < |xs| && u in f(xs[i])
  {
    if xs != [] {
      ConcatMapMember(xs[1..], f, u);
      assert ConcatMap(xs, f) == f(xs[0]) + ConcatMap(xs[1..], f);
      if u in ConcatMap(xs[1..], f) {
        var i :| 0 <= i < |xs[1..]| && u in f(xs[1..][i]);
        assert xs[1..][i] == xs[i + 1];
      }
      if exists i :: 0 <= i < |xs| && u in f(xs[i]) {
        var i :| 0 <= i < |xs| && u in f(xs[i]);
        if i > 0 {
          assert xs[1..][i - 1] == xs[i];
        }
      }
    }
  }

  /** Directives come out in textual order: extraction distributes over the comments. */
  lemma ExtractAppend(text: string, c1: seq<string>, c2: seq<string>)
    ensures Extract(text, c1 + c2) == Extract(text, c1) + Extract(text, c2)
  {
    ConcatMapAppend(c1, c2, c => ExtractComment(c, IsInline(text)));
  }

  /** A comment that does not start with a directive prefix yields nothing. */
  lemma ExtractNonDirective(comment: string, inline: bool)
    requires var body := Strip(if comment == [] then [] else comment[1..]);
             !StartsWith(Lower(body), "doc:") && !StartsWith(Lower(body), "doctest:")
             && !StartsWith(Lower(body), "xdoc:") && !StartsWith(Lower(body), "xdoctest:")
    ensures ExtractComment(comment, inline) == []
  {
  }

  // ---------------------------------------------------------------- runtime state, as values

  /** The two layers of a runtime state. */
  datatype Layers = Layers(global: map<string, Value>, inline: map<string, Value>)

  /** `RuntimeState.__getitem__`: unknown keys raise, the inline layer wins. */
  function Lookup(st: Layers, key: string): (r: Result<Value>)
    ensures r.Err? <==> key !in st.global
    ensures r.Err? ==> r.error == KeyError(key)
    ensures r.Ok? ==> r.value == (if key in st.inline then st.inline[key] else st.global[key])
  {
    if key !in st.global then Err(KeyError(key))
    else if key in st.inline then Ok(st.inline[key])
    else Ok(st.global[key])
  }

  /** The global layer after `set_report_style(choice)`: every `REPORT_*` off, the chosen one on. */
  function ReportStyle(state: map<string, Value>, choice: string): map<string, Value> {
    (map k | k in state :: if StartsWith(k, "REPORT_") then Flag(false) else state[k])
      ["REPORT_" + Upper(choice) := Flag(true)]
  }

  /** After `set_report_style`, exactly the chosen `REPORT_*` key is on; other keys keep their values. */
  lemma ReportStyleOneHot(state: map<string, Value>, choice: string)
    ensures var r := ReportStyle(state, choice);
            && r.Keys == state.Keys + {"REPORT_" + Upper(choice)}
            && (forall k :: k in r && StartsWith(k, "REPORT_") ==> (r[k] == Flag(true) <==> k == "REPORT_" + Upper(choice)))
            && (forall k :: k in state && !StartsWith(k, "REPORT_") ==> r[k] == state[k])
  {
    var chosen := "REPORT_" + Upper(choice);
    assert StartsWith(chosen, "REPORT_") by { assert chosen[..7] == "REPORT_"; }
  }

  /** Write `value` under `key` in the inline or the global layer. */
  function Put(st: Layers, inline: bool, key: string, value: Value): Layers {
    if inline then st.(inline := st.inline[key := value]) else st.(global := st.global[key := value])
  }

  /** The layer a directive writes: the inline one for an inline directive, else the global one. */
  function LayerOf(st: Layers, inline: bool): map<string, Value> {
    if inline then st.inline else st.global
  }

  /**
   * The body of `RuntimeState.update` for one effect: `assign` writes the
   * flag, `set.add` / `set.remove` change the set under the key (a KeyError
   * when the layer lacks the key or the set lacks the item, an
   * AttributeError when the key holds a flag), `set_report_style` rewrites
   * the global report flags.
   */
  function ApplyEffect(st: Layers, eff: Effect, inline: bool): (r: Result<Layers>)
    ensures eff.Noop? ==> r == Ok(st)
    ensures eff.SetReportStyle? ==> r == Ok(st.(global := ReportStyle(st.global, Replace(eff.key, "REPORT_", ""))))
    ensures eff.Assign? ==> r == Ok(Put(st, inline, eff.key, Flag(eff.value)))
    ensures (eff.SetAdd? || eff.SetRemove?) && eff.key !in LayerOf(st, inline) ==> r == Err(KeyError(eff.key))
    ensures (eff.SetAdd? || eff.SetRemove?) && eff.key in LayerOf(st, inline) && LayerOf(st, inline)[eff.key].Flag?
            ==> r == Err(AttributeError)
    ensures eff.SetAdd? && eff.key in LayerOf(st, inline) && LayerOf(st, inline)[eff.key].Reqs?
            ==> r == Ok(Put(st, inline, eff.key, Reqs(LayerOf(st, inline)[eff.key].items + {eff.item})))
    ensures eff.SetRemove? && eff.key in LayerOf(st, inline) && LayerOf(st, inline)[eff.key].Reqs?
            ==> var items := LayerOf(st, inline)[eff.key].items;
                r == if eff.item in items then Ok(Put(st, inline, eff.key, Reqs(items - {eff.item}))) else Err(KeyError(eff.item))
    ensures r.Ok? && !eff.SetReportStyle? && inline ==> r.value.global == st.global
    ensures r.Ok? && !eff.SetReportStyle? && !inline ==> r.value.inline == st.inline
    ensures r.Ok? && eff.SetReportStyle? ==> r.value.inline == st.inline
  {
    var layer := LayerOf(st, inline);
    match eff
    case Noop(_) => Ok(st)
    case SetReportStyle(key) => Ok(st.(global := ReportStyle(st.global, Replace(key, "REPORT_", ""))))
    case Assign(key, value) => Ok(Put(st, inline, key, Flag(value)))
    case SetAdd(key, item) =>
      if key !in layer then Err(KeyError(key))
      else (match layer[key]
            case Flag(_) => Err(AttributeError)
            case Reqs(items) => Ok(Put(st, inline, key, Reqs(items + {item}))))
    case SetRemove(key, item) =>
      if key !in layer then Err(KeyError(key))
      else (match layer[key]
            case Flag(_) => Err(AttributeError)
            case Reqs(items) =>
              if item !in items then Err(KeyError(item)) else Ok(Put(st, inline, key, Reqs(items - {item}))))
  }

  /** After an assignment, `__getitem__` reads the flag that was written (an inline write is read
      first; a global write is read when no inline value hides it). */
  lemma AssignThenLookup(st: Layers, key: string, value: bool, inline: bool)
    requires key in st.global
    requires inline || key !in st.inline
    ensures ApplyEffect(st, Assign(key, value), inline).Ok?
    ensures Lookup(ApplyEffect(st, Assign(key, value), inline).value, key) == Ok(Flag(value))
  {
  }

  /** Adding an item the set lacks and then removing it gives back the state it started from. */
  lemma SetAddThenRemove(st: Layers, key: string, item: string, inline: bool)
    requires key in LayerOf(st, inline) && LayerOf(st, inline)[key].Reqs?
    requires item !in LayerOf(st, inline)[key].items
    ensures ApplyEffect(st, SetAdd(key, item), inline).Ok?
    ensures ApplyEffect(ApplyEffect(st, SetAdd(key, item), inline).value, SetRemove(key, item), inline) == Ok(st)
  {
    var items := LayerOf(st, inline)[key].items;
    var added := Put(st, inline, key, Reqs(items + {item}));
    assert LayerOf(added, inline)[key] == Reqs(items + {item});
    assert items + {item} - {item} == items;
    assert Put(added, inline, key, Reqs(items)) == Put(st, inline, key, Reqs(items));
    if inline {
      assert st.inline[key := Reqs(items)] == st.inline;
    } else {
      assert st.global[key := Reqs(items)] == st.global;
    }
  }

  /** One directive of an update: its effect, applied to the layer it names. */
  function Step(st: Layers, d: Directive, env: Env): Result<Layers> {
    match EffectOf(d, env)
    case Err(e) => Err(e)
    case Ok(eff) => ApplyEffect(st, eff, d.inline)
  }

  /**
   * Directives applied in order; the first error stops the update and is
   * returned with the state as it was when the error was raised.
   */
  function Run(st: Layers, ds: seq<Directive>, env: Env): (Layers, Option<Error>)
    decreases |ds|
  {
    if ds == [] then (st, None)
    else
      var prev := Run(st, ds[..|ds| - 1], env);
      if prev.1.Some? then prev
      else match Step(prev.0, ds[|ds| - 1], env)
        case Err(e) => (prev.0, Some(e))
        case Ok(next) => (next, None)
  }

  /** One more directive: `Run` unfolded once at the end. */
  lemma RunSnoc(st: Layers, ds: seq<Directive>, d: Directive, env: Env)
    ensures Run(st, ds + [d], env) ==
            (var prev := Run(st, ds, env);
             if prev.1.Some? then prev
             else match Step(prev.0, d, env)
               case Err(e) => (prev.0, Some(e))
               case Ok(next) => (next, None))
  {
    assert (ds + [d])[..|ds|] == ds;
  }

  /** Once an error is raised, the remaining directives are not applied. */
  lemma RunStops(st: Layers, ds: seq<Directive>, i: nat, env: Env)
    requires i <= |ds|
    requires Run(st, ds[..i], env).1.Some?
    ensures Run(st, ds, env) == Run(st, ds[..i], env)
  {
    RunAppend(st, ds[..i], ds[i..], env);
    assert ds[..i] + ds[i..] == ds;
  }

  /** Inline directives leave the global layer alone, others the inline layer, except report styles. */
  lemma StepLayers(st: Layers, d: Directive, env: Env)
    requires Step(st, d, env).Ok?
    ensures var next := Step(st, d, env).value;
            && (d.inline && !EffectOf(d, env).value.SetReportStyle? ==> next.global == st.global)
            && (!d.inline ==> next.inline == st.inline)
            && (EffectOf(d, env).value.Noop? ==> next == st)
  {
  }

  /** An update with two batches of directives is the second applied after the first. */
  lemma {:induction false} RunAppend(st: Layers, a: seq<Directive>, b: seq<Directive>, env: Env)
    ensures Run(st, a + b, env) ==
            (var first := Run(st, a, env); if first.1.Some? then first else Run(first.0, b, env))
    decreases |b|
  {
    if b == [] {
      assert a + b == a;
    } else {
      assert (a + b)[..|a + b| - 1] == a + b[..|b| - 1];
      RunAppend(st, a, b[..|b| - 1], env);
    }
  }

  /** An unmet requirement added and then removed again leaves the state as it was. */
  lemma RequiresAddThenRemove(st: Layers, arg: string, env: Env)
    requires IsRequiresSatisfied(arg, env).Ok?
    requires "REQUIRES" in st.global && st.global["REQUIRES"].Reqs? && arg !in st.global["REQUIRES"].items
    ensures Run(st, [Directive("REQUIRES", true, [arg], false), Directive("REQUIRES", false, [arg], false)], env)
            == (st, None)
  {
    var plus := Directive("REQUIRES", true, [arg], false);
    var minus := Directive("REQUIRES", false, [arg], false);
    RunSnoc(st, [], plus, env);
    assert [] + [plus] == [plus];
    RunSnoc(st, [plus], minus, env);
    assert [plus] + [minus] == [plus, minus];
    if !IsRequiresSatisfied(arg, env).value {
      var items := st.global["REQUIRES"].items;
      assert EffectOf(plus, env) == Ok(SetAdd("REQUIRES", arg));
      assert EffectOf(minus, env) == Ok(SetRemove("REQUIRES", arg));
      var mid := st.(global := st.global["REQUIRES" := Reqs(items + {arg})]);
      assert Step(st, plus, env) == Ok(mid);
      assert items + {arg} - {arg} == items;
      assert mid.global["REQUIRES" := Reqs(items)] == st.global;
      assert Step(mid, minus, env) == Ok(st);
    }
  }

  /** An inline `REQUIRES` whose requirement is met is a noop: the update goes on with no error. */
  lemma InlineRequiresMet(st: Layers, positive: bool, arg: string, env: Env)
    requires IsRequiresSatisfied(arg, env) == Ok(true)
    ensures Run(st, [Directive("REQUIRES", positive, [arg], true)], env) == (st, None)
  {
    var d := Directive("REQUIRES", positive, [arg], true);
    RunSnoc(st, [], d, env);
    assert [] + [d] == [d];
  }

  /**
   * An inline `REQUIRES` whose requirement is unmet adds to or removes from
   * the inline layer, which never holds `REQUIRES`, so the update ends with
   * `KeyError('REQUIRES')` and the state unchanged.
   */
  lemma InlineRequiresUnmet(st: Layers, positive: bool, arg: string, env: Env)
    requires IsRequiresSatisfied(arg, env) == Ok(false)
    requires "REQUIRES" !in st.inline
    ensures Run(st, [Directive("REQUIRES", positive, [arg], true)], env) == (st, Some(KeyError("REQUIRES")))
  {
    var d := Directive("REQUIRES", positive, [arg], true);
    RunSnoc(st, [], d, env);
    assert [] + [d] == [d];
  }

  /** The global layer never loses a key: a key readable before an update stays readable. */
  lemma {:induction false} RunKeepsKeys(st: Layers, ds: seq<Directive>, env: Env)
    ensures st.global.Keys <= Run(st, ds, env).0.global.Keys
    decreases |ds|
  {
    if ds != [] {
      RunKeepsKeys(st, ds[..|ds| - 1], env);
      var prev := Run(st, ds[..|ds| - 1], env);
      if prev.1.None? {
        var s := Step(prev.0, ds[|ds| - 1], env);
        if s.Ok? && EffectOf(ds[|ds| - 1], env).value.SetReportStyle? {
          ReportStyleOneHot(prev.0.global, Replace(EffectOf(ds[|ds| - 1], env).value.key, "REPORT_", ""));
        }
      }
    }
  }

  /**
   * The class docstring's example: `-ELLIPSIS, +IGNORE_WHITESPACE` persist; an
   * inline `-IGNORE_WHITESPACE` holds for one update; an empty update restores it.
   */
  lemma RuntimeStateExample(env: Env)
    ensures var st0 := Layers(DefaultRuntimeState, map[]);
            var r1 := Run(st0, [Directive("ELLIPSIS", false, [], false), Directive("IGNORE_WHITESPACE", true, [], false)], env);
            var r2 := Run(Layers(r1.0.global, map[]), [Directive("IGNORE_WHITESPACE", false, [], true)], env);
            var r3 := Run(Layers(r2.0.global, map[]), [], env);
            && Lookup(st0, "IGNORE_WHITESPACE") == Ok(Flag(false))
            && r1.1 == None && Lookup(r1.0, "ELLIPSIS") == Ok(Flag(false))
            && Lookup(r1.0, "IGNORE_WHITESPACE") == Ok(Flag(true))
            && r2.1 == None && Lookup(r2.0, "IGNORE_WHITESPACE") == Ok(Flag(false))
            && Lookup(r3.0, "IGNORE_WHITESPACE") == Ok(Flag(true))
  {
    var st0 := Layers(DefaultRuntimeState, map[]);
    var d1 := Directive("ELLIPSIS", false, [], false);
    var d2 := Directive("IGNORE_WHITESPACE", true, [], false);
    var d3 := Directive("IGNORE_WHITESPACE", false, [], true);
    var s1 := Put(st0, false, "ELLIPSIS", Flag(false));
    var s2 := Put(s1, false, "IGNORE_WHITESPACE", Flag(true));
    ExampleRun12(st0, env);
    ExampleRun3(Layers(s2.global, map[]), env);
    ExampleLookups(s2.global);
  }

  /** The first update of the example: two global assignments. */
  lemma ExampleRun12(st0: Layers, env: Env)
    ensures Run(st0, [Directive("ELLIPSIS", false, [], false), Directive("IGNORE_WHITESPACE", true, [], false)], env)
            == (Put(Put(st0, false, "ELLIPSIS", Flag(false)), false, "IGNORE_WHITESPACE", Flag(true)), None)
  {
    var d1 := Directive("ELLIPSIS", false, [], false);
    var d2 := Directive("IGNORE_WHITESPACE", true, [], false);
    DiffersAt("ELLIPSIS", "REPORT_", 0);
    DiffersAt("IGNORE_WHITESPACE", "REPORT_", 0);
    var s1 := Put(st0, false, "ELLIPSIS", Flag(false));
    assert Step(st0, d1, env) == Ok(s1);
    assert Step(s1, d2, env) == Ok(Put(s1, false, "IGNORE_WHITESPACE", Flag(true)));
    RunSnoc(st0, [], d1, env);
    assert [] + [d1] == [d1];
    RunSnoc(st0, [d1], d2, env);
    assert [d1] + [d2] == [d1, d2];
  }

  /** The second update of the example: one inline assignment. */
  lemma ExampleRun3(st: Layers, env: Env)
    ensures Run(st, [Directive("IGNORE_WHITESPACE", false, [], true)], env)
            == (Put(st, true, "IGNORE_WHITESPACE", Flag(false)), None)
  {
    var d3 := Directive("IGNORE_WHITESPACE", false, [], true);
    DiffersAt("IGNORE_WHITESPACE", "REPORT_", 0);
    assert Step(st, d3, env) == Ok(Put(st, true, "IGNORE_WHITESPACE", Flag(false)));
    RunSnoc(st, [], d3, env);
    assert [] + [d3] == [d3];
  }

  lemma ExampleLookups(g: map<string, Value>)
    requires g == DefaultRuntimeState["ELLIPSIS" := Flag(false)]["IGNORE_WHITESPACE" := Flag(true)]
    ensures Lookup(Layers(DefaultRuntimeState, map[]), "IGNORE_WHITESPACE") == Ok(Flag(false))
    ensures Lookup(Layers(g, map[]), "ELLIPSIS") == Ok(Flag(false))
    ensures Lookup(Layers(g, map[]), "IGNORE_WHITESPACE") == Ok(Flag(true))
    ensures Lookup(Layers(g, map["IGNORE_WHITESPACE" := Flag(false)]), "IGNORE_WHITESPACE") == Ok(Flag(false))
  {
  }

  // ---------------------------------------------------------------- to_dict and __nice__

  /** Python's ordering of strings: by code point, a proper prefix first. */
  predicate StrLt(a: string, b: string)
    decreases |a|
  {
    b != [] && (a == [] || a[0] < b[0] || (a[0] == b[0] && StrLt(a[1..], b[1..])))
  }

  lemma {:induction false} StrLtIrreflexive(a: string)
    ensures !StrLt(a, a)
    decreases |a|
  {
    if a != [] {
      StrLtIrreflexive(a[1..]);
    }
  }

  lemma {:induction false} StrLtTotal(a: string, b: string)
    requires a != b
    ensures StrLt(a, b) || StrLt(b, a)
    decreases |a|
  {
    if a != [] && b != [] && a[0] == b[0] {
      assert a[1..] != b[1..] by {
        assert a == [a[0]] + a[1..] && b == [b[0]] + b[1..];
      }
      StrLtTotal(a[1..], b[1..]);
    }
  }

  lemma {:induction false} StrLtTrans(a: string, b: string, c: string)
    requires StrLt(a, b) && StrLt(b, c)
    ensures StrLt(a, c)
    decreases |a|
  {
    if a != [] && a[0] == b[0] && b[0] == c[0] {
      StrLtTrans(a[1..], b[1..], c[1..]);
    }
  }

  /** A finite non-empty set of strings has a least element. */
  lemma {:induction false} LeastExists(keys: set<string>)
    requires keys != {}
    ensures exists k :: k in keys && forall j :: j in keys && j != k ==> StrLt(k, j)
    decreases |keys|
  {
    var x :| x in keys;
    var rest := keys - {x};
    if rest == {} {
      assert keys == {x};
    } else {
      LeastExists(rest);
      var m :| m in rest && forall j :: j in rest && j != m ==> StrLt(m, j);
      StrLtTotal(x, m);
      if StrLt(x, m) {
        forall j | j in keys && j != x ensures StrLt(x, j) {
          if j != m {
            StrLtTrans(x, m, j);
          }
        }
      } else {
        forall j | j in keys && j != m ensures StrLt(m, j) {
        }
      }
    }
  }

  /** The keys in increasing order. */
  ghost function SortedKeys(keys: set<string>): (r: seq<string>)
    ensures |r| == |keys|
    ensures forall i :: 0 <= i < |r| ==> r[i] in keys
    ensures forall k :: k in keys ==> k in r
    ensures forall i, j :: 0 <= i < j < |r| ==> StrLt(r[i], r[j])
    decreases |keys|
  {
    if keys == {} then []
    else
      LeastExists(keys);
      var k :| k in keys && forall j :: j in keys && j != k ==> StrLt(k, j);
      [k] + SortedKeys(keys - {k})
  }

  /** `RuntimeState.to_dict()`: the merged layers, the inline values winning, sorted by key. */
  ghost function ToDict(st: Layers): (r: seq<(string, Value)>)
    ensures |r| == |(st.global + st.inline).Keys|
    ensures forall i, j :: 0 <= i < j < |r| ==> StrLt(r[i].0, r[j].0)
    ensures forall i :: 0 <= i < |r| ==> r[i].0 in st.global + st.inline && r[i].1 == (st.global + st.inline)[r[i].0]
  {
    var merged := st.global + st.inline;
    Entries(SortedKeys(merged.Keys), merged)
  }

  /** The entries of `m` for `keys`, in that order. */
  function Entries<K, V>(keys: seq<K>, m: map<K, V>): (r: seq<(K, V)>)
    requires forall i :: 0 <= i < |keys| ==> keys[i] in m
    ensures |r| == |keys| && forall i :: 0 <= i < |r| ==> r[i] == (keys[i], m[keys[i]])
  {
    seq(|keys|, i requires 0 <= i < |keys| => (keys[i], m[keys[i]]))
  }

  /** Every key of the global layer appears in `to_dict()` with the value `__getitem__` reads. */
  lemma ToDictAgreesWithLookup(st: Layers, key: string)
    requires key in st.global
    ensures exists i :: 0 <= i < |ToDict(st)| && ToDict(st)[i] == (key, Lookup(st, key).value)
  {
    var merged := st.global + st.inline;
    var keys := SortedKeys(merged.Keys);
    assert key in keys;
    var i :| 0 <= i < |keys| && keys[i] == key;
    assert ToDict(st)[i] == (key, merged[key]);
  }

  /** The default keys in increasing order, as the class docstring lists them. */
  const DefaultKeysSorted: seq<string> := [
    "DONT_ACCEPT_BLANKLINE", "ELLIPSIS", "IGNORE_EXCEPTION_DETAIL", "IGNORE_WANT", "IGNORE_WHITESPACE",
    "NORMALIZE_REPR", "NORMALIZE_WHITESPACE", "REPORT_CDIFF", "REPORT_NDIFF", "REPORT_UDIFF", "REQUIRES", "SKIP"
  ]

  /** A fresh runtime state lists the defaults in the order of the class docstring. */
  lemma DefaultToDict()
    ensures ToDict(Layers(DefaultRuntimeState, map[])) == Entries(DefaultKeysSorted, DefaultRuntimeState)
  {
    var st := Layers(DefaultRuntimeState, map[]);
    assert st.global + st.inline == DefaultRuntimeState;
    DefaultKeysIncreasing();
    DefaultKeysListed();
    SortedUnique(SortedKeys(DefaultRuntimeState.Keys), DefaultKeysSorted);
  }

  lemma DefaultKeysListed()
    ensures forall k :: k in DefaultKeysSorted <==> k in DefaultRuntimeState
  {
  }

  /** Each default key is below the next one. */
  lemma DefaultKeysIncreasing()
    ensures forall i, j :: 0 <= i < j < |DefaultKeysSorted| ==> StrLt(DefaultKeysSorted[i], DefaultKeysSorted[j])
  {
    forall i | 0 <= i < |DefaultKeysSorted| - 1
      ensures StrLt(DefaultKeysSorted[i], DefaultKeysSorted[i + 1])
    {
      DefaultKeyStep(i, DefaultKeysSorted[i], DefaultKeysSorted[i + 1]);
    }
    IncreasingBySteps(DefaultKeysSorted);
  }

  lemma DefaultKeyStep(i: nat, a: string, b: string)
    requires i < |DefaultKeysSorted| - 1 && a == DefaultKeysSorted[i] && b == DefaultKeysSorted[i + 1]
    ensures StrLt(a, b)
  {
    var k := [0, 0, 7, 8, 0, 10, 0, 7, 7, 2, 0][i];
    StrLtAt(a, b, k);
  }

  /** Two strings that agree before position `k` and differ there are ordered by that character. */
  lemma {:induction false} StrLtAt(a: string, b: string, k: nat)
    requires k < |a| && k < |b| && a[..k] == b[..k] && a[k] < b[k]
    ensures StrLt(a, b)
    decreases k
  {
    if k > 0 {
      assert a[0] == a[..k][0];
      assert a[1..][..k - 1] == a[1..k] && b[1..][..k - 1] == b[1..k];
      assert a[1..k] == a[..k][1..];
      StrLtAt(a[1..], b[1..], k - 1);
    }
  }

  lemma {:induction false} IncreasingBySteps(xs: seq<string>)
    requires forall i :: 0 <= i < |xs| - 1 ==> StrLt(xs[i], xs[i + 1])
    ensures forall i, j :: 0 <= i < j < |xs| ==> StrLt(xs[i], xs[j])
  {
    if |xs| > 1 {
      IncreasingBySteps(xs[1..]);
      forall j | 1 < j < |xs|
        ensures StrLt(xs[0], xs[j])
      {
        assert xs[1..][j - 1] == xs[j];
        assert StrLt(xs[1], xs[j]) by {
          if j > 1 {
            assert xs[1..][0] == xs[1];
          }
        }
        StrLtTrans(xs[0], xs[1], xs[j]);
      }
      forall i, j | 0 <= i < j < |xs|
        ensures StrLt(xs[i], xs[j])
      {
        if i > 0 {
          assert xs[1..][i - 1] == xs[i] && xs[1..][j - 1] == xs[j];
        }
      }
    }
  }

  /** Two increasing sequences with the same elements are the same sequence. */
  lemma {:induction false} SortedUnique(xs: seq<string>, ys: seq<string>)
    requires forall i, j :: 0 <= i < j < |xs| ==> StrLt(xs[i], xs[j])
    requires forall i, j :: 0 <= i < j < |ys| ==> StrLt(ys[i], ys[j])
    requires forall k :: k in xs <==> k in ys
    ensures xs == ys
    decreases |xs|
  {
    if xs != [] && ys != [] {
      var x, y := xs[0], ys[0];
      if x != y {
        assert y in xs;
        var i :| 0 <= i < |xs| && xs[i] == y;
        assert x in ys;
        var j :| 0 <= j < |ys| && ys[j] == x;
        StrLtTrans(x, y, x);
        StrLtIrreflexive(x);
      }
      forall k
        ensures k in xs[1..] <==> k in ys[1..]
      {
        if k in xs[1..] {
          var i :| 0 <= i < |xs| - 1 && xs[1..][i] == k;
          assert StrLt(x, xs[i + 1]);
          StrLtIrreflexive(k);
          assert k in ys && k != y;
          var j :| 0 <= j < |ys| && ys[j] == k;
          assert ys[1..][j - 1] == k;
        }
        if k in ys[1..] {
          var j :| 0 <= j < |ys| - 1 && ys[1..][j] == k;
          assert StrLt(y, ys[j + 1]);
          StrLtIrreflexive(k);
          assert k in xs && k != x;
          var i :| 0 <= i < |xs| && xs[i] == k;
          assert xs[1..][i - 1] == k;
        }
      }
      SortedUnique(xs[1..], ys[1..]);
      assert xs == [x] + xs[1..] && ys == [y] + ys[1..];
    } else {
      SameElementsEmpty(xs, ys);
    }
  }

  lemma SameElementsEmpty(xs: seq<string>, ys: seq<string>)
    requires forall k :: k in xs <==> k in ys
    ensures xs == [] <==> ys == []
  {
    if xs != [] {
      assert xs[0] in ys;
    }
    if ys != [] {
      assert ys[0] in xs;
    }
  }

  /** Python's `str` of a runtime-state value; non-empty sets are shown by `showSet`. */
  function ShowValue(v: Value, showSet: set<string> -> string): string {
    match v
    case Flag(b) => if b then "True" else "False"
    case Reqs(items) => if items == {} then "set()" else showSet(items)
  }

  /** `RuntimeState.__nice__`: `{KEY: value, ...}` in key order. */
  ghost function RuntimeStateNice(st: Layers, showSet: set<string> -> string): (r: string)
    ensures StartsWith(r, "{") && EndsWith(r, "}")
  {
    "{" + Join(", ", EntryTexts(ToDict(st), showSet)) + "}"
  }

  /** `'{}: {}'.format(*item)` for each entry. */
  function EntryTexts(items: seq<(string, Value)>, showSet: set<string> -> string): (r: seq<string>)
    ensures |r| == |items|
    ensures forall i :: 0 <= i < |r| ==> r[i] == items[i].0 + ": " + ShowValue(items[i].1, showSet)
  {
    seq(|items|, i requires 0 <= i < |items| => items[i].0 + ": " + ShowValue(items[i].1, showSet))
  }

  /** The values `RuntimeState().__nice__()` shows for the default keys, in `DefaultKeysSorted` order. */
  const DefaultShown: seq<string> := [
    "False", "True", "False", "False", "False", "True", "True", "False", "False", "True", "set()", "False"
  ]

  /** `RuntimeState().__nice__()`, the text that `str` wraps as `<RuntimeState(...)>` in the class
      docstring: `KEY: value` for each default key in order (an empty `REQUIRES` shows as `set()`),
      joined by ", " inside braces. */
  lemma DefaultNice(st: Layers, showSet: set<string> -> string)
    requires st == Layers(DefaultRuntimeState, map[])
    ensures RuntimeStateNice(st, showSet)
         == "{" + Join(", ", seq(12, i requires 0 <= i < 12 => DefaultKeysSorted[i] + ": " + DefaultShown[i])) + "}"
  {
    DefaultToDict();
    DefaultEntryTexts(ToDict(st), showSet);
  }

  lemma DefaultEntryTexts(items: seq<(string, Value)>, showSet: set<string> -> string)
    requires items == Entries(DefaultKeysSorted, DefaultRuntimeState)
    ensures EntryTexts(items, showSet) == seq(12, i requires 0 <= i < 12 => DefaultKeysSorted[i] + ": " + DefaultShown[i])
  {
    forall i | 0 <= i < 12
      ensures ShowValue(items[i].1, showSet) == DefaultShown[i]
    {
      DefaultShownAt(i, items[i].1, showSet);
    }
  }

  lemma DefaultShownAt(i: nat, v: Value, showSet: set<string> -> string)
    requires i < |DefaultKeysSorted| && v == DefaultRuntimeState[DefaultKeysSorted[i]]
    ensures ShowValue(v, showSet) == DefaultShown[i]
  {
  }

  // ---------------------------------------------------------------- the runtime-state object

  /** `RuntimeState`: the two layers held as dictionaries that its methods update in place. */
  class RuntimeState {
    var globalState: map<string, Value>
    var inlineState: map<string, Value>

    /** Both layers, as a value. */
    function State(): Layers
      reads this
    {
      Layers(globalState, inlineState)
    }

    /** `RuntimeState(default_state)`: the defaults, overridden by `default_state`. */
    constructor(defaultState: map<string, Value>)
      ensures globalState == DefaultRuntimeState + defaultState
      ensures inlineState == map[]
    {
      globalState := DefaultRuntimeState + defaultState;
      inlineState := map[];
    }

    /** `state[key]` */
    function Get(key: string): (r: Result<Value>)
      reads this
      ensures r.Err? <==> key !in globalState
      ensures r.Ok? ==> r.value == (if key in inlineState then inlineState[key] else globalState[key])
    {
      Lookup(State(), key)
    }

    /** `state[key] = value`: only known keys, and only the global layer. */
    method Set(key: string, value: Value) returns (err: Option<Error>)
      modifies this
      ensures err == None <==> key in old(globalState)
      ensures err != None ==> err == Some(KeyError(key))
      ensures globalState == if err == None then old(globalState)[key := value] else old(globalState)
      ensures inlineState == old(inlineState)
    {
      if key !in globalState {
        return Some(KeyError(key));
      }
      globalState := globalState[key := value];
      return None;
    }

    /** `set_report_style(reportchoice)` on the global layer. */
    method SetReportStyle(reportChoice: string)
      modifies this
      ensures globalState == ReportStyle(old(globalState), reportChoice)
      ensures inlineState == old(inlineState)
    {
      var keys := globalState.Keys;
      while keys != {}
        invariant keys <= old(globalState).Keys
        invariant globalState.Keys == old(globalState).Keys
        invariant forall k :: k in old(globalState) ==>
                    globalState[k] == if k !in keys && StartsWith(k, "REPORT_") then Flag(false) else old(globalState)[k]
        invariant inlineState == old(inlineState)
        decreases |keys|
      {
        var k :| k in keys;
        if StartsWith(k, "REPORT_") {
          globalState := globalState[k := Flag(false)];
        }
        keys := keys - {k};
      }
      assert globalState == map k | k in old(globalState) :: if StartsWith(k, "REPORT_") then Flag(false) else old(globalState)[k];
      globalState := globalState["REPORT_" + Upper(reportChoice) := Flag(true)];
    }

    /** One effect of `update`, applied to the layer it names; a failing effect changes nothing. */
    method Apply(eff: Effect, inline: bool) returns (err: Option<Error>)
      modifies this
      ensures ApplyEffect(old(State()), eff, inline).Ok? ==>
                err == None && State() == ApplyEffect(old(State()), eff, inline).value
      ensures ApplyEffect(old(State()), eff, inline).Err? ==>
                err == Some(ApplyEffect(old(State()), eff, inline).error) && State() == old(State())
    {
      match eff {
        case Noop(_) =>
        case SetReportStyle(key) =>
          SetReportStyle(Replace(key, "REPORT_", ""));
        case Assign(key, value) =>
          if inline {
            inlineState := inlineState[key := Flag(value)];
          } else {
            globalState := globalState[key := Flag(value)];
          }
        case SetAdd(key, item) =>
          var state := if inline then inlineState else globalState;
          if key !in state {
            return Some(KeyError(key));
          }
          if state[key].Flag? {
            return Some(AttributeError);
          }
          var items := state[key].items + {item};
          if inline {
            inlineState := inlineState[key := Reqs(items)];
          } else {
            globalState := globalState[key := Reqs(items)];
          }
        case SetRemove(key, item) =>
          var state := if inline then inlineState else globalState;
          if key !in state {
            return Some(KeyError(key));
          }
          if state[key].Flag? {
            return Some(AttributeError);
          }
          if item !in state[key].items {
            return Some(KeyError(item));
          }
          var items := state[key].items - {item};
          if inline {
            inlineState := inlineState[key := Reqs(items)];
          } else {
            globalState := globalState[key := Reqs(items)];
          }
      }
      return None;
    }

    /**
     * `update(directives)`: clear the inline layer, then apply each
     * directive's effect in order.  An error stops the update where it is.
     */
    method Update(directives: seq<Directive>, env: Env) returns (err: Option<Error>)
      modifies this
      ensures (State(), err) == Run(Layers(old(globalState), map[]), directives, env)
    {
      ghost var start := Layers(globalState, map[]);
      inlineState := map[];
      var i := 0;
      while i < |directives|
        invariant 0 <= i <= |directives|
        invariant Run(start, directives[..i], env) == (State(), None)
      {
        var d := directives[i];
        RunSnoc(start, directives[..i], d, env);
        assert directives[..i] + [d] == directives[..i + 1];
        var eff := EffectOf(d, env);
        if eff.Err? {
          RunStops(start, directives, i + 1, env);
          return Some(eff.error);
        }
        var e := Apply(eff.value, d.inline);
        if e.Some? {
          RunStops(start, directives, i + 1, env);
          return e;
        }
        i := i + 1;
      }
      assert directives[..i] == directives;
      return None;
    }
  }

  // ---------------------------------------------------------------- the module-existence cache

  /**
   * `_MODNAME_EXISTS_CACHE` with `_module_exists`: each module name is looked
   * up once (by `lookup`, standing for `modname_to_modpath(name) is not None`)
   * and the answer is remembered.
   */
  class ModuleCache {
    var cache: map<string, bool>
    const lookup: string -> bool

    ghost predicate Valid()
      reads this
    {
      forall m :: m in cache ==> cache[m] == lookup(m)
    }

    constructor(lookup: string -> bool)
      ensures Valid() && cache == map[] && this.lookup == lookup
    {
      cache := map[];
      this.lookup := lookup;
    }

    /** `_module_exists(modname)`: the cached answer, filling the cache on a miss. */
    method Exists(modname: string) returns (flag: bool)
      requires Valid()
      modifies this
      ensures Valid()
      ensures flag == lookup(modname)
      ensures cache == old(cache)[modname := flag]
    {
      if modname !in cache {
        var existsFlag := lookup(modname);
        cache := cache[modname := existsFlag];
      }
      flag := cache[modname];
    }
  }
}
