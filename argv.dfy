/** The command-line helpers of args.py: each picks between a positional
    argument of `sys.argv`, a default, a line typed at a prompt and an
    abort. `sys.argv` and the line `input()` reads are parameters; `Error_Out`
    ends the process, so it is an outcome carrying the exit code. */
module Argv {
  import opened Text

  /** `Error.EUSER` (errors.py:25-27): the exit code of a user fault. */
  const EUSER: int := 69

  /** How a helper ends: a returned value, `sys.exit(code)` from
      `Error_Out`, an IndexError from `sys.argv[index]`, or an EOFError from
      `input()` on a closed stdin. */
  datatype Outcome<T> = Returned(value: T) | Exit(code: int) | IndexError | EndOfFile

  /** What a helper returns: an argument string, a parsed flag, or the
      caller's default as given. */
  datatype Arg<T> = Given(s: string) | Flag(b: bool) | Fallback(d: T)

  /** The `default` of `get_optional_arg`: `type(default) is bool` decides
      how the argument is read. */
  datatype Default<T> = BoolDefault(b: bool) | OtherDefault(v: T)

  /** `sys.argv[index]`, with Python's negative indices. */
  function ArgAt(argv: seq<string>, index: int): (r: Option<string>)
    ensures r.Some? <==> -|argv| <= index < |argv|
    ensures 0 <= index < |argv| ==> r == Some(argv[index])
    ensures -|argv| <= index < 0 ==> r == Some(argv[index + |argv|])
  {
    if 0 <= index < |argv| then Some(argv[index])
    else if -|argv| <= index < 0 then Some(argv[|argv| + index])
    else None
  }

  /** The default handed back as it came: a bool default is a flag. */
  function DefaultArg<T>(default: Default<T>): Arg<T> {
    match default
    case BoolDefault(b) => Flag(b)
    case OtherDefault(v) => Fallback(v)
  }

  /** `get_arg_not_empty(index)` (args.py:8-21). */
  function GetArgNotEmpty(argv: seq<string>, index: int): (r: Outcome<string>)
    ensures r.Returned? <==> ArgAt(argv, index).Some? && ArgAt(argv, index).value != ""
    ensures r.Returned? ==> r.value != "" && r.value in argv
    ensures r.Exit? <==> ArgAt(argv, index) == Some("")
    ensures r.Exit? ==> r.code == EUSER
    ensures r.IndexError? <==> !(-|argv| <= index < |argv|)
    ensures !r.EndOfFile?
  {
    match ArgAt(argv, index)
    case None => IndexError
    case Some(a) => if a == "" then Exit(EUSER) else Returned(a)
  }

  /** `get_optional_arg(index, default)` (args.py:24-41). A negative index
      always passes the `len(sys.argv) > index` test. */
  function GetOptionalArg<T>(argv: seq<string>, index: int, default: Default<T>): (r: Outcome<Arg<T>>)
    ensures |argv| <= index ==> r == Returned(DefaultArg(default))
    ensures 0 <= index < |argv| && default.BoolDefault? ==>
      r == Returned(Flag(argv[index] in {"True", "true", "1"}))
    ensures 0 <= index < |argv| && default.OtherDefault? ==> r == Returned(Given(argv[index]))
    ensures r.IndexError? <==> index < -|argv|
    ensures !r.Exit? && !r.EndOfFile?
  {
    if |argv| > index then
      match ArgAt(argv, index)
      case None => IndexError
      case Some(a) =>
        if default.BoolDefault? then
          if a == "True" || a == "true" || a == "1" then Returned(Flag(true)) else Returned(Flag(false))
        else Returned(Given(a))
    else Returned(DefaultArg(default))
  }

  /** Reading a string as `default_type`: a bool is True for "True" alone. */
  function Typed<T>(s: string, boolType: bool): Arg<T> {
    if boolType then Flag(s == "True") else Given(s)
  }

  /** `get_arg_iterative(index, prompt, default_type, default, iterative)`
      (args.py:44-83); `boolType` is `default_type is bool` and `answer`
      the line `input(prompt)` reads, None on a closed stdin. The final
      `return default` is never reached: both branches before it that fall
      through call `Error_Out`, which exits. */
  function GetArgIterative<T>(argv: seq<string>, index: int, boolType: bool, default: Option<T>,
                              iterative: bool, answer: Option<string>): (r: Outcome<Arg<T>>)
    ensures |argv| > index && index >= 0 ==> r == Returned(Typed(argv[index], boolType))
    ensures |argv| <= index && default.Some? ==> r == Returned(Fallback(default.value))
    ensures r.Exit? <==> |argv| <= index && default.None? && (!iterative || answer == Some(""))
    ensures r.Exit? ==> r.code == EUSER
    ensures r.EndOfFile? <==> |argv| <= index && default.None? && iterative && answer.None?
    ensures r.IndexError? <==> index < -|argv|
    ensures boolType && r.Returned? && r.value.Flag? && r.value.b ==>
      (ArgAt(argv, index) == Some("True") || (|argv| <= index && answer == Some("True")))
  {
    if |argv| > index then
      match ArgAt(argv, index)
      case None => IndexError
      case Some(a) =>
        if boolType then
          if a == "True" then Returned(Flag(true)) else Returned(Flag(false))
        else Returned(Given(a))
    else if default.Some? then Returned(Fallback(default.value))
    else if iterative then
      match answer
      case None => EndOfFile
      case Some(line) =>
        if line == "" then Exit(EUSER)
        else if boolType then
          if line == "True" then Returned(Flag(true)) else Returned(Flag(false))
        else Returned(Given(line))
    else Exit(EUSER)
  }

  /** A value typed at the prompt is read exactly as the same value given
      on a longer command line. */
  lemma PromptLikeArgv<T>(argv: seq<string>, longer: seq<string>, index: nat, boolType: bool, s: string)
    requires |argv| <= index < |longer| && longer[index] == s && s != ""
    ensures GetArgIterative<T>(argv, index, boolType, None, true, Some(s))
         == GetArgIterative<T>(longer, index, boolType, None, false, None)
  {
  }

  /** `get_optional_arg` reads every flag `get_arg_iterative` reads as True
      as True too, but also "true" and "1", which `get_arg_iterative` reads
      as False. */
  lemma FlagSpellings<T>(argv: seq<string>, index: nat, b: bool)
    requires index < |argv|
    ensures GetArgIterative<T>(argv, index, true, None, false, None) == Returned(Flag(true)) ==>
      GetOptionalArg<T>(argv, index, BoolDefault(b)) == Returned(Flag(true))
    ensures argv[index] in {"true", "1"} ==>
      && GetOptionalArg<T>(argv, index, BoolDefault(b)) == Returned(Flag(true))
      && GetArgIterative<T>(argv, index, true, None, false, None) == Returned(Flag(false))
  {
  }

  /** A non-empty positional argument comes back the same from
      `get_arg_not_empty` and, as a string, from the other two helpers. */
  lemma HelpersAgree<T>(argv: seq<string>, index: nat, default: T)
    requires index < |argv| && argv[index] != ""
    ensures GetArgNotEmpty(argv, index) == Returned(argv[index])
    ensures GetOptionalArg(argv, index, OtherDefault(default)) == Returned(Given(argv[index]))
    ensures GetArgIterative(argv, index, false, Some(default), true, None) == Returned(Given(argv[index]))
  {
  }
}
