/** The resolution passes `TaskRunner` applies to a command, its arguments,
    its working directory and its environment values (tasks.py:511-764):
    each maps a list of strings to a new list, replacing the VS Code
    variable references it knows. The passes that only read the
    environment are functions here; the two that change state, the
    `${config:` pass (it may write the environment) and the `${input:` pass
    (it consumes prompt answers), are functions that return the new state
    beside the result, and `Runner.TaskRunner` runs them as methods. */
module Resolution {
  import opened Text
  import opened Outcomes
  import opened Lookaround
  import opened Loading

  /** `os.environ`. */
  type Env = map<string, string>

  /** Applying a failing step to each element in turn: the results, or the
      error of the first element that fails. */
  function MapAll<A, B(==)>(f: A -> Result<B>, xs: seq<A>): (r: Result<seq<B>>)
    ensures r.Ok? <==> forall i :: 0 <= i < |xs| ==> f(xs[i]).Ok?
    ensures r.Ok? ==> |r.value| == |xs| && forall i :: 0 <= i < |xs| ==> f(xs[i]) == Ok(r.value[i])
    ensures r.Raise? ==> exists i :: 0 <= i < |xs| && f(xs[i]) == Raise(r.error)
                                   && forall j :: 0 <= j < i ==> f(xs[j]).Ok?
  {
    if xs == [] then Ok([])
    else
      var y :- f(xs[0]);
      var ys :- MapAll(f, xs[1..]);
      Ok([y] + ys)
  }

  // ---------------------------------------------------------------------
  // ${workspaceFolder} and ${workspaceFolderBasename} (tasks.py:511-526).

  function Braced(name: string): string {
    "${" + name + "}"
  }

  /** `__replace_env_var(var, value)`: None when `${var}` does not occur,
      KeyError when the variable is not set, and otherwise every `${var}`
      replaced by the variable's value. */
  function ReplaceEnvVar(env: Env, name: string, value: string): (r: Result<Option<string>>)
    ensures r.Ok? && r.value.Some? ==> Contains(value, Braced(name)) && name in env
    ensures r == Ok(None) <==> !Contains(value, Braced(name))
    ensures r.Raise? <==> Contains(value, Braced(name)) && name !in env
    ensures r.Raise? ==> r.error == MissingKey(name)
    ensures r.Ok? && r.value.Some? ==> r.value.value == ReplaceAll(value, Braced(name), env[name])
  {
    if !Contains(value, Braced(name)) then Ok(None)
    else if name !in env then Raise(MissingKey(name))
    else Ok(Some(ReplaceAll(value, Braced(name), env[name])))
  }

  /** One element of `__check_workspace_folder`: a value that holds the word
      `workspaceFolderBasename` but not its reference becomes None, and the
      next `in` test on it raises TypeError; one that holds only the word
      `workspaceFolder` is kept as None. */
  function WorkspaceValue(env: Env, value: string): Result<Option<string>> {
    var v :- if Contains(value, "workspaceFolderBasename")
             then ReplaceEnvVar(env, "workspaceFolderBasename", value) else Ok(Some(value));
    if v.None? then Raise(NoneValue)
    else if Contains(v.value, "workspaceFolder") then ReplaceEnvVar(env, "workspaceFolder", v.value)
    else Ok(v)
  }

  /** A loaded value where a string is expected: `in` on anything but a
      string raises TypeError. */
  function AsText(j: Json, field: string): (r: Result<string>)
    ensures r.Ok? <==> j.JStr?
    ensures r.Ok? ==> r.value == j.s
    ensures r.Raise? ==> r.error == NotAString(field)
  {
    if j.JStr? then Ok(j.s) else Raise(NotAString(field))
  }

  /** Strings as loaded values. */
  function Texts(xs: seq<string>): (r: seq<Json>)
    ensures |r| == |xs| && forall i :: 0 <= i < |xs| ==> r[i] == JStr(xs[i])
  {
    seq(|xs|, i requires 0 <= i < |xs| => JStr(xs[i]))
  }

  /** One loaded value of `__check_workspace_folder`. */
  function WorkspaceItem(env: Env, x: Json, field: string): Result<Option<string>> {
    var value :- AsText(x, field);
    WorkspaceValue(env, value)
  }

  /** `__check_workspace_folder`, the first pass every value of a task
      goes through. */
  function WorkspacePass(env: Env, xs: seq<Json>, field: string): Result<seq<Option<string>>> {
    MapAll(x => WorkspaceItem(env, x, field), xs)
  }

  /** The `in` test the next pass applies to each element: TypeError at a
      None. */
  function Present(xs: seq<Option<string>>): (r: Result<seq<string>>)
    ensures r.Ok? <==> forall i :: 0 <= i < |xs| ==> xs[i].Some?
    ensures r.Ok? ==> |r.value| == |xs| && forall i :: 0 <= i < |xs| ==> xs[i] == Some(r.value[i])
    ensures r.Raise? ==> r.error == NoneValue
  {
    if xs == [] then Ok([])
    else if xs[0].None? then Raise(NoneValue)
    else
      var rest :- Present(xs[1..]);
      Ok([xs[0].value] + rest)
  }

  /** A value without either word passes the workspace step unchanged. */
  lemma WorkspaceUntouched(env: Env, value: string)
    requires !Contains(value, "workspaceFolder")
    ensures WorkspaceValue(env, value) == Ok(Some(value))
  {
    Unextended(value, "workspaceFolderBasename", "workspaceFolder");
  }

  /** `${workspaceFolder}` is the variable's value, and KeyError when it is
      not set. */
  lemma WorkspaceFolderResolves(env: Env)
    ensures "workspaceFolder" in env ==>
      WorkspaceValue(env, Braced("workspaceFolder")) == Ok(Some(env["workspaceFolder"]))
    ensures "workspaceFolder" !in env ==>
      WorkspaceValue(env, Braced("workspaceFolder")) == Raise(MissingKey("workspaceFolder"))
  {
    var value := Braced("workspaceFolder");
    assert !Contains(value, "workspaceFolderBasename");
    assert value[1..16] == "{workspaceFolde";
    assert value[2..17] == "workspaceFolder";
    ContainsAt(value, "workspaceFolder", 2);
    ContainsAt(value, value, 0);
    ReplaceWhole(value, if "workspaceFolder" in env then env["workspaceFolder"] else "");
  }

  /** `${workspaceFolderBasename}` is the variable's value, unless that
      value itself names `workspaceFolder`; KeyError when it is not set. */
  lemma WorkspaceBasenameResolves(env: Env)
    ensures "workspaceFolderBasename" in env && !Contains(env["workspaceFolderBasename"], "workspaceFolder") ==>
      WorkspaceValue(env, Braced("workspaceFolderBasename")) == Ok(Some(env["workspaceFolderBasename"]))
    ensures "workspaceFolderBasename" !in env ==>
      WorkspaceValue(env, Braced("workspaceFolderBasename")) == Raise(MissingKey("workspaceFolderBasename"))
  {
    var value := Braced("workspaceFolderBasename");
    assert value[2..25] == "workspaceFolderBasename";
    ContainsAt(value, "workspaceFolderBasename", 2);
    ContainsAt(value, value, 0);
    ReplaceWhole(value, if "workspaceFolderBasename" in env then env["workspaceFolderBasename"] else "");
  }

  /** The word `workspaceFolder` outside a reference turns the value into
      None, and the next pass's `in` raises TypeError on it. */
  lemma WorkspaceWordAlone(env: Env, value: string)
    requires Contains(value, "workspaceFolder") && !Contains(value, Braced("workspaceFolder"))
    requires !Contains(value, "workspaceFolderBasename")
    ensures WorkspaceValue(env, value) == Ok(None)
    ensures Present([WorkspaceValue(env, value).value]) == Raise(NoneValue)
  {
  }

  // ---------------------------------------------------------------------
  // ${command:torizon_ and ${command:docker_ (tasks.py:529-548).

  /** `if pat in value: value = value.replace(pat, rep)`. */
  function Rewrite(value: string, pat: string, rep: string): (r: string)
    requires |pat| > 0
    ensures !Contains(value, pat) ==> r == value
    ensures Contains(value, pat) ==> Contains(r, rep)
  {
    if Contains(value, pat) then
      ReplaceIntroduces(value, pat, rep);
      ReplaceAll(value, pat, rep)
    else value
  }

  /** `__check_torizon_inputs` (tool `torizon_`) and `__check_docker_inputs`
      (tool `docker_`): a `${command:<tool>...}` reference is turned into the
      `${config:<tool>...}` reference the config pass resolves. */
  function CommandPass(tool: string, xs: seq<string>): (r: seq<string>)
    ensures |r| == |xs|
    ensures forall i :: 0 <= i < |xs| && !Contains(xs[i], "${command:" + tool) ==> r[i] == xs[i]
    ensures forall i :: 0 <= i < |xs| && Contains(xs[i], "${command:" + tool) ==> Contains(r[i], "${config:" + tool)
  {
    seq(|xs|, i requires 0 <= i < |xs| => Rewrite(xs[i], "${command:" + tool, "${config:" + tool))
  }

  /** A string without `$` holds no reference pattern. */
  lemma NoDollarNoPattern(s: string, pat: string)
    requires |pat| > 0 && pat[0] == '$' && forall j :: 0 <= j < |s| ==> s[j] != '$'
    ensures !Contains(s, pat)
  {
  }

  /** A string whose only `$` is its first character holds a pattern that
      starts with `$` only as a prefix. */
  lemma SingleDollar(s: string, pat: string)
    requires |pat| > 0 && pat[0] == '$' && !IsPrefix(pat, s)
    requires forall j :: 1 <= j < |s| ==> s[j] != '$'
    ensures !Contains(s, pat)
  {
    forall i | 0 <= i <= |s| - |pat| ensures !OccursAt(s, pat, i) {
      if i > 0 { assert s[i..i + |pat|][0] != pat[0]; }
    }
  }

  /** `${command:<tool><name>}` becomes `${config:<tool><name>}`. */
  lemma CommandReference(tool: string, n: string)
    requires RefName(n) && forall j :: 0 <= j < |tool| ==> tool[j] != '$'
    ensures CommandPass(tool, ["${command:" + tool + n + "}"]) == ["${config:" + tool + n + "}"]
  {
    var pat := "${command:" + tool;
    var rep := "${config:" + tool;
    var rest := n + "}";
    var s := pat + rest;
    assert s == "${command:" + tool + n + "}";
    assert s[..|pat|] == pat && s[|pat|..] == rest;
    assert forall j :: 0 <= j < |rest| ==> rest[j] != '$' by {
      forall j | 0 <= j < |rest| ensures rest[j] != '$' {
        if j < |n| { assert rest[j] == n[j]; }
      }
    }
    NoDollarNoPattern(rest, pat);
    ReplaceAbsent(rest, pat, rep);
    assert ReplaceAll(s, pat, rep) == rep + rest;
    ContainsAt(s, pat, 0);
    assert rep + rest == "${config:" + tool + n + "}";
  }

  // ---------------------------------------------------------------------
  // ${command:tcb. (tasks.py:551-603).

  /** What `torizon-io.xsh package latest version <name>` gives. */
  datatype RegistryReply = Latest(version: int) | QueryFailed | Unparseable

  /** What reading `output.easy-installer.local` from tcbuild.yaml gives. */
  datatype ManifestReply = Folder(path: string) | KeyMissing | Unreadable

  /** The collaborators of the tcb pass: the package registry and the
      TorizonCore Builder manifest in the working directory. */
  datatype Collaborators = Collaborators(latestVersion: string -> RegistryReply, manifest: ManifestReply)

  /** The literals of the two special-case replacements. They are not
      f-strings, so their braces stay doubled. */
  const NextVersionLiteral := "${{command:tcb.getNextPackageVersion}}"
  const TeziFolderLiteral := "${{command:tcb.outputTEZIFolder}}"

  /** Each `${command:tcb.<m>}` found becomes `${config:tcb.<m>}`, in match
      order. */
  function TcbToConfig(value: string, ms: seq<string>): string
    decreases |ms|
  {
    if ms == [] then value
    else TcbToConfig(ReplaceAll(value, "${command:tcb." + ms[0] + "}", "${config:tcb." + ms[0] + "}"), ms[1..])
  }

  function TcbRefs(value: string): string {
    TcbToConfig(value, FindAll(value, "${command:tcb."))
  }

  /** One element of `__check_tcb_inputs`: one entry, or two for
      `tcb.getNextPackageVersion`, which appends once in its branch and
      once more at the end. */
  function TcbValue(env: Env, tcb: Collaborators, value: string): (r: Result<seq<string>>)
    ensures r.Ok? ==> 1 <= |r.value| <= 2
    ensures !Contains(value, "${command:tcb") ==> r == Ok([value])
  {
    if !Contains(value, "${command:tcb") then Ok([value])
    else if Contains(value, "tcb.getNextPackageVersion") then
      if "config:tcb_packageName" !in env then Raise(MissingKey("config:tcb_packageName"))
      else
        match tcb.latestVersion(env["config:tcb_packageName"])
        case QueryFailed => Raise(RegistryQueryFailed)
        case Unparseable => Raise(NotANumber)
        case Latest(n) => Ok([ReplaceAll(value, NextVersionLiteral, IntToDecimal(n + 1)), TcbRefs(value)])
    else if Contains(value, "tcb.outputTEZIFolder") then
      match tcb.manifest
      case Unreadable => Raise(ManifestUnreadable)
      case KeyMissing => Raise(ManifestKeyMissing)
      case Folder(f) => Ok([TcbRefs(ReplaceAll(value, TeziFolderLiteral, f))])
    else Ok([TcbRefs(value)])
  }

  function TcbPass(env: Env, tcb: Collaborators, xs: seq<string>): (r: Result<seq<string>>)
    ensures r.Ok? ==> |xs| <= |r.value| <= 2 * |xs|
    ensures (forall i :: 0 <= i < |xs| ==> !Contains(xs[i], "${command:tcb")) ==> r == Ok(xs)
  {
    if xs == [] then Ok([])
    else
      var first :- TcbValue(env, tcb, xs[0]);
      var rest :- TcbPass(env, tcb, xs[1..]);
      assert xs == [xs[0]] + xs[1..];
      Ok(first + rest)
  }

  /** A string with a single `{` never holds the doubled-brace literals, so
      the special-case replacements leave it as it is. */
  lemma DoubledBraceNeverMatches(value: string, literal: string, rep: string)
    requires IsPrefix("${{", literal)
    requires !Contains(value, "${{")
    ensures ReplaceAll(value, literal, rep) == value
  {
    if Contains(value, literal) {
      ContainsPrefixOf(value, literal, "${{");
    }
    ReplaceAbsent(value, literal, rep);
  }

  /** A plain `${command:tcb.<name>}` becomes `${config:tcb.<name>}`. */
  lemma TcbReference(n: string)
    requires RefName(n)
    ensures TcbRefs("${command:tcb." + n + "}") == "${config:tcb." + n + "}"
  {
    var s := "${command:tcb." + n + "}";
    var t := "${config:tcb." + n + "}";
    SingleReference("${command:tcb.", n);
    ReplaceWhole(s, t);
    var ms := FindAll(s, "${command:tcb.");
    assert ms[1..] == [];
    assert TcbToConfig(s, ms) == TcbToConfig(ReplaceAll(s, s, t), []);
  }

  /** `tcb.getNextPackageVersion` appends twice: the value as it was, since
      the doubled-brace literal does not occur in it, and then the value
      with its `${command:tcb.` references rewritten. The version read from
      the registry appears in neither. */
  lemma TcbNextVersionTwice(env: Env, tcb: Collaborators, value: string, n: int)
    requires Contains(value, "${command:tcb") && Contains(value, "tcb.getNextPackageVersion")
    requires "config:tcb_packageName" in env
    requires tcb.latestVersion(env["config:tcb_packageName"]) == Latest(n)
    requires !Contains(value, "${{")
    ensures TcbValue(env, tcb, value) == Ok([value, TcbRefs(value)])
  {
    assert NextVersionLiteral[..3] == "${{" by {
      assert NextVersionLiteral[0] == '$' && NextVersionLiteral[1] == '{' && NextVersionLiteral[2] == '{';
    }
    DoubledBraceNeverMatches(value, NextVersionLiteral, IntToDecimal(n + 1));
  }

  const NextVersionName := "getNextPackageVersion"

  lemma NextVersionNameIsRefName()
    ensures RefName(NextVersionName)
  {
    var name := NextVersionName;
    forall j | 0 <= j < |name| ensures name[j] != '$' && name[j] != '}' && !IsSpace(name[j]) {
      assert 'A' <= name[j] <= 'z';
    }
  }

  lemma NextVersionReferenceContains()
    ensures var s := "${command:tcb." + NextVersionName + "}";
      Contains(s, "${command:tcb") && Contains(s, "tcb.getNextPackageVersion")
  {
    var s := "${command:tcb." + NextVersionName + "}";
    assert OccursAt(s, "${command:tcb", 0);
    ContainsAt(s, "${command:tcb", 0);
    var t := "tcb." + NextVersionName;
    assert s == "${command:" + t + "}";
    assert s[10..10 + |t|] == t;
    assert OccursAt(s, "tcb.getNextPackageVersion", 10);
    ContainsAt(s, "tcb.getNextPackageVersion", 10);
  }

  lemma NextVersionReferenceBraces()
    ensures !Contains("${command:tcb." + NextVersionName + "}", "${{")
  {
    var name := NextVersionName;
    var s := "${command:tcb." + name + "}";
    forall j | 1 <= j < |s| ensures s[j] != '$' {
      if 14 <= j < 14 + |name| { assert s[j] == name[j - 14]; }
    }
    assert s[2] != "${{"[2];
    SingleDollar(s, "${{");
  }

  /** The reference `${command:tcb.getNextPackageVersion}` itself yields the
      reference unchanged and then its `${config:` spelling. */
  lemma TcbNextVersionReference(env: Env, tcb: Collaborators, n: int)
    requires "config:tcb_packageName" in env
    requires tcb.latestVersion(env["config:tcb_packageName"]) == Latest(n)
    ensures TcbValue(env, tcb, "${command:tcb." + NextVersionName + "}")
         == Ok(["${command:tcb." + NextVersionName + "}", "${config:tcb." + NextVersionName + "}"])
  {
    NextVersionNameIsRefName();
    NextVersionReferenceContains();
    NextVersionReferenceBraces();
    TcbNextVersionTwice(env, tcb, "${command:tcb." + NextVersionName + "}", n);
    TcbReference(NextVersionName);
  }

  /** Any other `${command:tcb.<name>}` yields one value, its `${config:`
      spelling. */
  lemma TcbPlainReference(env: Env, tcb: Collaborators, n: string)
    requires RefName(n)
    requires !Contains("${command:tcb." + n + "}", "tcb.getNextPackageVersion")
    requires !Contains("${command:tcb." + n + "}", "tcb.outputTEZIFolder")
    ensures TcbValue(env, tcb, "${command:tcb." + n + "}") == Ok(["${config:tcb." + n + "}"])
  {
    var s := "${command:tcb." + n + "}";
    assert OccursAt(s, "${command:tcb", 0);
    ContainsAt(s, "${command:tcb", 0);
    TcbReference(n);
  }

  // ---------------------------------------------------------------------
  // ${env:NAME} (tasks.py:655-674).

  function EnvMatches(env: Env, arg: string, ms: seq<string>): (r: Result<string>)
    ensures r.Raise? ==> exists i :: 0 <= i < |ms| && ms[i] !in env && r.error == MissingEnv(ms[i])
    ensures (forall i :: 0 <= i < |ms| ==> ms[i] in env) ==> r.Ok?
    decreases |ms|
  {
    if ms == [] then Ok(arg)
    else if ms[0] !in env then Raise(MissingEnv(ms[0]))
    else EnvMatches(env, ReplaceAll(arg, "${env:" + ms[0] + "}", env[ms[0]]), ms[1..])
  }

  function EnvArg(env: Env, arg: string): Result<string> {
    if Contains(arg, "${env:") then EnvMatches(env, arg, FindAll(arg, "${env:")) else Ok(arg)
  }

  /** `__check_vscode_env`. */
  function EnvPass(env: Env, args: seq<string>): (r: Result<seq<string>>)
    ensures r.Ok? ==> |r.value| == |args|
    ensures r.Ok? ==> forall i :: 0 <= i < |args| && !Contains(args[i], "${env:") ==> r.value[i] == args[i]
  {
    MapAll(a => EnvArg(env, a), args)
  }

  /** Setting NAME to v and resolving `${env:NAME}` gives v. */
  lemma EnvRoundTrip(env: Env, n: string, v: string)
    requires RefName(n)
    ensures EnvPass(env[n := v], ["${env:" + n + "}"]) == Ok([v])
  {
    var arg := "${env:" + n + "}";
    SingleReference("${env:", n);
    ReplaceWhole(arg, v);
    assert arg[..|"${env:"|] == "${env:";
    ContainsAt(arg, "${env:", 0);
    var e := env[n := v];
    assert [n][1..] == [];
    assert EnvMatches(e, arg, [n]) == EnvMatches(e, v, []);
    assert EnvArg(e, arg) == Ok(v);
    var r := EnvPass(e, [arg]);
    assert r.Ok? && r.value == [v];
  }

  /** A reference to an unset variable raises ReferenceError. */
  lemma EnvMissing(env: Env, n: string)
    requires RefName(n) && n !in env
    ensures EnvPass(env, ["${env:" + n + "}"]) == Raise(MissingEnv(n))
  {
    var arg := "${env:" + n + "}";
    SingleReference("${env:", n);
    assert arg[..|"${env:"|] == "${env:";
    ContainsAt(arg, "${env:", 0);
    assert EnvMatches(env, arg, [n]) == Raise(MissingEnv(n));
    assert EnvArg(env, arg) == Raise(MissingEnv(n));
  }

  // ---------------------------------------------------------------------
  // ${config:name} (tasks.py:623-652).

  /** A result together with the environment as the pass left it. */
  datatype Configured<T> = Configured(result: Result<T>, env: Env)

  const DefaultRegistry := "registry-1.docker.io"

  /** The environment key a `${config:<m>}` reference reads. */
  function ConfigKey(m: string): string {
    "config:" + Underscored(m)
  }

  /** The environment before the substitution of `m`: an empty
      `config:docker_registry` is set to the public registry. */
  function Normalized(env: Env, m: string): (r: Env)
    requires ConfigKey(m) in env
    ensures ConfigKey(m) in r && r.Keys == env.Keys
    ensures forall k :: k in env && k != "config:docker_registry" ==> r[k] == env[k]
    ensures env[ConfigKey(m)] != "" || Underscored(m) != "docker_registry" ==> r == env
  {
    if Underscored(m) == "docker_registry" && env[ConfigKey(m)] == "" then
      env[ConfigKey(m) := DefaultRegistry]
    else env
  }

  function ConfigMatches(env: Env, arg: string, ms: seq<string>): (r: Configured<string>)
    ensures r.env.Keys == env.Keys
    ensures forall k :: k in env && k != "config:docker_registry" ==> r.env[k] == env[k]
    decreases |ms|
  {
    if ms == [] then Configured(Ok(arg), env)
    else if ConfigKey(ms[0]) !in env then Configured(Raise(MissingConfig(ms[0])), env)
    else
      var e := Normalized(env, ms[0]);
      ConfigMatches(e, ReplaceAll(arg, "${config:" + ms[0] + "}", e[ConfigKey(ms[0])]), ms[1..])
  }

  function ConfigArg(env: Env, arg: string): (r: Configured<string>)
    ensures r.env.Keys == env.Keys
    ensures forall k :: k in env && k != "config:docker_registry" ==> r.env[k] == env[k]
    ensures !Contains(arg, "${config:") ==> r == Configured(Ok(arg), env)
  {
    if Contains(arg, "${config:") then ConfigMatches(env, arg, FindAll(arg, "${config:"))
    else Configured(Ok(arg), env)
  }

  /** `__check_config`, which may set `config:docker_registry` and keeps
      that change when a later reference raises. */
  function ConfigPass(env: Env, args: seq<string>): (r: Configured<seq<string>>)
    ensures r.env.Keys == env.Keys
    ensures forall k :: k in env && k != "config:docker_registry" ==> r.env[k] == env[k]
    ensures r.result.Ok? ==> |r.result.value| == |args|
    ensures (forall i :: 0 <= i < |args| ==> !Contains(args[i], "${config:")) ==> r == Configured(Ok(args), env)
  {
    if args == [] then Configured(Ok([]), env)
    else
      var first := ConfigArg(env, args[0]);
      if first.result.Raise? then Configured(Raise(first.result.error), first.env)
      else
        var rest := ConfigPass(first.env, args[1..]);
        if rest.result.Raise? then rest
        else
          assert args == [args[0]] + args[1..];
          Configured(Ok([first.result.value] + rest.result.value), rest.env)
  }

  lemma ConfigSingle(env: Env, n: string)
    requires RefName(n)
    ensures var arg := "${config:" + n + "}";
      && Contains(arg, "${config:")
      && FindAll(arg, "${config:") == [n]
  {
    var arg := "${config:" + n + "}";
    SingleReference("${config:", n);
    assert arg[..|"${config:"|] == "${config:";
    ContainsAt(arg, "${config:", 0);
  }

  /** `${config:<name>}` gives the setting seeded under `config:` and the
      name with its dots underscored; an empty `docker_registry` is first
      replaced by the public registry, in the environment too. */
  lemma ConfigRoundTrip(env: Env, n: string)
    requires RefName(n) && ConfigKey(n) in env
    ensures ConfigPass(env, ["${config:" + n + "}"]) == Configured(Ok([Normalized(env, n)[ConfigKey(n)]]), Normalized(env, n))
    ensures Underscored(n) == "docker_registry" && env[ConfigKey(n)] == "" ==>
      Normalized(env, n)[ConfigKey(n)] == DefaultRegistry
    ensures env[ConfigKey(n)] != "" || Underscored(n) != "docker_registry" ==>
      ConfigPass(env, ["${config:" + n + "}"]) == Configured(Ok([env[ConfigKey(n)]]), env)
  {
    var arg := "${config:" + n + "}";
    ConfigSingle(env, n);
    var e := Normalized(env, n);
    ReplaceWhole(arg, e[ConfigKey(n)]);
    assert [n][1..] == [];
    assert ConfigMatches(env, arg, [n]) == ConfigMatches(e, e[ConfigKey(n)], []);
    assert ConfigArg(env, arg) == Configured(Ok(e[ConfigKey(n)]), e);
    assert [arg][1..] == [];
    assert [e[ConfigKey(n)]] + [] == [e[ConfigKey(n)]];
  }

  /** A reference to a setting that was not seeded raises ReferenceError
      and changes nothing. */
  lemma ConfigMissing(env: Env, n: string)
    requires RefName(n) && ConfigKey(n) !in env
    ensures ConfigPass(env, ["${config:" + n + "}"]) == Configured(Raise(MissingConfig(n)), env)
  {
    ConfigSingle(env, n);
  }

  // ---------------------------------------------------------------------
  // ${input:id} (tasks.py:704-764).

  /** What `__check_input` reads besides the prompt answers. */
  datatype InputContext = InputContext(inputs: seq<InputOptions>, cli: map<string, string>, interactive: bool)

  /** A result together with the prompt answers not yet read. */
  datatype Prompted<T> = Prompted(result: Result<T>, answers: seq<string>)

  /** The first input declared with this id: an input whose `id` is not
      the same string never matches. */
  function FindInput(inputs: seq<InputOptions>, id: string): (r: Option<InputOptions>)
    ensures r.Some? ==> exists k :: 0 <= k < |inputs| && inputs[k] == r.value && inputs[k].id == JStr(id)
                                   && forall j :: 0 <= j < k ==> inputs[j].id != JStr(id)
    ensures r.None? ==> forall i :: 0 <= i < |inputs| ==> inputs[i].id != JStr(id)
  {
    if inputs == [] then None
    else if inputs[0].id == JStr(id) then
      assert inputs[0] == inputs[0];
      Some(inputs[0])
    else
      var r := FindInput(inputs[1..], id);
      if r.Some? then
        var k :| 0 <= k < |inputs[1..]| && inputs[1..][k] == r.value && inputs[1..][k].id == JStr(id)
                 && forall j :: 0 <= j < k ==> inputs[1..][j].id != JStr(id);
        assert inputs[k + 1] == r.value;
        assert forall j :: 0 <= j < k + 1 ==> inputs[j].id != JStr(id) by {
          forall j | 0 <= j < k + 1 ensures inputs[j].id != JStr(id) {
            if j > 0 { assert inputs[j] == inputs[1..][j - 1]; }
          }
        }
        r
      else r
  }

  /** The option a pickString answer selects: the answer must be `str(i)`
      for an index `i` of the options. */
  function PickAnswer(options: seq<Json>, answer: string): (r: Option<Json>)
    ensures r.Some? ==> exists i :: 0 <= i < |options| && answer == NatToDecimal(i) && r.value == options[i]
    ensures r.None? ==> forall i :: 0 <= i < |options| ==> answer != NatToDecimal(i)
  {
    var i := DecimalIndex(answer, |options|, 0);
    if i.Some? then Some(options[i.value]) else None
  }

  /** An answer `str(i)` selects option `i`. */
  lemma PickByIndex(options: seq<Json>, i: nat)
    requires i < |options|
    ensures PickAnswer(options, NatToDecimal(i)) == Some(options[i])
  {
    var r := PickAnswer(options, NatToDecimal(i));
    var j :| 0 <= j < |options| && NatToDecimal(i) == NatToDecimal(j) && r.value == options[j];
    DecimalInjective(i, j);
  }

  /** The pickString prompt, asked once for each input declared with the
      id; the last answer wins. Options that are None fail the `assert`;
      the options are iterated, so a string offers its characters, before
      the answer is read. */
  function Pick(inputs: seq<InputOptions>, id: string, answers: seq<string>, current: Json): (r: Prompted<Json>)
    ensures |r.answers| <= |answers|
    decreases |inputs|
  {
    if inputs == [] then Prompted(Ok(current), answers)
    else if inputs[0].id != JStr(id) then Pick(inputs[1..], id, answers, current)
    else if inputs[0].options.JNull? then Prompted(Raise(NoPickOptions(id)), answers)
    else
      var options := Iterated(inputs[0].options, "options");
      if options.Raise? then Prompted(Raise(options.error), answers)
      else if answers == [] then Prompted(Raise(EndOfInput), answers)
      else
        var chosen := PickAnswer(options.value, answers[0]);
        if chosen.None? then Prompted(Raise(NotAnOption(id)), answers[1..])
        else Pick(inputs[1..], id, answers[1..], chosen.value)
  }

  /** The value of one `${input:<id>}` reference, for the input `input`
      declared with that id: a CLI value, a truthy default, a prompted line,
      the option picked, or the string "None" for another `type`. A value
      that is not a string fails the `replace` with TypeError, and a picked
      None with ValueError. */
  function InputValue(ctx: InputContext, answers: seq<string>, id: string, input: InputOptions): (r: Prompted<string>)
    ensures |r.answers| <= |answers|
  {
    if id in ctx.cli then Prompted(Ok(ctx.cli[id]), answers)
    else if Truthy(input.default) then Prompted(AsText(input.default, "default"), answers)
    else if !ctx.interactive then Prompted(Raise(InteractiveInputDisabled), answers)
    else if input.kind == JStr("promptString") then
      if answers == [] then Prompted(Raise(EndOfInput), answers)
      else Prompted(Ok(answers[0]), answers[1..])
    else if input.kind == JStr("pickString") then
      var picked := Pick(ctx.inputs, id, answers, JStr("None"));
      if picked.result.Raise? then Prompted(Raise(picked.result.error), picked.answers)
      else if picked.result.value.JNull? then Prompted(Raise(NoneChosen(id)), picked.answers)
      else Prompted(AsText(picked.result.value, "options"), picked.answers)
    else Prompted(Ok("None"), answers)
  }

  function InputMatches(ctx: InputContext, answers: seq<string>, arg: string, ms: seq<string>): (r: Prompted<string>)
    ensures |r.answers| <= |answers|
    decreases |ms|
  {
    if ms == [] then Prompted(Ok(arg), answers)
    else
      var input := FindInput(ctx.inputs, ms[0]);
      if input.None? then Prompted(Raise(UnknownInput(ms[0])), answers)
      else
        var v := InputValue(ctx, answers, ms[0], input.value);
        if v.result.Raise? then v
        else
          InputMatches(ctx, v.answers, ReplaceAll(arg, "${input:" + ms[0] + "}", v.result.value), ms[1..])
  }

  function InputArg(ctx: InputContext, answers: seq<string>, arg: string): (r: Prompted<string>)
    ensures !Contains(arg, "${input:") ==> r == Prompted(Ok(arg), answers)
    ensures |r.answers| <= |answers|
  {
    if Contains(arg, "${input:") then InputMatches(ctx, answers, arg, FindAll(arg, "${input:"))
    else Prompted(Ok(arg), answers)
  }

  /** `__check_input`, consuming the prompt answers it reads. */
  function InputPass(ctx: InputContext, answers: seq<string>, args: seq<string>): (r: Prompted<seq<string>>)
    ensures r.result.Ok? ==> |r.result.value| == |args|
    ensures (forall i :: 0 <= i < |args| ==> !Contains(args[i], "${input:")) ==> r == Prompted(Ok(args), answers)
    ensures |r.answers| <= |answers|
    decreases |args|
  {
    if args == [] then Prompted(Ok([]), answers)
    else
      var first := InputArg(ctx, answers, args[0]);
      if first.result.Raise? then Prompted(Raise(first.result.error), first.answers)
      else
        var rest := InputPass(ctx, first.answers, args[1..]);
        if rest.result.Raise? then rest
        else
          assert args == [args[0]] + args[1..];
          Prompted(Ok([first.result.value] + rest.result.value), rest.answers)
  }

  lemma InputSingle(n: string)
    requires RefName(n)
    ensures var arg := "${input:" + n + "}";
      && Contains(arg, "${input:")
      && FindAll(arg, "${input:") == [n]
  {
    var arg := "${input:" + n + "}";
    SingleReference("${input:", n);
    assert arg[..|"${input:"|] == "${input:";
    ContainsAt(arg, "${input:", 0);
  }

  /** `${input:<id>}` resolves to the value the precedence rules pick, and
      an undeclared id raises ReferenceError. */
  lemma InputRoundTrip(ctx: InputContext, answers: seq<string>, id: string)
    requires RefName(id)
    ensures FindInput(ctx.inputs, id).None? ==>
      InputPass(ctx, answers, ["${input:" + id + "}"]) == Prompted(Raise(UnknownInput(id)), answers)
    ensures FindInput(ctx.inputs, id).Some? && InputValue(ctx, answers, id, FindInput(ctx.inputs, id).value).result.Ok? ==>
      var v := InputValue(ctx, answers, id, FindInput(ctx.inputs, id).value);
      InputPass(ctx, answers, ["${input:" + id + "}"]) == Prompted(Ok([v.result.value]), v.answers)
  {
    var arg := "${input:" + id + "}";
    InputSingle(id);
    var input := FindInput(ctx.inputs, id);
    if input.Some? {
      var v := InputValue(ctx, answers, id, input.value);
      if v.result.Ok? {
        ReplaceWhole(arg, v.result.value);
        assert [id][1..] == [];
        assert InputMatches(ctx, answers, arg, [id]) == InputMatches(ctx, v.answers, v.result.value, []);
        assert InputArg(ctx, answers, arg) == Prompted(Ok(v.result.value), v.answers);
        assert [arg][1..] == [];
        assert [v.result.value] + [] == [v.result.value];
      }
    }
  }

  /** The order in which a value is chosen: a CLI value, even an empty one;
      else a truthy default, which must be a string; else, without a
      terminal, RuntimeError; else the prompt; and "None" for a `type` that
      is neither promptString nor pickString. */
  lemma InputPrecedence(ctx: InputContext, answers: seq<string>, id: string, input: InputOptions)
    ensures id in ctx.cli ==> InputValue(ctx, answers, id, input) == Prompted(Ok(ctx.cli[id]), answers)
    ensures id !in ctx.cli && input.default.JStr? && input.default.s != "" ==>
      InputValue(ctx, answers, id, input) == Prompted(Ok(input.default.s), answers)
    ensures id !in ctx.cli && Truthy(input.default) && !input.default.JStr? ==>
      InputValue(ctx, answers, id, input) == Prompted(Raise(NotAString("default")), answers)
    ensures id !in ctx.cli && !Truthy(input.default) && !ctx.interactive ==>
      InputValue(ctx, answers, id, input) == Prompted(Raise(InteractiveInputDisabled), answers)
    ensures id !in ctx.cli && !Truthy(input.default) && ctx.interactive
            && input.kind == JStr("promptString") && answers != [] ==>
      InputValue(ctx, answers, id, input) == Prompted(Ok(answers[0]), answers[1..])
    ensures id !in ctx.cli && !Truthy(input.default) && ctx.interactive
            && input.kind != JStr("promptString") && input.kind != JStr("pickString") ==>
      InputValue(ctx, answers, id, input) == Prompted(Ok("None"), answers)
  {
  }

  /** A pickString input that is the only one with its id: the answer
      `str(i)` selects option `i` of what iterating the options gives (the
      characters of a string, the keys of an object), an option that is
      None raises ValueError, one that is not a string TypeError, and an
      answer that is no index ValueError. */
  lemma PickScenario(ctx: InputContext, id: string, answer: string, rest: seq<string>)
    requires |ctx.inputs| == 1 && ctx.inputs[0].id == JStr(id) && !ctx.inputs[0].options.JNull?
    requires Iterated(ctx.inputs[0].options, "options").Ok?
    requires ctx.inputs[0].kind == JStr("pickString") && ctx.interactive && id !in ctx.cli
    requires !Truthy(ctx.inputs[0].default)
    ensures var options := Iterated(ctx.inputs[0].options, "options").value;
      && (PickAnswer(options, answer).Some? && PickAnswer(options, answer).value.JStr? ==>
            InputValue(ctx, [answer] + rest, id, ctx.inputs[0]) == Prompted(Ok(PickAnswer(options, answer).value.s), rest))
      && (PickAnswer(options, answer) == Some(JNull) ==>
            InputValue(ctx, [answer] + rest, id, ctx.inputs[0]) == Prompted(Raise(NoneChosen(id)), rest))
      && (PickAnswer(options, answer).Some? && !PickAnswer(options, answer).value.JStr?
          && !PickAnswer(options, answer).value.JNull? ==>
            InputValue(ctx, [answer] + rest, id, ctx.inputs[0]) == Prompted(Raise(NotAString("options")), rest))
      && (PickAnswer(options, answer).None? ==>
            InputValue(ctx, [answer] + rest, id, ctx.inputs[0]) == Prompted(Raise(NotAnOption(id)), rest))
  {
    var answers := [answer] + rest;
    assert answers[1..] == rest;
    assert ctx.inputs[1..] == [];
    assert "pickString"[1] != "promptString"[1];
    var options := Iterated(ctx.inputs[0].options, "options").value;
    var chosen := PickAnswer(options, answer);
    if chosen.Some? {
      assert Pick(ctx.inputs, id, answers, JStr("None")) == Pick([], id, rest, chosen.value);
    }
  }

  /** A pickString input whose options are None fails its `assert`, and
      options that cannot be iterated raise TypeError, before any answer is
      read. */
  lemma PickWithoutOptions(ctx: InputContext, id: string, answers: seq<string>)
    requires |ctx.inputs| == 1 && ctx.inputs[0].id == JStr(id)
    requires ctx.inputs[0].kind == JStr("pickString") && ctx.interactive && id !in ctx.cli
    requires !Truthy(ctx.inputs[0].default)
    ensures ctx.inputs[0].options.JNull? ==>
      InputValue(ctx, answers, id, ctx.inputs[0]) == Prompted(Raise(NoPickOptions(id)), answers)
    ensures !ctx.inputs[0].options.JNull? && Iterated(ctx.inputs[0].options, "options").Raise? ==>
      InputValue(ctx, answers, id, ctx.inputs[0]) == Prompted(Raise(NotIterable("options")), answers)
  {
    assert "pickString"[1] != "promptString"[1];
  }

  // ---------------------------------------------------------------------
  // Argument shaping (tasks.py:606-608, 677-701, 797-801).

  /** A character of `[a-zA-Z0-9.\-_|>/=]`. */
  predicate SafeChar(c: char) {
    ('a' <= c <= 'z') || ('A' <= c <= 'Z') || ('0' <= c <= '9')
    || c == '.' || c == '-' || c == '_' || c == '|' || c == '>' || c == '/' || c == '='
  }

  /** `__contains_special_chars`. */
  predicate HasSpecialChars(s: string) {
    exists i | 0 <= i < |s| :: !SafeChar(s[i])
  }

  function Quoted(s: string): string {
    "'" + s + "'"
  }

  /** A character a POSIX shell gives no meaning to outside quotes. */
  predicate PlainChar(c: char) {
    SafeChar(c) && c != '|' && c != '>'
  }

  /** A POSIX shell reads the word `w` as the one argument `v`: `v` written
      bare when it is non-empty and made of plain characters, or `v` in
      single quotes, inside which every character but `'` stands for
      itself. */
  predicate ReadsAs(w: string, v: string) {
    || (w == v && v != "" && forall i :: 0 <= i < |v| ==> PlainChar(v[i]))
    || (w == Quoted(v) && '\'' !in v)
  }

  /** An argument the shell needs no help with: non-empty, without `'`,
      and without the `|` and `>` the safe set lets through bare. */
  predicate Quotable(v: string) {
    v != "" && '\'' !in v && '|' !in v && '>' !in v
  }

  /** `__check_long_args` on one argument: an argument with a space reaches
      the shell as one word; any other is left to the next pass. */
  function LongArg(arg: string): (r: string)
    ensures ' ' in arg && '\'' !in arg ==> ReadsAs(r, arg)
    ensures ' ' in r <==> ' ' in arg
    ensures ' ' !in arg ==> r == arg
  {
    if ' ' in arg then Quoted(arg) else arg
  }

  /** `__quoting_special_chars` on one argument: an argument without a space
      reaches the shell as itself, quoted when it needs to be; one with a
      space was already quoted and is kept. */
  function QuoteSpecial(arg: string): (r: string)
    ensures ' ' !in arg && Quotable(arg) ==> ReadsAs(r, arg)
    ensures ' ' in arg ==> r == arg
    ensures !HasSpecialChars(arg) ==> r == arg
  {
    if HasSpecialChars(arg) && ' ' !in arg then Quoted(arg) else arg
  }

  /** The two shaping passes of `run_task`, one after the other. */
  function ShapeArgs(args: seq<string>): (r: seq<string>)
    ensures |r| == |args|
  {
    seq(|args|, i requires 0 <= i < |args| => QuoteSpecial(LongArg(args[i])))
  }

  /** An argument is quoted once exactly when it holds a character outside
      the safe set, and is left as it is otherwise. */
  lemma ShapedOnce(args: seq<string>)
    ensures forall i :: 0 <= i < |args| ==>
      ShapeArgs(args)[i] == if HasSpecialChars(args[i]) then Quoted(args[i]) else args[i]
  {
    forall i | 0 <= i < |args|
      ensures ShapeArgs(args)[i] == if HasSpecialChars(args[i]) then Quoted(args[i]) else args[i]
    {
      var a := args[i];
      if ' ' in a {
        var k :| 0 <= k < |a| && a[k] == ' ';
        assert !SafeChar(a[k]);
        assert Quoted(a)[k + 1] == ' ';
      }
    }
  }

  /** After shaping, each argument without `'`, `|` and `>` is read by the
      shell as that one argument, spaces and special characters included. */
  lemma ShapedReadsAs(args: seq<string>)
    ensures forall i :: 0 <= i < |args| && Quotable(args[i]) ==> ReadsAs(ShapeArgs(args)[i], args[i])
  {
    forall i | 0 <= i < |args| && Quotable(args[i])
      ensures ReadsAs(ShapeArgs(args)[i], args[i])
    {
      var a := args[i];
      if ' ' in a {
        assert ' ' in LongArg(a);
      }
    }
  }

  /** An argument holding `'` is quoted with the `'` left inside, so the
      shell does not read it back as the argument. */
  lemma QuoteInsideBreaks()
    ensures ShapeArgs(["it's"]) == ["'it's'"]
    ensures !ReadsAs("'it's'", "it's")
  {
    var a := "it's";
    assert !SafeChar(a[2]);
    assert HasSpecialChars(a);
    assert ' ' !in a;
    assert QuoteSpecial(LongArg(a)) == Quoted(a);
    assert Quoted(a) == "'it's'";
    assert ShapeArgs([a])[0] == Quoted(a);
    assert ShapeArgs([a]) == [Quoted(a)];
    assert a[2] == '\'';
  }

  /** `__replace_docker_host`. */
  function ReplaceDockerHost(arg: string): (r: string)
    ensures !Contains(arg, "DOCKER_HOST=") ==> r == arg
    ensures Contains(arg, "DOCKER_HOST=") ==> Contains(r, "DOCKER_HOST=tcp://docker:2375")
  {
    Unextended(arg, "DOCKER_HOST=", "DOCKER_HOST");
    if Contains(arg, "DOCKER_HOST") then
      if Contains(arg, "DOCKER_HOST=") then
        ReplaceIntroduces(arg, "DOCKER_HOST=", "DOCKER_HOST=tcp://docker:2375");
        ReplaceAll(arg, "DOCKER_HOST=", "DOCKER_HOST=tcp://docker:2375")
      else
        ReplaceAbsent(arg, "DOCKER_HOST=", "DOCKER_HOST=tcp://docker:2375");
        ReplaceAll(arg, "DOCKER_HOST=", "DOCKER_HOST=tcp://docker:2375")
    else arg
  }

  /** A command with one `DOCKER_HOST=`, after a part that holds no
      `DOCKER_HOST`, gets the address written after the `=` and is otherwise
      kept: the old value, if any, stays after the address. */
  lemma DockerHostRewritten(p: string, s: string)
    requires !Contains(p, "DOCKER_HOST") && !Contains(s, "DOCKER_HOST=")
    ensures ReplaceDockerHost(p + "DOCKER_HOST=" + s) == p + "DOCKER_HOST=tcp://docker:2375" + s
  {
    var pat := "DOCKER_HOST=";
    var rep := "DOCKER_HOST=tcp://docker:2375";
    var t := pat + s;
    var a := p + t;
    assert a == p + "DOCKER_HOST=" + s;
    assert a[|p|..|p| + |pat|] == pat;
    ContainsAt(a, pat, |p|);
    assert a[|p|..|p| + 11] == "DOCKER_HOST";
    ContainsAt(a, "DOCKER_HOST", |p|);
    forall i | 0 <= i < |p| ensures !OccursAt(a, pat, i) {
      if i + |pat| <= |a| {
        if i + 11 <= |p| {
          assert !OccursAt(p, "DOCKER_HOST", i);
          assert a[i..i + 11] == p[i..i + 11];
          assert a[i..i + |pat|][..11] == a[i..i + 11];
          assert pat[..11] == "DOCKER_HOST";
        } else {
          var k := |p| - i;
          assert a[i..i + |pat|][k] == a[|p|] == 'D';
          assert pat[k] != 'D';
        }
      }
    }
    ReplaceAfterPrefix(p, t, pat, rep);
    assert t[..|pat|] == pat && t[|pat|..] == s;
    ReplaceAbsent(s, pat, rep);
    assert ReplaceAll(t, pat, rep) == rep + s;
  }

}
