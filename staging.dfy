/** What `run_task` (tasks.py:819-926) computes from a task before it
    starts the process: the command, the arguments, the injected environment
    and the working directory, each as the order of passes the runner
    applies to it. The runner's methods are proved to compute exactly these. */
module Staging {
  import opened Text
  import opened Outcomes
  import opened Loading
  import opened Resolution
  import opened Lookaround

  /** Every variable of `before` other than `config:docker_registry` holds
      its value in `after`. */
  predicate Kept(before: Env, after: Env) {
    forall k :: k in before && k != "config:docker_registry" ==> k in after && after[k] == before[k]
  }

  lemma KeptTransitive(a: Env, b: Env, c: Env)
    requires Kept(a, b) && Kept(b, c)
    ensures Kept(a, c)
  {
  }

  /** The passes that only read the environment, in `run_task`'s order:
      workspace folders, then `${command:torizon_`, `${command:docker_` and
      `${command:tcb`. A value that is not a string raises TypeError in the
      first of them. */
  function Prepare(env: Env, tcb: Collaborators, xs: seq<Json>, field: string): (r: Result<seq<string>>)
    ensures r.Ok? ==> |xs| <= |r.value|
  {
    var w :- WorkspacePass(env, xs, field);
    var p :- Present(w);
    TcbPass(env, tcb, CommandPass("docker_", CommandPass("torizon_", p)))
  }

  /** Strings that hold no `workspaceFolder` and no `${command:` come
      through the reading passes unchanged. */
  lemma PrepareUntouched(env: Env, tcb: Collaborators, xs: seq<string>, field: string)
    requires forall i :: 0 <= i < |xs| ==> !Contains(xs[i], "workspaceFolder") && !Contains(xs[i], "${command:")
    ensures Prepare(env, tcb, Texts(xs), field) == Ok(xs)
  {
    var w := WorkspaceAllUntouched(env, xs, field);
    CommandPassesUntouched(xs);
  }

  /** The workspace pass and the None test keep such strings. */
  lemma WorkspaceAllUntouched(env: Env, xs: seq<string>, field: string) returns (w: seq<Option<string>>)
    requires forall i :: 0 <= i < |xs| ==> !Contains(xs[i], "workspaceFolder")
    ensures WorkspacePass(env, Texts(xs), field) == Ok(w) && Present(w) == Ok(xs)
  {
    forall i | 0 <= i < |xs|
      ensures WorkspaceItem(env, Texts(xs)[i], field) == Ok(Some(xs[i]))
    {
      WorkspaceUntouched(env, xs[i]);
    }
    w := WorkspacePass(env, Texts(xs), field).value;
    assert Present(w).value == xs;
  }

  /** The `${command:` passes keep strings without `${command:`. */
  lemma CommandPassesUntouched(xs: seq<string>)
    requires forall i :: 0 <= i < |xs| ==> !Contains(xs[i], "${command:")
    ensures CommandPass("docker_", CommandPass("torizon_", xs)) == xs
    ensures forall i :: 0 <= i < |xs| ==> !Contains(xs[i], "${command:tcb")
  {
    forall i | 0 <= i < |xs|
      ensures !Contains(xs[i], "${command:torizon_") && !Contains(xs[i], "${command:docker_")
      ensures !Contains(xs[i], "${command:tcb")
    {
      Unextended(xs[i], "${command:torizon_", "${command:");
      Unextended(xs[i], "${command:docker_", "${command:");
      Unextended(xs[i], "${command:tcb", "${command:");
    }
    assert "${command:" + "torizon_" == "${command:torizon_" && "${command:" + "docker_" == "${command:docker_";
    assert CommandPass("torizon_", xs) == xs;
  }

  /** What resolving a value leaves behind: its outcome, the environment
      (where `${config:docker_registry}` may have set the default registry)
      and the lines of stdin not yet read. */
  datatype Resolved<T> = Resolved(result: Result<T>, env: Env, answers: seq<string>)

  /** `__parse_envs` on the value `dict.get(name)` found: a falsy value
      gives None; a truthy one goes through workspace folders and the
      `${command:` passes, `${input:`, then `${config:`, the pieces joined
      by spaces. `${env:` is not resolved here. */
  function EnvValue(env: Env, tcb: Collaborators, ctx: InputContext, answers: seq<string>, value: Json)
    : (r: Resolved<Option<string>>)
    ensures r.env.Keys == env.Keys && Kept(env, r.env)
    ensures |r.answers| <= |answers|
    ensures !Truthy(value) ==> r == Resolved(Ok(None), env, answers)
    ensures Truthy(value) && !value.JStr? ==> r == Resolved(Raise(NotAString("env")), env, answers)
  {
    if !Truthy(value) then Resolved(Ok(None), env, answers)
    else
      var prepared := Prepare(env, tcb, [value], "env");
      if prepared.Raise? then Resolved(Raise(prepared.error), env, answers)
      else
        var answered := InputPass(ctx, answers, prepared.value);
        if answered.result.Raise? then Resolved(Raise(answered.result.error), env, answered.answers)
        else
          var configured := ConfigPass(env, answered.result.value);
          if configured.result.Raise? then Resolved(Raise(configured.result.error), configured.env, answered.answers)
          else Resolved(Ok(Some(Join(configured.result.value, " "))), configured.env, answered.answers)
  }

  /** A task's command: the reading passes keep only their first entry,
      then `${input:`, `${env:` and `${config:`. */
  function CommandValue(env: Env, tcb: Collaborators, ctx: InputContext, answers: seq<string>, command: Json)
    : (r: Resolved<string>)
    ensures r.env.Keys == env.Keys && Kept(env, r.env)
    ensures |r.answers| <= |answers|
    ensures !command.JStr? ==> r == Resolved(Raise(NotAString("command")), env, answers)
  {
    var prepared := Prepare(env, tcb, [command], "command");
    if prepared.Raise? then Resolved(Raise(prepared.error), env, answers)
    else
      var answered := InputPass(ctx, answers, [prepared.value[0]]);
      if answered.result.Raise? then Resolved(Raise(answered.result.error), env, answered.answers)
      else
        var substituted := EnvPass(env, answered.result.value);
        if substituted.Raise? then Resolved(Raise(substituted.error), env, answered.answers)
        else
          var configured := ConfigPass(env, substituted.value);
          if configured.result.Raise? then Resolved(Raise(configured.result.error), configured.env, answered.answers)
          else Resolved(Ok(configured.result.value[0]), configured.env, answered.answers)
  }

  /** The arguments `run_task` iterates: none for None, else whatever
      iterating the loaded value gives. */
  function ArgItems(args: Json): (r: Result<seq<Json>>)
    ensures args.JNull? ==> r == Ok([])
    ensures !args.JNull? ==> r == Iterated(args, "args")
  {
    if args.JNull? then Ok([]) else Iterated(args, "args")
  }

  /** The arguments `run_task` iterates, through every pass in the same
      order as the command, then the quoting of long arguments and of
      special characters. */
  function ArgsFrom(env: Env, tcb: Collaborators, ctx: InputContext, answers: seq<string>, items: seq<Json>)
    : (r: Resolved<seq<string>>)
    ensures r.env.Keys == env.Keys && Kept(env, r.env)
    ensures |r.answers| <= |answers|
    ensures r.result.Ok? ==> |items| <= |r.result.value|
  {
    var prepared := Prepare(env, tcb, items, "args");
    if prepared.Raise? then Resolved(Raise(prepared.error), env, answers)
    else
      var answered := InputPass(ctx, answers, prepared.value);
      if answered.result.Raise? then Resolved(Raise(answered.result.error), env, answered.answers)
      else
        var substituted := EnvPass(env, answered.result.value);
        if substituted.Raise? then Resolved(Raise(substituted.error), env, answered.answers)
        else
          var configured := ConfigPass(env, substituted.value);
          if configured.result.Raise? then Resolved(Raise(configured.result.error), configured.env, answered.answers)
          else Resolved(Ok(ShapeArgs(configured.result.value)), configured.env, answered.answers)
  }

  /** A task's arguments: None gives none, and a value that cannot be
      iterated raises TypeError in the first pass. */
  function ArgsValue(env: Env, tcb: Collaborators, ctx: InputContext, answers: seq<string>, args: Json)
    : (r: Resolved<seq<string>>)
    ensures r.env.Keys == env.Keys && Kept(env, r.env)
    ensures |r.answers| <= |answers|
    ensures args.JNull? ==> r == Resolved(Ok([]), env, answers)
    ensures ArgItems(args).Raise? ==> r == Resolved(Raise(NotIterable("args")), env, answers)
    ensures ArgItems(args).Ok? ==> r == ArgsFrom(env, tcb, ctx, answers, ArgItems(args).value)
  {
    var items := ArgItems(args);
    if items.Raise? then Resolved(Raise(items.error), env, answers)
    else ArgsFrom(env, tcb, ctx, answers, items.value)
  }

  /** A task's `cwd`: workspace folders, `${config:`, then `${env:` read
      from the environment `${config:` left. */
  function CwdValue(env: Env, path: Json): (r: Configured<string>)
    ensures r.env.Keys == env.Keys && Kept(env, r.env)
    ensures !path.JStr? ==> r == Configured(Raise(NotAString("cwd")), env)
  {
    var w := WorkspacePass(env, [path], "cwd");
    if w.Raise? then Configured(Raise(w.error), env)
    else
      var p := Present(w.value);
      if p.Raise? then Configured(Raise(p.error), env)
      else
        var c := ConfigPass(env, p.value);
        if c.result.Raise? then Configured(Raise(c.result.error), c.env)
        else
          var e := EnvPass(c.env, c.result.value);
          if e.Raise? then Configured(Raise(e.error), c.env)
          else Configured(Ok(e.value[0]), c.env)
  }

  /** The loop of `run_task` over the task's `env` dict, from key `i` on:
      a key is parsed when `override` is set or it is not yet in the
      environment, and a non-empty value is written. */
  function Injected(override: bool, tcb: Collaborators, ctx: InputContext, env: Env, answers: seq<string>,
                    d: Dict, i: nat): (r: Resolved<()>)
    requires i <= |d.keys|
    ensures env.Keys <= r.env.Keys
    ensures !override ==> Kept(env, r.env)
    ensures |r.answers| <= |answers|
    decreases |d.keys| - i
  {
    if i == |d.keys| then Resolved(Ok(()), env, answers)
    else
      var name := d.keys[i];
      if override || name !in env then
        var parsed := EnvValue(env, tcb, ctx, answers, Lookup(d, name));
        if parsed.result.Raise? then Resolved(Raise(parsed.result.error), parsed.env, parsed.answers)
        else
          var written := if parsed.result.value.Some? && parsed.result.value.value != ""
                         then parsed.env[name := parsed.result.value.value] else parsed.env;
          Injected(override, tcb, ctx, written, parsed.answers, d, i + 1)
      else Injected(override, tcb, ctx, env, answers, d, i + 1)
  }

  /** A value that holds no `$` and no `workspaceFolder` refers to nothing. */
  predicate Plain(x: string) {
    !Contains(x, "$") && !Contains(x, "workspaceFolder")
  }

  lemma PlainHasNoReference(x: string)
    requires Plain(x)
    ensures !Contains(x, "${command:") && !Contains(x, "${input:")
    ensures !Contains(x, "${env:") && !Contains(x, "${config:")
  {
    Unextended(x, "${command:", "$");
    Unextended(x, "${input:", "$");
    Unextended(x, "${env:", "$");
    Unextended(x, "${config:", "$");
  }

  /** A plain command is run as written, and nothing is read or changed. */
  lemma CommandUntouched(env: Env, tcb: Collaborators, ctx: InputContext, answers: seq<string>, command: string)
    requires Plain(command)
    ensures CommandValue(env, tcb, ctx, answers, JStr(command)) == Resolved(Ok(command), env, answers)
  {
    PlainHasNoReference(command);
    PrepareUntouched(env, tcb, [command], "command");
    assert Texts([command]) == [JStr(command)];
  }

  /** A list of plain arguments only goes through the quoting passes. */
  lemma ArgsUntouched(env: Env, tcb: Collaborators, ctx: InputContext, answers: seq<string>, args: seq<string>)
    requires forall i :: 0 <= i < |args| ==> Plain(args[i])
    ensures ArgsValue(env, tcb, ctx, answers, JArray(Texts(args))) == Resolved(Ok(ShapeArgs(args)), env, answers)
  {
    forall i | 0 <= i < |args|
      ensures !Contains(args[i], "workspaceFolder") && !Contains(args[i], "${command:")
      ensures !Contains(args[i], "${input:") && !Contains(args[i], "${env:") && !Contains(args[i], "${config:")
    {
      PlainHasNoReference(args[i]);
    }
    PrepareUntouched(env, tcb, args, "args");
    assert InputPass(ctx, answers, args) == Prompted(Ok(args), answers);
    var substituted := EnvPass(env, args);
    assert substituted.value == args;
    assert ConfigPass(env, args) == Configured(Ok(args), env);
  }

  /** A plain, non-empty `env` value of a task is injected as written. */
  lemma EnvValueUntouched(env: Env, tcb: Collaborators, ctx: InputContext, answers: seq<string>, v: string)
    requires Plain(v) && v != ""
    ensures EnvValue(env, tcb, ctx, answers, JStr(v)) == Resolved(Ok(Some(v)), env, answers)
  {
    PlainHasNoReference(v);
    PrepareUntouched(env, tcb, [v], "env");
    assert Texts([v]) == [JStr(v)];
  }

  /** `${env:NAME}` holds no other kind of reference. */
  lemma EnvReferenceHoldsNoOther(n: string)
    requires RefName(n)
    ensures var v := "${env:" + n + "}";
      !Contains(v, "${command:") && !Contains(v, "${input:") && !Contains(v, "${config:")
  {
    var v := "${env:" + n + "}";
    forall j | 1 <= j < |v| ensures v[j] != '$' {
      if 6 <= j < 6 + |n| { assert v[j] == n[j - 6]; }
    }
    assert v[2] != "${command:"[2] && v[2] != "${input:"[2] && v[2] != "${config:"[2];
    SingleDollar(v, "${command:");
    SingleDollar(v, "${input:");
    SingleDollar(v, "${config:");
  }

  /** An `env` value of a task is not given the `${env:` pass: a value that
      is one `${env:NAME}` reference is injected as the reference itself,
      whether or not NAME is set. */
  lemma EnvReferenceInjectedLiterally(env: Env, tcb: Collaborators, ctx: InputContext, answers: seq<string>, n: string)
    requires RefName(n) && !Contains("${env:" + n + "}", "workspaceFolder")
    ensures EnvValue(env, tcb, ctx, answers, JStr("${env:" + n + "}"))
         == Resolved(Ok(Some("${env:" + n + "}")), env, answers)
  {
    var v := "${env:" + n + "}";
    EnvReferenceHoldsNoOther(n);
    PrepareUntouched(env, tcb, [v], "env");
    assert Texts([v]) == [JStr(v)];
    assert InputPass(ctx, answers, [v]) == Prompted(Ok([v]), answers);
    assert ConfigPass(env, [v]) == Configured(Ok([v]), env);
  }

  /** A plain `cwd` is entered as written. */
  lemma CwdUntouched(env: Env, path: string)
    requires Plain(path)
    ensures CwdValue(env, JStr(path)) == Configured(Ok(path), env)
  {
    PlainHasNoReference(path);
    WorkspaceUntouched(env, path);
    var w := WorkspacePass(env, [JStr(path)], "cwd");
    assert w.value == [Some(path)];
  }

  /** The keys from `i` on write only their own names, besides the
      registry default `${config:` may set. */
  lemma {:induction false} InjectedKeeps(override: bool, tcb: Collaborators, ctx: InputContext, env: Env,
                                         answers: seq<string>, d: Dict, i: nat, k: string)
    requires i <= |d.keys| && k in env && k != "config:docker_registry"
    requires forall j :: i <= j < |d.keys| ==> d.keys[j] != k
    ensures Injected(override, tcb, ctx, env, answers, d, i).env[k] == env[k]
    decreases |d.keys| - i
  {
    if i < |d.keys| {
      var name := d.keys[i];
      if override || name !in env {
        var parsed := EnvValue(env, tcb, ctx, answers, Lookup(d, name));
        if parsed.result.Ok? {
          var written := if parsed.result.value.Some? && parsed.result.value.value != ""
                         then parsed.env[name := parsed.result.value.value] else parsed.env;
          InjectedKeeps(override, tcb, ctx, written, parsed.answers, d, i + 1, k);
        }
      } else {
        InjectedKeeps(override, tcb, ctx, env, answers, d, i + 1, k);
      }
    }
  }

  /** In a dict, whose keys are distinct, a key parsed to a non-empty value
      keeps that value to the end of the loop: always when `override` is
      set, and otherwise when it was not yet in the environment. */
  lemma InjectedWrites(override: bool, tcb: Collaborators, ctx: InputContext, env: Env,
                       answers: seq<string>, d: Dict, i: nat, v: string)
    requires ValidDict(d) && i < |d.keys| && d.keys[i] != "config:docker_registry"
    requires override || d.keys[i] !in env
    requires EnvValue(env, tcb, ctx, answers, Lookup(d, d.keys[i])).result == Ok(Some(v)) && v != ""
    ensures Injected(override, tcb, ctx, env, answers, d, i).env[d.keys[i]] == v
  {
    var name := d.keys[i];
    var parsed := EnvValue(env, tcb, ctx, answers, Lookup(d, name));
    InjectedKeeps(override, tcb, ctx, parsed.env[name := v], parsed.answers, d, i + 1, name);
  }

  // ---------------------------------------------------------------------
  // The process start.

  /** What `subprocess.run` receives: an argument vector, or one command
      line for the shell. */
  datatype LaunchForm = Exec(argv: seq<string>) | Shell(line: string)

  /** The shell command line: the command, the arguments joined by spaces,
      and ` &` for a background task. */
  function CommandLine(cmd: string, args: seq<string>, background: bool): (r: string)
    ensures IsPrefix(cmd + " ", r)
  {
    var r := cmd + " " + Join(args, " ") + (if background then " &" else "");
    assert r[..|cmd + " "|] == cmd + " ";
    r
  }

  /** `[_cmd, *_args] if not _shell else _cmd_join`: only a task whose
      `type` is the string "shell" is started through the shell. */
  function FormOf(task: TaskDescription, cmd: string, args: seq<string>): (r: LaunchForm)
    ensures r.Shell? <==> task.kind == JStr("shell")
    ensures r.Exec? ==> r.argv == [cmd] + args
    ensures r.Shell? ==> r.line == CommandLine(cmd, args, task.isBackground)
  {
    if task.kind == JStr("shell") then Shell(CommandLine(cmd, args, task.isBackground)) else Exec([cmd] + args)
  }

  /** The launch runs the command `cmd`: as the program of the argument
      vector, or as the first word of the shell line. */
  predicate Runs(form: LaunchForm, cmd: string) {
    match form
    case Exec(argv) => |argv| > 0 && argv[0] == cmd
    case Shell(line) => IsPrefix(cmd + " ", line)
  }

  /** What the part of `run_task` after the dependencies leaves: the form the
      process is started in (or the error raised first), the environment,
      the lines of stdin not yet read and the working directory. */
  datatype StageOutcome = StageOutcome(result: Result<LaunchForm>, env: Env, answers: seq<string>, cwd: string)

  /** The command after the GitLab CI rewrite. */
  function Hosted(gitlabCi: bool, command: string): string {
    if gitlabCi then ReplaceDockerHost(command) else command
  }

  /** The part of `run_task` between the dependencies and the process start,
      for a task whose command resolved to `command` and whose `options`
      are `opts`: the arguments, the GitLab rewrite, the `env` injection,
      then the `cwd`, entered with `chdir`. */
  function Staged(gitlabCi: bool, override: bool, tcb: Collaborators, chdir: (string, string) -> Option<string>,
                  ctx: InputContext, env: Env, answers: seq<string>, cwd: string,
                  task: TaskDescription, command: string, opts: Option<CommandOptions>): (r: StageOutcome)
    ensures env.Keys <= r.env.Keys
    ensures !override ==> Kept(env, r.env)
    ensures |r.answers| <= |answers|
    ensures r.result.Raise? ==> r.cwd == cwd
    ensures r.result.Ok? ==> Runs(r.result.value, Hosted(gitlabCi, command))
    ensures r.result.Ok? ==> (r.result.value.Shell? <==> task.kind == JStr("shell"))
    ensures r.result.Ok? ==>
      && ArgsValue(env, tcb, ctx, answers, task.args).result.Ok?
      && r.result.value == FormOf(task, Hosted(gitlabCi, command), ArgsValue(env, tcb, ctx, answers, task.args).result.value)
    ensures r.result.Ok? && (opts.None? || opts.value.cwd.JNull?) ==> r.cwd == cwd
  {
    var args := ArgsValue(env, tcb, ctx, answers, task.args);
    if args.result.Raise? then StageOutcome(Raise(args.result.error), args.env, args.answers, cwd)
    else
      var cmd := Hosted(gitlabCi, command);
      var form := FormOf(task, cmd, args.result.value);
      assert Runs(form, cmd);
      StagedRest(override, tcb, chdir, ctx, args.env, args.answers, cwd, form, opts)
  }

  /** The staging once the arguments are resolved and the form is known:
      the `env` injection, then the `cwd`. */
  function StagedRest(override: bool, tcb: Collaborators, chdir: (string, string) -> Option<string>,
                      ctx: InputContext, env: Env, answers: seq<string>, cwd: string,
                      form: LaunchForm, opts: Option<CommandOptions>): (r: StageOutcome)
    ensures env.Keys <= r.env.Keys
    ensures !override ==> Kept(env, r.env)
    ensures |r.answers| <= |answers|
    ensures r.result.Raise? ==> r.cwd == cwd
    ensures r.result.Ok? ==> r.result.value == form
    ensures r.result.Ok? && (opts.None? || opts.value.cwd.JNull?) ==> r.cwd == cwd
  {
    var vars := if opts.Some? then opts.value.env else JNull;
    var injected :=
      if vars.JNull? then Resolved(Ok(()), env, answers)
      else if !vars.JObject? then Resolved(Raise(NotAnObject("env")), env, answers)
      else if !ValidDict(vars.obj) then Resolved(Raise(IllTyped("env")), env, answers)
      else Injected(override, tcb, ctx, env, answers, vars.obj, 0);
    if injected.result.Raise? then StageOutcome(Raise(injected.result.error), injected.env, injected.answers, cwd)
    else
      var dir := if opts.Some? then opts.value.cwd else JNull;
      if dir.JNull? then StageOutcome(Ok(form), injected.env, injected.answers, cwd)
      else
        var path := CwdValue(injected.env, dir);
        if path.result.Raise? then StageOutcome(Raise(path.result.error), path.env, injected.answers, cwd)
        else
          var entered := chdir(cwd, path.result.value);
          if entered.None? then StageOutcome(Raise(ChdirFailed(path.result.value)), path.env, injected.answers, cwd)
          else StageOutcome(Ok(form), path.env, injected.answers, entered.value)
  }


  /** A task without `options` whose arguments are plain strings is started
      with those arguments, only quoted, and changes nothing. */
  lemma StagedPlain(gitlabCi: bool, override: bool, tcb: Collaborators, chdir: (string, string) -> Option<string>,
                    ctx: InputContext, env: Env, answers: seq<string>, cwd: string,
                    task: TaskDescription, command: string, args: seq<string>)
    requires task.args == JArray(Texts(args)) && forall i :: 0 <= i < |args| ==> Plain(args[i])
    ensures Staged(gitlabCi, override, tcb, chdir, ctx, env, answers, cwd, task, command, None)
      == StageOutcome(Ok(FormOf(task, Hosted(gitlabCi, command), ShapeArgs(args))), env, answers, cwd)
  {
    ArgsUntouched(env, tcb, ctx, answers, args);
  }

  /** A task whose `env` is not a dict raises AttributeError before any
      variable is set or any directory entered. */
  lemma StagedEnvNotADict(gitlabCi: bool, override: bool, tcb: Collaborators, chdir: (string, string) -> Option<string>,
                          ctx: InputContext, env: Env, answers: seq<string>, cwd: string,
                          task: TaskDescription, command: string, opts: CommandOptions)
    requires ArgsValue(env, tcb, ctx, answers, task.args).result.Ok?
    requires !opts.env.JNull? && !opts.env.JObject?
    ensures var args := ArgsValue(env, tcb, ctx, answers, task.args);
      Staged(gitlabCi, override, tcb, chdir, ctx, env, answers, cwd, task, command, Some(opts))
        == StageOutcome(Raise(NotAnObject("env")), args.env, args.answers, cwd)
  {
  }
}
