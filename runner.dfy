/** TaskRunner (tasks.py:413-934): runs the tasks of a `.vscode/tasks.json`
    as VS Code would, resolving the variable references in the command, the
    arguments, the environment and the working directory of each task, and
    running its dependencies first. The process environment, the working
    directory, the lines left on stdin and the processes started are fields
    of the runner. */
module Runner {
  import opened Text
  import opened Outcomes
  import opened Loading
  import opened Lookaround
  import opened Resolution
  import opened Staging
  import Seeding

  /** How the `k`-th process the runner starts ends. */
  datatype LaunchStatus = Exited(code: int) | SpawnError

  /** The outside world the runner consults: the tcb collaborators, what
      `os.chdir(path)` does from a directory (the new directory, or None when
      it raises), and how each started process ends. */
  datatype System = System(
    tcb: Collaborators,
    chdir: (string, string) -> Option<string>,
    status: nat -> LaunchStatus)

  /** A process start for the task whose label is `taskLabel`, with the
      environment and directory it inherits. */
  datatype Launch = Launch(taskLabel: Json, form: LaunchForm, env: Env, cwd: string)

  function LaunchLabels(ls: seq<Launch>): (r: seq<Json>)
    ensures |r| == |ls| && forall i :: 0 <= i < |ls| ==> r[i] == ls[i].taskLabel
  {
    seq(|ls|, i requires 0 <= i < |ls| => ls[i].taskLabel)
  }

  lemma LaunchLabelsSplit(ls: seq<Launch>, a: nat, b: nat)
    requires a <= b <= |ls|
    ensures LaunchLabels(ls[a..]) == LaunchLabels(ls[a..b]) + LaunchLabels(ls[b..])
  {
  }

  /** The labels of the launches after position `o` once more processes
      were started. */
  lemma LabelsExtend(before: seq<Launch>, after: seq<Launch>, o: nat)
    requires o <= |before| && IsPrefix(before, after)
    ensures LaunchLabels(after[o..]) == LaunchLabels(before[o..]) + LaunchLabels(after[|before|..])
  {
    LaunchLabelsSplit(after, o, |before|);
    assert after[o..|before|] == before[o..];
  }

  lemma PrefixTrans<T>(a: seq<T>, b: seq<T>, c: seq<T>)
    requires IsPrefix(a, b) && IsPrefix(b, c)
    ensures IsPrefix(a, c)
  {
    assert c[..|a|] == c[..|b|][..|a|];
  }

  lemma PrefixAppend<T>(a: seq<T>, b: seq<T>, c: seq<T>)
    requires IsPrefix(b, c)
    ensures IsPrefix(a + b, a + c)
  {
    assert (a + c)[..|a + b|] == a + c[..|b|];
  }

  lemma PrefixOfAppend<T>(a: seq<T>, b: seq<T>)
    ensures IsPrefix(a, a + b)
  {
    assert (a + b)[..|a|] == a;
  }

  /** `next(task for task in tasks if task.label == label)`: the first task
      with that label. */
  function FindTask(tasks: seq<TaskDescription>, wanted: Json): (r: Option<TaskDescription>)
    ensures r.Some? ==> r.value.taskLabel == wanted
  {
    if tasks == [] then None
    else if tasks[0].taskLabel == wanted then Some(tasks[0])
    else FindTask(tasks[1..], wanted)
  }

  /** The task found is the first with the label, and none is found only
      when no task has it. */
  lemma {:induction false} FindTaskFirst(tasks: seq<TaskDescription>, wanted: Json)
    ensures FindTask(tasks, wanted).Some? ==>
      exists k :: 0 <= k < |tasks| && tasks[k] == FindTask(tasks, wanted).value
                  && forall j :: 0 <= j < k ==> tasks[j].taskLabel != wanted
    ensures FindTask(tasks, wanted).None? ==> forall i :: 0 <= i < |tasks| ==> tasks[i].taskLabel != wanted
  {
    if tasks != [] && tasks[0].taskLabel != wanted {
      FindTaskFirst(tasks[1..], wanted);
      var r := FindTask(tasks[1..], wanted);
      if r.Some? {
        var k :| 0 <= k < |tasks[1..]| && tasks[1..][k] == r.value
                 && forall j :: 0 <= j < k ==> tasks[1..][j].taskLabel != wanted;
        assert tasks[k + 1] == r.value;
        forall j | 0 <= j < k + 1
          ensures tasks[j].taskLabel != wanted
        {
          if j > 0 {
            assert tasks[j] == tasks[1..][j - 1];
          }
        }
      } else {
        forall i | 0 <= i < |tasks|
          ensures tasks[i].taskLabel != wanted
        {
          if i > 0 {
            assert tasks[i] == tasks[1..][i - 1];
          }
        }
      }
    } else if tasks != [] {
      assert tasks[0] == FindTask(tasks, wanted).value;
    }
  }

  /** `for dep in _depends`, where `_depends` is the task's `dependsOn`, or
      no dependency for None: what iterating it gives, or TypeError. */
  function Deps(task: TaskDescription): (r: Result<seq<Json>>)
    ensures task.dependsOn.JNull? ==> r == Ok([])
    ensures !task.dependsOn.JNull? ==> r == Iterated(task.dependsOn, "dependsOn")
  {
    if task.dependsOn.JNull? then Ok([]) else Iterated(task.dependsOn, "dependsOn")
  }

  /** `list_labels`: the indices of the tasks printed, in order. */
  function Shown(tasks: seq<TaskDescription>, showHidden: bool, n: nat): (r: seq<nat>)
    requires n <= |tasks|
    ensures forall j :: 0 <= j < |r| ==> r[j] < n
  {
    if n == 0 then []
    else Shown(tasks, showHidden, n - 1) + (if showHidden || !tasks[n - 1].hide then [n - 1] else [])
  }

  /** The tasks printed are the visible ones, or all with `show_hidden`,
      each once and in file order. */
  lemma {:induction false} ShownMeaning(tasks: seq<TaskDescription>, showHidden: bool, n: nat)
    requires n <= |tasks|
    ensures forall j :: 0 <= j < |Shown(tasks, showHidden, n)| ==> showHidden || !tasks[Shown(tasks, showHidden, n)[j]].hide
    ensures forall i :: 0 <= i < n && (showHidden || !tasks[i].hide) ==> i in Shown(tasks, showHidden, n)
    ensures forall j, k :: 0 <= j < k < |Shown(tasks, showHidden, n)| ==> Shown(tasks, showHidden, n)[j] < Shown(tasks, showHidden, n)[k]
  {
    if n > 0 {
      ShownMeaning(tasks, showHidden, n - 1);
    }
  }

  function ShownLines(tasks: seq<TaskDescription>, shown: seq<nat>, noIndex: bool): (r: seq<string>)
    requires forall j :: 0 <= j < |shown| ==> shown[j] < |tasks|
  {
    seq(|shown|, j requires 0 <= j < |shown| => LabelLine(tasks, shown[j], noIndex))
  }

  lemma ShownStep(tasks: seq<TaskDescription>, showHidden: bool, noIndex: bool, n: nat)
    requires n < |tasks|
    ensures ShownLines(tasks, Shown(tasks, showHidden, n + 1), noIndex)
      == ShownLines(tasks, Shown(tasks, showHidden, n), noIndex)
         + (if showHidden || !tasks[n].hide then [LabelLine(tasks, n, noIndex)] else [])
  {
    var before := Shown(tasks, showHidden, n);
    var after := Shown(tasks, showHidden, n + 1);
    assert after == before + (if showHidden || !tasks[n].hide then [n] else []);
  }

  /** The line printed for task `i`, its label formatted with `str`; the
      index counts hidden tasks too. */
  function LabelLine(tasks: seq<TaskDescription>, i: nat, noIndex: bool): string
    requires i < |tasks|
  {
    var text := Seeding.PyStr(tasks[i].taskLabel);
    if noIndex then text else NatToDecimal(i) + ". \t" + text
  }

  /** The dependency tree under the task `wanted` is at most `depth` calls
      deep: every task on it exists, its `dependsOn` can be iterated, and
      its dependencies are one level shallower. */
  predicate WithinDepth(tasks: seq<TaskDescription>, wanted: Json, depth: nat)
    decreases depth
  {
    && depth > 0
    && FindTask(tasks, wanted).Some?
    && Deps(FindTask(tasks, wanted).value).Ok?
    && var deps := Deps(FindTask(tasks, wanted).value).value;
       forall j :: 0 <= j < |deps| ==> WithinDepth(tasks, deps[j], depth - 1)
  }

  /** The labels of the processes `run_task(wanted)` starts when none of
      them fails: those of each dependency in listed order, each to
      completion and with no deduplication, then the task itself. Where
      the tree is not within `depth`, the order stops at the branch that
      raises before starting anything. */
  function RunOrder(tasks: seq<TaskDescription>, wanted: Json, depth: nat): seq<Json>
    decreases depth, 0
  {
    if depth == 0 then []
    else
      var found := FindTask(tasks, wanted);
      if found.None? then []
      else
        var deps := Deps(found.value);
        if deps.Raise? then []
        else DepsOrder(tasks, deps.value, |deps.value|, depth - 1) + [wanted]
  }

  /** The processes the first `k` dependencies start. */
  function DepsOrder(tasks: seq<TaskDescription>, deps: seq<Json>, k: nat, depth: nat): seq<Json>
    requires k <= |deps|
    decreases depth, k
  {
    if k == 0 then [] else DepsOrder(tasks, deps, k - 1, depth) + RunOrder(tasks, deps[k - 1], depth)
  }

  /** Running more dependencies only adds processes at the end. */
  lemma {:induction false} DepsOrderGrows(tasks: seq<TaskDescription>, deps: seq<Json>, k: nat, m: nat, depth: nat)
    requires k <= m <= |deps|
    ensures IsPrefix(DepsOrder(tasks, deps, k, depth), DepsOrder(tasks, deps, m, depth))
    decreases m
  {
    if k < m {
      DepsOrderGrows(tasks, deps, k, m - 1, depth);
      PrefixOfAppend(DepsOrder(tasks, deps, m - 1, depth), RunOrder(tasks, deps[m - 1], depth));
      PrefixTrans(DepsOrder(tasks, deps, k, depth), DepsOrder(tasks, deps, m - 1, depth), DepsOrder(tasks, deps, m, depth));
    } else {
      PrefixOfAppend(DepsOrder(tasks, deps, k, depth), []);
    }
  }

  /** One level of `RunOrder` and `WithinDepth` for a task that is found. */
  lemma RunOrderOf(tasks: seq<TaskDescription>, wanted: Json, depth: nat, task: TaskDescription)
    requires depth > 0 && FindTask(tasks, wanted) == Some(task)
    ensures Deps(task).Raise? ==> RunOrder(tasks, wanted, depth) == [] && !WithinDepth(tasks, wanted, depth)
    ensures Deps(task).Ok? ==>
      var deps := Deps(task).value;
      && RunOrder(tasks, wanted, depth) == DepsOrder(tasks, deps, |deps|, depth - 1) + [wanted]
      && (WithinDepth(tasks, wanted, depth) <==> forall j :: 0 <= j < |deps| ==> WithinDepth(tasks, deps[j], depth - 1))
  {
  }

  /** What running tasks does to the environment and to stdin: the
      environment keeps its keys and, unless overriding, its values (only
      `config:docker_registry` may be defaulted), and stdin is only
      consumed. */
  predicate Grown(override: bool, env0: Env, env1: Env, answers0: seq<string>, answers1: seq<string>) {
    && env0.Keys <= env1.Keys
    && (!override ==> Kept(env0, env1))
    && |answers1| <= |answers0|
  }

  lemma GrownTrans(override: bool, env0: Env, env1: Env, env2: Env, a0: seq<string>, a1: seq<string>, a2: seq<string>)
    requires Grown(override, env0, env1, a0, a1) && Grown(override, env1, env2, a1, a2)
    ensures Grown(override, env0, env2, a0, a2)
  {
    if !override {
      KeptTransitive(env0, env1, env2);
    }
  }

  /** The task's own process: labelled `wanted`, running `cmd`, through
      the shell exactly when `shell`. */
  predicate Own(l: Launch, wanted: Json, cmd: string, shell: bool) {
    && l.taskLabel == wanted
    && Runs(l.form, cmd)
    && (l.form.Shell? <==> shell)
  }

  /** The processes a run started, `after[|before|..]`, against the order
      `order` a successful run starts: their labels are a prefix of it and
      every one but the last exited with 0 (the run stops at the first
      failure); when the run succeeded they are exactly `order`, all exited
      with 0. */
  predicate Ran(status: nat -> LaunchStatus, before: seq<Launch>, after: seq<Launch>, order: seq<Json>, ok: bool) {
    && IsPrefix(before, after)
    && IsPrefix(LaunchLabels(after[|before|..]), order)
    && (forall n :: |before| <= n < |after| - 1 ==> status(n) == Exited(0))
    && (ok ==> LaunchLabels(after[|before|..]) == order)
    && (ok ==> forall n :: |before| <= n < |after| ==> status(n) == Exited(0))
  }

  /** Nothing started. */
  lemma RanNothing(status: nat -> LaunchStatus, before: seq<Launch>, order: seq<Json>)
    ensures Ran(status, before, before, order, false)
  {
    assert before[|before|..] == [];
  }

  /** A run that succeeded, then another: together they started the two
      orders one after the other. */
  lemma RanThen(status: nat -> LaunchStatus, l0: seq<Launch>, l1: seq<Launch>, l2: seq<Launch>,
                a: seq<Json>, b: seq<Json>, ok: bool)
    requires Ran(status, l0, l1, a, true) && Ran(status, l1, l2, b, ok)
    ensures Ran(status, l0, l2, a + b, ok)
  {
    PrefixTrans(l0, l1, l2);
    LabelsExtend(l1, l2, |l0|);
    PrefixAppend(a, LaunchLabels(l2[|l1|..]), b);
  }

  /** A run that stopped part way through a prefix of a longer order. */
  lemma RanWithin(status: nat -> LaunchStatus, l0: seq<Launch>, l1: seq<Launch>, a: seq<Json>, b: seq<Json>)
    requires Ran(status, l0, l1, a, false) && IsPrefix(a, b)
    ensures Ran(status, l0, l1, b, false)
  {
    PrefixTrans(LaunchLabels(l1[|l0|..]), a, b);
  }

  /** The task's own process after its dependencies, which all succeeded. */
  lemma RanOwn(status: nat -> LaunchStatus, l0: seq<Launch>, l1: seq<Launch>, l2: seq<Launch>,
               done: seq<Json>, wanted: Json, ok: bool)
    requires Ran(status, l0, l1, done, true)
    requires IsPrefix(l1, l2) && |l2| <= |l1| + 1
    requires |l2| == |l1| + 1 ==> l2[|l1|].taskLabel == wanted
    requires ok ==> |l2| == |l1| + 1 && status(|l1|) == Exited(0)
    ensures Ran(status, l0, l2, done + [wanted], ok)
  {
    if |l2| == |l1| {
      assert l2 == l1;
      assert l2[|l1|..] == [];
      assert Ran(status, l1, l2, [wanted], false);
      RanThen(status, l0, l1, l2, done, [wanted], false);
    } else {
      assert LaunchLabels(l2[|l1|..]) == [wanted];
      assert Ran(status, l1, l2, [wanted], ok);
      RanThen(status, l0, l1, l2, done, [wanted], ok);
    }
  }

  /** A task that depends on itself is never within any depth: `run_task`
      recurses until RecursionError. */
  lemma {:induction false} SelfDependentUnbounded(tasks: seq<TaskDescription>, wanted: Json, depth: nat)
    requires FindTask(tasks, wanted).Some? && Deps(FindTask(tasks, wanted).value).Ok?
    requires wanted in Deps(FindTask(tasks, wanted).value).value
    ensures !WithinDepth(tasks, wanted, depth)
    decreases depth
  {
    if depth > 0 {
      var deps := Deps(FindTask(tasks, wanted).value).value;
      var j :| 0 <= j < |deps| && deps[j] == wanted;
      SelfDependentUnbounded(tasks, wanted, depth - 1);
    }
  }

  class TaskRunner {
    const tasks: seq<TaskDescription>
    const inputs: seq<InputOptions>
    const settings: TorizonSettings
    const system: System
    const debug: bool
    const gitlabCi: bool
    const overrideEnv: bool
    const canReceiveInteractiveInput: bool

    var cliInputs: map<string, string>
    var env: Env                     // os.environ
    var cwd: string                  // os.getcwd()
    var answers: seq<string>         // the lines stdin still holds
    var launches: seq<Launch>        // the processes started so far

    /** `TaskRunner(tasks, inputs, settings, debug)` in a process whose
        environment is `environ`. */
    constructor(tasks: seq<TaskDescription>, inputs: seq<InputOptions>, settings: TorizonSettings, debug: bool,
                environ: Env, isatty: bool, cwd: string, stdin: seq<string>, system: System)
      ensures this.tasks == tasks && this.inputs == inputs && this.settings == settings && this.system == system
      ensures canReceiveInteractiveInput == (isatty && "TASKS_DISABLE_INTERACTIVE_INPUT" !in environ)
      ensures gitlabCi == ("GITLAB_CI" in environ)
      ensures overrideEnv == ("TASKS_OVERRIDE_ENV" !in environ)
      ensures this.debug == (debug || "TASKS_DEBUG" in environ)
      ensures cliInputs == map[] && launches == [] && this.cwd == cwd && answers == stdin
      ensures env == Seeding.Apply(
        if "DOCKER_PSSWD" in environ then environ["config:docker_password" := environ["DOCKER_PSSWD"]] else environ,
        Seeding.SeedWrites(settings))
    {
      this.tasks := tasks;
      this.inputs := inputs;
      this.settings := settings;
      this.system := system;
      this.canReceiveInteractiveInput := isatty && "TASKS_DISABLE_INTERACTIVE_INPUT" !in environ;
      this.gitlabCi := "GITLAB_CI" in environ;
      this.overrideEnv := "TASKS_OVERRIDE_ENV" !in environ;
      this.debug := debug || "TASKS_DEBUG" in environ;
      cliInputs := map[];
      env := if "DOCKER_PSSWD" in environ then environ["config:docker_password" := environ["DOCKER_PSSWD"]] else environ;
      this.cwd := cwd;
      answers := stdin;
      launches := [];
      new;
      SettingsToEnv();
    }

    /** `__settings_to_env`. */
    method SettingsToEnv()
      modifies this`env
      ensures env == Seeding.Apply(old(env), Seeding.SeedWrites(settings))
    {
      SeedAttributes(Seeding.Attributes(settings));
      SeedAny(settings.any);
      Seeding.ApplyAppend(old(env), Seeding.AttributeWrites(Seeding.Attributes(settings)), Seeding.AnyWrites(settings.any, settings.any.keys));
    }

    /** The first loop of `__settings_to_env`: every attribute that is not
        None becomes `config:<name>`. */
    method SeedAttributes(items: seq<(string, Json)>)
      modifies this`env
      ensures env == Seeding.Apply(old(env), Seeding.AttributeWrites(items))
    {
      var i := 0;
      while i < |items|
        invariant i <= |items|
        invariant env == Seeding.Apply(old(env), Seeding.AttributeWrites(items[..i]))
      {
        Seeding.AttributeWritesStep(old(env), items, i);
        var (key, value) := items[i];
        if value != JNull {
          env := env["config:" + key := Seeding.PyStr(value)];
        }
        i := i + 1;
      }
      assert items[..i] == items;
    }

    /** The second loop of `__settings_to_env`: every scalar entry of
        `any` becomes `config:<key>`. */
    method SeedAny(any: Dict)
      modifies this`env
      ensures env == Seeding.Apply(old(env), Seeding.AnyWrites(any, any.keys))
    {
      var keys := any.keys;
      var j := 0;
      while j < |keys|
        invariant j <= |keys|
        invariant env == Seeding.Apply(old(env), Seeding.AnyWrites(any, keys[..j]))
      {
        Seeding.AnyWritesStep(old(env), any, keys, j);
        var k := keys[j];
        if k in any.values && Seeding.Scalar(any.values[k]) {
          env := env["config:" + k := Seeding.PyStr(any.values[k])];
        }
        j := j + 1;
      }
      assert keys[..j] == keys;
    }

    /** `list_labels(show_hidden, no_index)`: the lines it prints. */
    method ListLabels(showHidden: bool, noIndex: bool) returns (lines: seq<string>)
      ensures |lines| == |Shown(tasks, showHidden, |tasks|)|
      ensures forall j :: 0 <= j < |lines| ==> lines[j] == LabelLine(tasks, Shown(tasks, showHidden, |tasks|)[j], noIndex)
    {
      lines := [];
      var i := 0;
      while i < |tasks|
        invariant i <= |tasks|
        invariant lines == ShownLines(tasks, Shown(tasks, showHidden, i), noIndex)
      {
        ShownStep(tasks, showHidden, noIndex, i);
        if showHidden || !tasks[i].hide {
          lines := lines + [LabelLine(tasks, i, noIndex)];
        }
        i := i + 1;
      }
    }

    /** `set_cli_inputs`: stores each value whose key names a declared
        input, and raises ReferenceError at the first key that does not,
        keeping the values stored before it. */
    method SetCliInputs(cli: seq<(string, string)>) returns (r: Result<()>)
      modifies this`cliInputs
      ensures r.Ok? <==> forall i :: 0 <= i < |cli| ==> FindInput(inputs, cli[i].0).Some?
      ensures r.Ok? ==> cliInputs == Seeding.Apply(old(cliInputs), cli)
      ensures r.Raise? ==> exists i :: 0 <= i < |cli| && FindInput(inputs, cli[i].0).None?
                                 && (forall j :: 0 <= j < i ==> FindInput(inputs, cli[j].0).Some?)
                                 && r.error == UnknownInput(cli[i].0) && cliInputs == Seeding.Apply(old(cliInputs), cli[..i])
      ensures r.Ok? && (forall i, j :: 0 <= i < j < |cli| ==> cli[i].0 != cli[j].0) ==>
        forall i :: 0 <= i < |cli| ==> cli[i].0 in cliInputs && cliInputs[cli[i].0] == cli[i].1
    {
      var i := 0;
      while i < |cli|
        invariant i <= |cli|
        invariant forall j :: 0 <= j < i ==> FindInput(inputs, cli[j].0).Some?
        invariant cliInputs == Seeding.Apply(old(cliInputs), cli[..i])
      {
        var (key, value) := cli[i];
        if FindInput(inputs, key).None? {
          return Raise(UnknownInput(key));
        }
        Seeding.ApplyStep(old(cliInputs), cli, i);
        cliInputs := cliInputs[key := value];
        i := i + 1;
      }
      assert cli[..i] == cli;
      r := Ok(());
      if forall i, j :: 0 <= i < j < |cli| ==> cli[i].0 != cli[j].0 {
        Seeding.ApplyDistinct(old(cliInputs), cli);
      }
    }

    /** What `__check_input` consults besides stdin. */
    function Context(): InputContext
      reads this`cliInputs
    {
      InputContext(inputs, cliInputs, canReceiveInteractiveInput)
    }

    /** One argument of `__check_input`: each `${input:<id>}` match in turn. */
    method CheckInputArg(arg: string) returns (r: Result<string>)
      modifies this`answers
      ensures Prompted(r, answers) == InputArg(Context(), old(answers), arg)
      ensures |answers| <= |old(answers)|
    {
      if !Contains(arg, "${input:") {
        return Ok(arg);
      }
      var ms := FindAll(arg, "${input:");
      var a := arg;
      var j := 0;
      while j < |ms|
        invariant j <= |ms|
        invariant InputMatches(Context(), old(answers), arg, ms) == InputMatches(Context(), answers, a, ms[j..])
        invariant |answers| <= |old(answers)|
      {
        assert ms[j..][1..] == ms[j + 1..];
        var input := FindInput(inputs, ms[j]);
        if input.None? {
          return Raise(UnknownInput(ms[j]));
        }
        var v := InputValue(Context(), answers, ms[j], input.value);
        answers := v.answers;
        if v.result.Raise? {
          return Raise(v.result.error);
        }
        a := ReplaceAll(a, "${input:" + ms[j] + "}", v.result.value);
        j := j + 1;
      }
      r := Ok(a);
    }

    /** `__check_input`. */
    method CheckInput(args: seq<string>) returns (r: Result<seq<string>>)
      modifies this`answers
      ensures Prompted(r, answers) == InputPass(Context(), old(answers), args)
      ensures |answers| <= |old(answers)|
      ensures r.Ok? ==> |r.value| == |args|
    {
      ghost var ctx := Context();
      ghost var whole := InputPass(ctx, answers, args);
      AfterNothing(whole);
      var ret := [];
      var i := 0;
      assert args[0..] == args;
      while i < |args|
        invariant i <= |args|
        invariant whole == PromptedAfter(ret, InputPass(ctx, answers, args[i..]))
        invariant |answers| <= |old(answers)|
      {
        PromptedStep(ctx, answers, args, i, ret);
        var a := CheckInputArg(args[i]);
        if a.Raise? {
          return Raise(a.error);
        }
        ret := ret + [a.value];
        i := i + 1;
      }
      assert ret + [] == ret;
      r := Ok(ret);
    }

    /** One argument of `__check_config`: each `${config:<name>}` match in
        turn. */
    method CheckConfigArg(arg: string) returns (r: Result<string>)
      modifies this`env
      ensures Configured(r, env) == ConfigArg(old(env), arg)
    {
      if !Contains(arg, "${config:") {
        return Ok(arg);
      }
      var ms := FindAll(arg, "${config:");
      var a := arg;
      var j := 0;
      while j < |ms|
        invariant j <= |ms|
        invariant ConfigMatches(old(env), arg, ms) == ConfigMatches(env, a, ms[j..])
      {
        assert ms[j..][1..] == ms[j + 1..];
        var m := ms[j];
        var key := "config:" + Underscored(m);
        if key !in env {
          return Raise(MissingConfig(m));
        }
        if Underscored(m) == "docker_registry" && env[key] == "" {
          env := env[key := DefaultRegistry];
        }
        a := ReplaceAll(a, "${config:" + m + "}", env[key]);
        j := j + 1;
      }
      r := Ok(a);
    }

    /** `__check_config`, which may set `config:docker_registry`. */
    method CheckConfig(args: seq<string>) returns (r: Result<seq<string>>)
      modifies this`env
      ensures Configured(r, env) == ConfigPass(old(env), args)
      ensures env.Keys == old(env).Keys && Kept(old(env), env)
      ensures r.Ok? ==> |r.value| == |args|
    {
      ghost var whole := ConfigPass(env, args);
      NothingBefore(whole);
      var ret := [];
      var i := 0;
      assert args[0..] == args;
      while i < |args|
        invariant i <= |args|
        invariant whole == ConfiguredAfter(ret, ConfigPass(env, args[i..]))
      {
        ConfiguredStep(env, args, i, ret);
        var a := CheckConfigArg(args[i]);
        if a.Raise? {
          return Raise(a.error);
        }
        ret := ret + [a.value];
        i := i + 1;
      }
      assert ret + [] == ret;
      r := Ok(ret);
    }

    /** `__parse_envs(name, task)` for a task whose `env` is the dict `d`:
        `d.get(name)`, None when falsy, else resolved by every pass but
        `${env:` and joined by spaces. */
    method ParseEnvs(name: string, d: Dict) returns (r: Result<Option<string>>)
      modifies this`env, this`answers
      ensures Resolved(r, env, answers) == EnvValue(old(env), system.tcb, Context(), old(answers), Lookup(d, name))
      ensures Kept(old(env), env) && env.Keys == old(env).Keys
      ensures |answers| <= |old(answers)|
    {
      var value := Lookup(d, name);
      if !Truthy(value) {
        return Ok(None);
      }
      var prepared :- Prepare(env, system.tcb, [value], "env");
      var answered :- CheckInput(prepared);
      var configured :- CheckConfig(answered);
      r := Ok(Some(Join(configured, " ")));
    }

    /** One item of the loop of `run_task` over the task's `env` dict:
        unless `TASKS_OVERRIDE_ENV` is unset and the variable is already
        present, a non-empty parsed value is written. */
    method InjectKey(d: Dict, i: nat) returns (r: Result<()>)
      requires i < |d.keys|
      modifies this`env, this`answers
      ensures r.Raise? ==> Injected(overrideEnv, system.tcb, Context(), old(env), old(answers), d, i) == Resolved(r, env, answers)
      ensures r.Ok? ==>
        Injected(overrideEnv, system.tcb, Context(), old(env), old(answers), d, i)
          == Injected(overrideEnv, system.tcb, Context(), env, answers, d, i + 1)
      ensures old(env).Keys <= env.Keys
      ensures !overrideEnv ==> Kept(old(env), env)
      ensures |answers| <= |old(answers)|
    {
      var name := d.keys[i];
      if overrideEnv || name !in env {
        var parsed := ParseEnvs(name, d);
        if parsed.Raise? {
          return Raise(parsed.error);
        }
        if parsed.value.Some? && parsed.value.value != "" {
          env := env[name := parsed.value.value];
        }
      }
      r := Ok(());
    }

    /** The loop of `run_task` over the items of the task's `env` dict, in
        key order, stopping at the first that raises. */
    method InjectEnv(d: Dict) returns (r: Result<()>)
      modifies this`env, this`answers
      ensures Resolved(r, env, answers) == Injected(overrideEnv, system.tcb, Context(), old(env), old(answers), d, 0)
      ensures old(env).Keys <= env.Keys
      ensures !overrideEnv ==> Kept(old(env), env)
      ensures |answers| <= |old(answers)|
    {
      var i := 0;
      while i < |d.keys|
        invariant i <= |d.keys|
        invariant Injected(overrideEnv, system.tcb, Context(), old(env), old(answers), d, 0)
               == Injected(overrideEnv, system.tcb, Context(), env, answers, d, i)
        invariant old(env).Keys <= env.Keys
        invariant !overrideEnv ==> Kept(old(env), env)
        invariant |answers| <= |old(answers)|
      {
        ghost var before := env;
        r := InjectKey(d, i);
        if !overrideEnv {
          KeptTransitive(old(env), before, env);
        }
        if r.Raise? {
          return;
        }
        i := i + 1;
      }
      r := Ok(());
    }

    /** The command of a task: each pass on the one-element list, keeping
        only the first entry after `${command:tcb`. */
    method ResolveCommand(command: Json) returns (r: Result<string>)
      modifies this`env, this`answers
      ensures Resolved(r, env, answers) == CommandValue(old(env), system.tcb, Context(), old(answers), command)
      ensures env.Keys == old(env).Keys && Kept(old(env), env)
      ensures |answers| <= |old(answers)|
    {
      var prepared :- Prepare(env, system.tcb, [command], "command");
      var answered :- CheckInput([prepared[0]]);
      var substituted :- EnvPass(env, answered);
      var configured :- CheckConfig(substituted);
      r := Ok(configured[0]);
    }

    /** The arguments of a task: every pass, then the two quoting passes. */
    method ResolveArgs(args: Json) returns (r: Result<seq<string>>)
      modifies this`env, this`answers
      ensures Resolved(r, env, answers) == ArgsValue(old(env), system.tcb, Context(), old(answers), args)
      ensures env.Keys == old(env).Keys && Kept(old(env), env)
      ensures |answers| <= |old(answers)|
    {
      var items :- ArgItems(args);
      var prepared :- Prepare(env, system.tcb, items, "args");
      var answered :- CheckInput(prepared);
      var substituted :- EnvPass(env, answered);
      var configured :- CheckConfig(substituted);
      r := Ok(ShapeArgs(configured));
    }

    /** The working directory of a task: workspace folders, then
        `${config:`, then `${env:`. */
    method ResolveCwd(path: Json) returns (r: Result<string>)
      modifies this`env
      ensures Configured(r, env) == CwdValue(old(env), path)
      ensures env.Keys == old(env).Keys && Kept(old(env), env)
    {
      var w :- WorkspacePass(env, [path], "cwd");
      var p :- Present(w);
      var c :- CheckConfig(p);
      var e :- EnvPass(env, c);
      r := Ok(e[0]);
    }

    /** Starts the process and waits for it; the working directory goes
        back to `lastCwd` unless the start itself raised. */
    method Start(form: LaunchForm, wanted: Json, lastCwd: string) returns (r: Result<()>)
      modifies this`launches, this`cwd
      ensures launches == old(launches) + [Launch(wanted, form, env, old(cwd))]
      ensures r.Ok? <==> system.status(|old(launches)|) == Exited(0)
      ensures system.status(|old(launches)|) == SpawnError ==> r == Raise(SpawnFailed(Seeding.PyStr(wanted))) && cwd == old(cwd)
      ensures system.status(|old(launches)|).Exited? ==> cwd == lastCwd
      ensures system.status(|old(launches)|).Exited? && system.status(|old(launches)|).code != 0 ==>
        r == Raise(TaskFailed(Seeding.PyStr(wanted), system.status(|old(launches)|).code))
    {
      var status := system.status(|launches|);
      launches := launches + [Launch(wanted, form, env, cwd)];
      match status {
        case SpawnError => return Raise(SpawnFailed(Seeding.PyStr(wanted)));
        case Exited(code) =>
          cwd := lastCwd;
          if code != 0 {
            return Raise(TaskFailed(Seeding.PyStr(wanted), code));
          }
      }
      r := Ok(());
    }

    /** One dependency of `run_task`: `self.run_task(dep)`, of which the
        loop needs the processes started and how they ended. */
    method RunDep(dep: Json, depth: nat) returns (r: Result<()>)
      modifies this
      decreases depth, 4
      ensures cliInputs == old(cliInputs)
      ensures Grown(overrideEnv, old(env), env, old(answers), answers)
      ensures !(r.Raise? && r.error.SpawnFailed?) ==> cwd == old(cwd)
      ensures Ran(system.status, old(launches), launches, RunOrder(tasks, dep, depth), r.Ok?)
      ensures r.Ok? ==> WithinDepth(tasks, dep, depth)
    {
      r := RunTask(dep, depth);
    }

    /** The dependency loop of `run_task`: each dependency in listed
        order, stopping at the first failure. */
    method RunDeps(deps: seq<Json>, depth: nat) returns (r: Result<()>)
      modifies this
      decreases depth, 5
      ensures cliInputs == old(cliInputs)
      ensures Grown(overrideEnv, old(env), env, old(answers), answers)
      ensures !(r.Raise? && r.error.SpawnFailed?) ==> cwd == old(cwd)
      ensures Ran(system.status, old(launches), launches, DepsOrder(tasks, deps, |deps|, depth), r.Ok?)
      ensures r.Ok? ==> forall j :: 0 <= j < |deps| ==> WithinDepth(tasks, deps[j], depth)
    {
      var k := 0;
      RanNothing(system.status, launches, []);
      while k < |deps|
        invariant k <= |deps|
        invariant cliInputs == old(cliInputs)
        invariant Grown(overrideEnv, old(env), env, old(answers), answers)
        invariant cwd == old(cwd)
        invariant Ran(system.status, old(launches), launches, DepsOrder(tasks, deps, k, depth), true)
        invariant forall j :: 0 <= j < k ==> WithinDepth(tasks, deps[j], depth)
      {
        ghost var envBefore, answersBefore, launchesBefore := env, answers, launches;
        var d := RunDep(deps[k], depth);
        GrownTrans(overrideEnv, old(env), envBefore, env, old(answers), answersBefore, answers);
        RanThen(system.status, old(launches), launchesBefore, launches,
          DepsOrder(tasks, deps, k, depth), RunOrder(tasks, deps[k], depth), d.Ok?);
        if d.Raise? {
          DepsOrderGrows(tasks, deps, k + 1, |deps|, depth);
          RanWithin(system.status, old(launches), launches, DepsOrder(tasks, deps, k + 1, depth), DepsOrder(tasks, deps, |deps|, depth));
          return d;
        }
        k := k + 1;
      }
      r := Ok(());
    }

    /** The start of `run_task`: the command, then the `options` object,
        whose `env` a falsy non-None value does not have. */
    method Head(task: TaskDescription) returns (r: Result<(string, Option<CommandOptions>)>)
      modifies this`env, this`answers
      ensures var c := CommandValue(old(env), system.tcb, old(Context()), old(answers), task.command);
        && env == c.env && answers == c.answers
        && (c.result.Raise? ==> r == Raise(c.result.error))
        && (c.result.Ok? && task.options.RawOptions? ==> r == Raise(NotAnObject("options")))
        && (c.result.Ok? && task.options.NoOptions? ==> r == Ok((c.result.value, None)))
        && (c.result.Ok? && task.options.Options? ==> r == Ok((c.result.value, Some(task.options.opts))))
    {
      var cmd :- ResolveCommand(task.command);
      match task.options {
        case RawOptions => return Raise(NotAnObject("options"));
        case NoOptions => return Ok((cmd, None));
        case Options(o) => return Ok((cmd, Some(o)));
      }
    }

    /** `Head`, with what the rest of `run_task` needs of it: the
        environment keeps its keys and, unless overriding, its values, and
        stdin is only consumed. */
    method ReadHead(task: TaskDescription) returns (r: Result<(string, Option<CommandOptions>)>)
      modifies this`env, this`answers
      ensures env.Keys == old(env).Keys && Kept(old(env), env)
      ensures |answers| <= |old(answers)|
      ensures task.options.RawOptions? ==> r.Raise?
      ensures var c := CommandValue(old(env), system.tcb, old(Context()), old(answers), task.command);
        c.result.Raise? ==> r == Raise(c.result.error)
    {
      r := Head(task);
    }

    /** The part of `run_task` between the dependencies and the process
        start: the arguments, the GitLab rewrite, the environment and the
        working directory, giving the form the process is started in. */
    method Stage(task: TaskDescription, command: string, opts: Option<CommandOptions>) returns (r: Result<LaunchForm>)
      modifies this`env, this`answers, this`cwd
      ensures StageOutcome(r, env, answers, cwd)
        == Staged(gitlabCi, overrideEnv, system.tcb, system.chdir, Context(), old(env), old(answers), old(cwd), task, command, opts)
    {
      var args :- ResolveArgs(task.args);
      var cmd := command;
      if gitlabCi {
        cmd := ReplaceDockerHost(cmd);
      }
      r := StageRest(FormOf(task, cmd, args), opts);
    }

    /** The rest of the staging, once the form is known: the `env` of the
        options injected, then their `cwd` entered. */
    method StageRest(form: LaunchForm, opts: Option<CommandOptions>) returns (r: Result<LaunchForm>)
      modifies this`env, this`answers, this`cwd
      ensures StageOutcome(r, env, answers, cwd)
        == StagedRest(overrideEnv, system.tcb, system.chdir, Context(), old(env), old(answers), old(cwd), form, opts)
    {
      var vars := if opts.Some? then opts.value.env else JNull;
      if !vars.JNull? {
        if !vars.JObject? {
          return Raise(NotAnObject("env"));
        }
        if !ValidDict(vars.obj) {
          return Raise(IllTyped("env"));
        }
        var injected := InjectEnv(vars.obj);
        if injected.Raise? {
          return Raise(injected.error);
        }
      }
      var dir := if opts.Some? then opts.value.cwd else JNull;
      if !dir.JNull? {
        var path :- ResolveCwd(dir);
        var entered := system.chdir(cwd, path);
        if entered.None? {
          return Raise(ChdirFailed(path));
        }
        cwd := entered.value;
      }
      r := Ok(form);
    }

    /** The end of `run_task`, once the dependencies ran: the staging, then
        at most one process, the task's own, started in the form the staging
        gives, with the environment and in the directory it leaves; the
        working directory goes back to `lastCwd` once the process exits. */
    method Finish(task: TaskDescription, wanted: Json, cmd: string, opts: Option<CommandOptions>, lastCwd: string)
      returns (r: Result<()>)
      requires cwd == lastCwd
      modifies this`env, this`answers, this`cwd, this`launches
      ensures var s := Staged(gitlabCi, overrideEnv, system.tcb, system.chdir, Context(), old(env), old(answers), old(cwd), task, cmd, opts);
        && env == s.env && answers == s.answers
        && (s.result.Raise? ==> r == Raise(s.result.error) && launches == old(launches) && cwd == s.cwd)
        && (s.result.Ok? ==> launches == old(launches) + [Launch(wanted, s.result.value, s.env, s.cwd)])
      ensures |launches| > |old(launches)| ==>
        var status := system.status(|old(launches)|);
        && (r.Ok? <==> status == Exited(0))
        && (status == SpawnError ==> r == Raise(SpawnFailed(Seeding.PyStr(wanted))))
        && (status.Exited? ==> cwd == lastCwd)
        && (status.Exited? && status.code != 0 ==> r == Raise(TaskFailed(Seeding.PyStr(wanted), status.code)))
    {
      var form :- Stage(task, cmd, opts);
      r := Start(form, wanted, lastCwd);
    }

    /** `Finish`, with what `run_task` states of it: at most one process,
        labelled `wanted`, running the command after the GitLab rewrite in
        the form the task's `type` asks for. */
    method RunOwn(task: TaskDescription, wanted: Json, cmd: string, opts: Option<CommandOptions>, lastCwd: string)
      returns (r: Result<()>)
      requires cwd == lastCwd
      modifies this`env, this`answers, this`cwd, this`launches
      ensures IsPrefix(old(launches), launches) && |launches| <= |old(launches)| + 1
      ensures Grown(overrideEnv, old(env), env, old(answers), answers)
      ensures !(r.Raise? && r.error.SpawnFailed?) ==> cwd == old(cwd)
      ensures |launches| == |old(launches)| + 1 ==>
        && Own(launches[|old(launches)|], wanted, Hosted(gitlabCi, cmd), task.kind == JStr("shell"))
        && launches[|old(launches)|].env == env
      ensures r.Ok? <==> |launches| == |old(launches)| + 1 && system.status(|old(launches)|) == Exited(0)
    {
      r := Finish(task, wanted, cmd, opts, lastCwd);
      PrefixOfAppend(old(launches), launches[|old(launches)|..]);
      assert launches == old(launches) + launches[|old(launches)|..];
    }

    /** `run_task(wanted)`, with `depth` the calls the interpreter still
        allows before RecursionError: the task is looked up and its command
        and options read before anything runs. */
    method RunTask(wanted: Json, depth: nat) returns (r: Result<()>)
      modifies this
      decreases depth, 3
      ensures cliInputs == old(cliInputs)
      ensures IsPrefix(old(launches), launches)
      ensures old(env).Keys <= env.Keys
      ensures !overrideEnv ==> Kept(old(env), env)
      ensures |answers| <= |old(answers)|
      ensures !(r.Raise? && r.error.SpawnFailed?) ==> cwd == old(cwd)
      ensures depth == 0 ==> r == Raise(RecursionLimit) && launches == old(launches)
      ensures depth > 0 && FindTask(tasks, wanted).None? ==>
        r == Raise(UnknownTask(Seeding.PyStr(wanted))) && env == old(env) && answers == old(answers) && launches == old(launches)
      ensures IsPrefix(LaunchLabels(launches[|old(launches)|..]), RunOrder(tasks, wanted, depth))
      ensures forall n :: |old(launches)| <= n < |launches| - 1 ==> system.status(n) == Exited(0)
      ensures r.Ok? ==> WithinDepth(tasks, wanted, depth)
      ensures r.Ok? ==> |launches| > |old(launches)|
      ensures r.Ok? ==> forall n :: |old(launches)| <= n < |launches| ==> system.status(n) == Exited(0)
      ensures r.Ok? ==> LaunchLabels(launches[|old(launches)|..]) == RunOrder(tasks, wanted, depth)
      ensures r.Ok? ==> (launches[|launches| - 1].form.Shell? <==> FindTask(tasks, wanted).value.kind == JStr("shell"))
      ensures depth > 0 && FindTask(tasks, wanted).Some? ==>
        var c := CommandValue(old(env), system.tcb, old(Context()), old(answers), FindTask(tasks, wanted).value.command);
        c.result.Raise? ==> r == Raise(c.result.error) && launches == old(launches)
    {
      if depth == 0 {
        RanNothing(system.status, launches, []);
        return Raise(RecursionLimit);
      }
      var found := FindTask(tasks, wanted);
      if found.None? {
        RanNothing(system.status, launches, []);
        return Raise(UnknownTask(Seeding.PyStr(wanted)));
      }
      r := RunFound(found.value, wanted, depth);
    }

    /** `run_task(wanted)` once the task is found: its command and options
        are read before anything runs. */
    method RunFound(task: TaskDescription, wanted: Json, depth: nat) returns (r: Result<()>)
      requires depth > 0 && FindTask(tasks, wanted) == Some(task)
      modifies this
      decreases depth, 2
      ensures cliInputs == old(cliInputs)
      ensures Grown(overrideEnv, old(env), env, old(answers), answers)
      ensures !(r.Raise? && r.error.SpawnFailed?) ==> cwd == old(cwd)
      ensures Ran(system.status, old(launches), launches, RunOrder(tasks, wanted, depth), r.Ok?)
      ensures r.Ok? ==> WithinDepth(tasks, wanted, depth) && |launches| > |old(launches)|
      ensures r.Ok? ==> (launches[|launches| - 1].form.Shell? <==> task.kind == JStr("shell"))
      ensures var c := CommandValue(old(env), system.tcb, old(Context()), old(answers), task.command);
        c.result.Raise? ==> r == Raise(c.result.error) && launches == old(launches)
      ensures task.options.RawOptions? ==> r.Raise? && launches == old(launches)
    {
      var head := ReadHead(task);
      if head.Raise? {
        RanNothing(system.status, launches, RunOrder(tasks, wanted, depth));
        return Raise(head.error);
      }
      ghost var env1, answers1 := env, answers;
      r := RunResolved(task, wanted, head.value.0, head.value.1, depth);
      GrownTrans(overrideEnv, old(env), env1, env, old(answers), answers1, answers);
    }

    /** The rest of `run_task(wanted)` once the command is resolved: the
        dependencies in listed order, then the task's own process. */
    method RunResolved(task: TaskDescription, wanted: Json, cmd: string, opts: Option<CommandOptions>, depth: nat)
      returns (r: Result<()>)
      requires depth > 0 && FindTask(tasks, wanted) == Some(task)
      modifies this
      decreases depth, 1
      ensures cliInputs == old(cliInputs)
      ensures Grown(overrideEnv, old(env), env, old(answers), answers)
      ensures !(r.Raise? && r.error.SpawnFailed?) ==> cwd == old(cwd)
      ensures Ran(system.status, old(launches), launches, RunOrder(tasks, wanted, depth), r.Ok?)
      ensures r.Ok? ==> WithinDepth(tasks, wanted, depth) && |launches| > |old(launches)|
      ensures r.Ok? ==> Own(launches[|launches| - 1], wanted, Hosted(gitlabCi, cmd), task.kind == JStr("shell"))
    {
      var lastCwd := cwd;
      var deps := Deps(task);
      RunOrderOf(tasks, wanted, depth, task);
      if deps.Raise? {
        RanNothing(system.status, launches, RunOrder(tasks, wanted, depth));
        return Raise(deps.error);
      }
      ghost var order := DepsOrder(tasks, deps.value, |deps.value|, depth - 1);

      var d := RunDeps(deps.value, depth - 1);
      if d.Raise? {
        PrefixOfAppend(order, [wanted]);
        RanWithin(system.status, old(launches), launches, order, order + [wanted]);
        return d;
      }
      ghost var env2, answers2, launches2 := env, answers, launches;
      r := RunOwn(task, wanted, cmd, opts, lastCwd);
      GrownTrans(overrideEnv, old(env), env2, env, old(answers), answers2, answers);
      RanOwn(system.status, old(launches), launches2, launches, order, wanted, r.Ok?);
    }
  }

  /** A pass over the rest of a list, after the entries `done` already
      resolved. */
  function PromptedAfter(done: seq<string>, rest: Prompted<seq<string>>): Prompted<seq<string>> {
    if rest.result.Raise? then rest else Prompted(Ok(done + rest.result.value), rest.answers)
  }

  /** One more argument of `__check_input`. */
  lemma PromptedStep(ctx: InputContext, answers: seq<string>, args: seq<string>, i: nat, done: seq<string>)
    requires i < |args|
    ensures var first := InputArg(ctx, answers, args[i]);
      && (first.result.Raise? ==> PromptedAfter(done, InputPass(ctx, answers, args[i..])) == Prompted(Raise(first.result.error), first.answers))
      && (first.result.Ok? ==> PromptedAfter(done, InputPass(ctx, answers, args[i..]))
                               == PromptedAfter(done + [first.result.value], InputPass(ctx, first.answers, args[i + 1..])))
  {
    assert args[i..][0] == args[i];
    assert args[i..][1..] == args[i + 1..];
    var first := InputArg(ctx, answers, args[i]);
    if first.result.Ok? {
      var rest := InputPass(ctx, first.answers, args[i + 1..]);
      if rest.result.Ok? {
        assert done + ([first.result.value] + rest.result.value) == (done + [first.result.value]) + rest.result.value;
      }
    }
  }

  /** One more argument of `__check_config`. */
  lemma ConfiguredStep(env: Env, args: seq<string>, i: nat, done: seq<string>)
    requires i < |args|
    ensures var first := ConfigArg(env, args[i]);
      && (first.result.Raise? ==> ConfiguredAfter(done, ConfigPass(env, args[i..])) == Configured(Raise(first.result.error), first.env))
      && (first.result.Ok? ==> ConfiguredAfter(done, ConfigPass(env, args[i..]))
                               == ConfiguredAfter(done + [first.result.value], ConfigPass(first.env, args[i + 1..])))
  {
    assert args[i..][0] == args[i];
    assert args[i..][1..] == args[i + 1..];
    var first := ConfigArg(env, args[i]);
    if first.result.Ok? {
      var rest := ConfigPass(first.env, args[i + 1..]);
      if rest.result.Ok? {
        assert done + ([first.result.value] + rest.result.value) == (done + [first.result.value]) + rest.result.value;
      }
    }
  }

  lemma AfterNothing(p: Prompted<seq<string>>)
    ensures PromptedAfter([], p) == p
  {
    if p.result.Ok? {
      assert [] + p.result.value == p.result.value;
    }
  }

  lemma NothingBefore(c: Configured<seq<string>>)
    ensures ConfiguredAfter([], c) == c
  {
    if c.result.Ok? {
      assert [] + c.result.value == c.result.value;
    }
  }

  function ConfiguredAfter(done: seq<string>, rest: Configured<seq<string>>): Configured<seq<string>> {
    if rest.result.Raise? then rest else Configured(Ok(done + rest.result.value), rest.env)
  }
}
