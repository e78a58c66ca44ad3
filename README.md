# Torizon task runner, modelled in Dafny

This project models the task runner of the Torizon templates'
`torizon_templates_utils` Python package, and proves properties of the model.

- `tasks.py` reads a VS Code `.vscode/tasks.json` and a `settings.json`.
- `TaskRunner` lists the tasks and runs them by label. A task's
  dependencies run first.
- Each task's command, arguments, `env` values and `cwd` are expanded
  before the process starts:
  - `${workspaceFolder}`;
  - `${command:torizon_*}`, `${command:docker_*}` and `${command:tcb.*}`;
  - `${input:*}`;
  - `${env:*}`;
  - `${config:*}`.
- `args.py` reads the positional command-line arguments of the scripts,
  falling back to a default or to a prompt.

The modules follow the program:

| file | module | models |
|---|---|---|
| `text.dfy` | `Text` | the Python string operations the runner relies on: `in`, `str.replace`, `" ".join`, `str(int)`, the `\s` class |
| `outcomes.dfy` | `Outcomes` | the exceptions the runner can raise, one constructor per raise site, and a `Result` type |
| `lookaround.dfy` | `Lookaround` | `re.findall(r"(?<=\$\{prefix).*?(?=\s*})", s)` as a scanner, including CPython's rule that the scan advances after an empty match |
| `loading.dfy` | `Loading` | the JSON document as ordered dictionaries; `_cast_from_json`; the `TorizonSettings`, `InputOptions`, `CommandOptions`, `TaskDescription` and `TaskConfiguration` records |
| `resolution.dfy` | `Resolution` | every `__check_*` pass of `TaskRunner`; the quoting passes; `__replace_docker_host` |
| `seeding.dfy` | `Seeding` | `__settings_to_env`, which copies the settings into `os.environ` under `config:<name>`; `str()` of a JSON value |
| `staging.dfy` | `Staging` | the values `run_task` builds from one task (command, arguments, `env`, `cwd`) as functions of the environment |
| `runner.dfy` | `Runner` | the `TaskRunner` class |
| `argv.dfy` | `Argv` | `get_arg_not_empty`, `get_optional_arg`, `get_arg_iterative` |

`Runner.TaskRunner` is a class whose fields are the state the Python object
and its process change:

- `env` is `os.environ`;
- `cwd` is the working directory;
- `cliInputs` is the `--input` values;
- `answers` is the lines still unread on stdin;
- `launches` is the processes started so far.

The methods that change this state state their new state through the
functions of `Staging` and `Resolution`, and the lemmas prove what those
functions mean.

The world outside the interpreter is a parameter:

- `System.chdir`: whether `os.chdir` succeeds;
- `System.status`: how the `k`-th process ends;
- `System.tcb`: what `torizon-io.xsh package latest version` prints, and
  what `tcbuild.yaml` holds under `output.easy-installer.local`;
- the isatty flag and the initial environment of the constructor.

Python's default recursion limit becomes the `depth` parameter of
`RunTask`. Running out of depth is the `RecursionLimit` error, which is
what `run_task` raises for a task that depends on itself.

Behaviour of the code worth noting:

- Two tasks may share a label. Nothing rejects this at load time, and
  `run_task` uses the first one (`Runner.FindTaskFirst`). Likewise the
  first input with an id is the one used (`Resolution.FindInput`).
- The records store whatever JSON value they are given. A `label` of `7`
  or an `args` object loads; such a value fails, if ever, only where it is
  used.
- `__check_long_args` quotes an argument only when it contains a space.
  Other whitespace does not trigger it.
- Quoting wraps an argument in single quotes without escaping, so an
  argument that holds `'` no longer reads as itself
  (`Resolution.QuoteInsideBreaks`).
- `${command:tcb...}` references are rewritten by literals written with
  doubled braces (`"${{command:tcb...}}"`). These never occur in a value
  without `${{`, so there only the `findall` rewrite takes effect
  (`Resolution.DoubledBraceNeverMatches`).
- In a value without `${{`, `getNextPackageVersion` never inserts the
  version it reads, since its literal does not match there. It appends the value twice instead: once
  unchanged, and once with `${command:tcb.` rewritten to `${config:tcb.`
  (`Resolution.TcbNextVersionTwice`).
- The `env` values of a task skip the `${env:` pass, so an `${env:NAME}`
  there is injected as written (`Staging.EnvReferenceInjectedLiterally`).
- `__settings_to_env` also publishes `config:any`, and a list setting is
  published as its Python repr (`Seeding.PyStrList`).
- Under GitLab CI, `DOCKER_HOST=` in a command becomes
  `DOCKER_HOST=tcp://docker:2375` with the old value left after it, so
  `DOCKER_HOST=unix:///x docker ps` becomes
  `DOCKER_HOST=tcp://docker:2375unix:///x docker ps`
  (`Resolution.DockerHostRewritten`).
- A JSON key `self` makes the cast raise a TypeError.
- A truthy `options` that is not an object (such as a string) fails when
  the task is loaded.
- A falsy `options` other than `null` (`{}`) is kept raw. `run_task` then
  fails with an AttributeError after it resolves the command.
- The word `workspaceFolder` outside `${workspaceFolder}` turns the value
  into `None`, and the next pass raises TypeError on it
  (`Resolution.WorkspaceWordAlone`).
- An empty `config:docker_registry` is replaced by `registry-1.docker.io`
  in the environment itself.

## Model

| member | source | states |
|---|---|---|
| Text.ReplaceAbsent | scripts/utils/pip/torizon_templates_utils/tasks.py:533-534 | `str.replace` leaves a string without the pattern unchanged |
| Text.ReplaceAfterPrefix | scripts/utils/pip/torizon_templates_utils/tasks.py:797-799 | `str.replace` keeps a prefix in which no occurrence starts and replaces only after it |
| Text.ReplaceIntroduces | scripts/utils/pip/torizon_templates_utils/tasks.py:533-534 | after `str.replace` of a pattern that occurs, the replacement occurs in the result |
| Text.ReplaceWhole | scripts/utils/pip/torizon_templates_utils/tasks.py:648 | replacing a whole reference by a value yields exactly the value |
| Text.JoinAppend | scripts/utils/pip/torizon_templates_utils/tasks.py:786 | `" ".join` puts the separator between each string and the next |
| Text.Underscored | scripts/utils/pip/torizon_templates_utils/tasks.py:36-40 | `replace(".", "_")` keeps the length, leaves no dot, and is the identity on dot-free keys |
| Text.NatToDecimal | scripts/utils/pip/torizon_templates_utils/tasks.py:745 | `str(i)` is non-empty and has two digits or more exactly from 10 on |
| Text.DecimalInjective | scripts/utils/pip/torizon_templates_utils/tasks.py:745 | distinct indices print differently, so a typed index picks at most one option |
| Text.DecimalIndex | scripts/utils/pip/torizon_templates_utils/tasks.py:744-746 | finds the index whose `str` equals the answer, or proves that no index in range matches |
| Lookaround.LazyLength | scripts/utils/pip/torizon_templates_utils/tasks.py:631 | a length found lies inside the string and is one where the lookahead `(?=\s*})` holds; `LazyLengthLeast` states that it is the least |
| Lookaround.LazyLengthLeast | scripts/utils/pip/torizon_templates_utils/tasks.py:631 | the lazy match is the shortest allowed: no earlier position satisfies the lookahead, and the match holds no newline |
| Lookaround.NoMatchWithoutPrefix | scripts/utils/pip/torizon_templates_utils/tasks.py:630-632 | `findall` finds nothing in a string that lacks the look-behind prefix |
| Lookaround.SkipPositions | scripts/utils/pip/torizon_templates_utils/tasks.py:630-632 | positions not preceded by the prefix contribute no match |
| Lookaround.LazyOverName | scripts/utils/pip/torizon_templates_utils/tasks.py:631 | on `name}` the lazy match is exactly the name |
| Lookaround.OnlyAfterPrefix | scripts/utils/pip/torizon_templates_utils/tasks.py:631 | in `${prefix name}` the look-behind holds at one position only |
| Lookaround.SingleReference | scripts/utils/pip/torizon_templates_utils/tasks.py:630-632 | `findall` on one `${prefix name}` reference returns exactly `[name]` |
| Lookaround.MatchAt | scripts/utils/pip/torizon_templates_utils/tasks.py:630-632 | after the prefix of `${prefix name}` the scan yields the name and then nothing more |
| Loading.Iterated | scripts/utils/pip/torizon_templates_utils/tasks.py:383-387 | `for x in v` gives a list's items, a string's characters, a dict's keys, and raises TypeError exactly on null, bool and numbers |
| Loading.Remove | scripts/utils/pip/torizon_templates_utils/tasks.py:39 | `dict.pop` removes exactly that key and keeps the keys distinct |
| Loading.Filter | scripts/utils/pip/torizon_templates_utils/tasks.py:42-50 | the dict comprehensions keep exactly the keys inside (or outside) a set of names, in order |
| Loading.Put | scripts/utils/pip/torizon_templates_utils/tasks.py:38 | assigning a key keeps a well-formed ordered dict with that one value changed |
| Loading.Select | scripts/utils/pip/torizon_templates_utils/tasks.py:42-50 | the selected dict holds exactly the chosen keys with their values |
| Loading.RenamedComplete | scripts/utils/pip/torizon_templates_utils/tasks.py:36-40 | after the loop no key has a dot, each original key is present underscored, and each value is one of an original key with that spelling |
| Loading.RenamedKeepsPlainKey | scripts/utils/pip/torizon_templates_utils/tasks.py:36-40 | a dot-free key that no dotted key collides with keeps its value |
| Loading.DottedKeyUntouched | scripts/utils/pip/torizon_templates_utils/tasks.py:36-40 | a dotted key is still present, unchanged, when the loop reaches it |
| Loading.RenameDottedKeys | scripts/utils/pip/torizon_templates_utils/tasks.py:36-40 | the in-place loop over `list(json_data.keys())` computes `Renamed` |
| Loading.MissingRequired | scripts/utils/pip/torizon_templates_utils/tasks.py:52 | names a required constructor parameter the keys lack, or shows none is missing |
| Loading.BindOutcome | scripts/utils/pip/torizon_templates_utils/tasks.py:42-52 | `cls(**filtered)` succeeds exactly when no key is `self` and every required parameter is given; a `self` key raises TypeError |
| Loading.BindKeys | scripts/utils/pip/torizon_templates_utils/tasks.py:43-50 | the bound arguments are parameters of the class, or `any` |
| Loading.BindValues | scripts/utils/pip/torizon_templates_utils/tasks.py:43-50 | each parameter receives its JSON value, and `any` receives every unexpected key |
| Loading.CastFromJson | scripts/utils/pip/torizon_templates_utils/tasks.py:33-52 | the cast is the renaming loop followed by binding |
| Loading.CastValue | scripts/utils/pip/torizon_templates_utils/tasks.py:33-52 | a non-object argument raises, an object is cast as above |
| Loading.SelfKeyRejected | scripts/utils/pip/torizon_templates_utils/tasks.py:42-52 | a JSON object with a `self` key always fails to cast |
| Loading.DottedKeyBound | scripts/utils/pip/torizon_templates_utils/tasks.py:33-52 | a dotted key such as `docker.registry` reaches the parameter of its underscored name when nothing collides |
| Loading.CastPlain | scripts/utils/pip/torizon_templates_utils/tasks.py:33-52 | a dot-free parameter key reaches its parameter with its JSON value |
| Loading.CastAbsent | scripts/utils/pip/torizon_templates_utils/tasks.py:33-52 | a parameter the JSON does not give, under any spelling, is not bound |
| Loading.LoadSettings | scripts/utils/pip/torizon_templates_utils/tasks.py:399-410 | `get_settings_json` fails exactly when the cast fails, and otherwise holds each setting the JSON gives, with the unknown keys under `any` |
| Loading.InputResult | scripts/utils/pip/torizon_templates_utils/tasks.py:254-268 | building an input fails exactly when its cast fails, with the same error |
| Loading.InputFromArgsMeaning | scripts/utils/pip/torizon_templates_utils/tasks.py:254-268 | an input holds the `id`, `default`, `options` and `type` it was given, whatever their JSON type |
| Loading.InputDefaults | scripts/utils/pip/torizon_templates_utils/tasks.py:254-268 | an absent `default` and `options` are `None`, an absent `type` is `promptString` |
| Loading.LoadInput | scripts/utils/pip/torizon_templates_utils/tasks.py:387 | one `inputs` entry cast to `InputOptions` |
| Loading.Nested | scripts/utils/pip/torizon_templates_utils/tasks.py:307-317 | a nested record is cast only when truthy, and fails exactly when that cast fails |
| Loading.CommandOptionsFromArgs | scripts/utils/pip/torizon_templates_utils/tasks.py:115-130 | `CommandOptions` keeps `cwd` and `env` as given and fails only when a truthy `shell` fails its cast |
| Loading.TaskOptionsFrom | scripts/utils/pip/torizon_templates_utils/tasks.py:307-308 | a falsy `options` stays raw, a truthy non-object raises, an object is cast to `CommandOptions` |
| Loading.TaskFromArgsMeaning | scripts/utils/pip/torizon_templates_utils/tasks.py:271-317 | a task is built exactly when every nested cast succeeds, and holds the arguments it received, whatever their JSON type |
| Loading.TaskFieldsAsGiven | scripts/utils/pip/torizon_templates_utils/tasks.py:271-317 | a loaded task holds the `label`, `type`, `command`, `args` and `dependsOn` of its JSON entry |
| Loading.TaskFieldsDefault | scripts/utils/pip/torizon_templates_utils/tasks.py:271-317 | an absent `args` or `dependsOn` is `None` |
| Loading.LoadTask | scripts/utils/pip/torizon_templates_utils/tasks.py:384 | one `tasks` entry cast to `TaskDescription` |
| Loading.Entries | scripts/utils/pip/torizon_templates_utils/tasks.py:383-387 | a falsy `tasks` or `inputs` is left empty; a truthy one is iterated |
| Loading.CastPrefixExtend | scripts/utils/pip/torizon_templates_utils/tasks.py:384 | casting one more entry extends the list of cast entries |
| Loading.LoadTasks | scripts/utils/pip/torizon_templates_utils/tasks.py:384 | every task is cast, in order, and the result has one task per entry; otherwise the first failing entry's error is raised |
| Loading.LoadInputs | scripts/utils/pip/torizon_templates_utils/tasks.py:387 | every input is cast, in order, and the result has one input per entry; otherwise the first failing entry's error is raised |
| Loading.LoadTaskConfiguration | scripts/utils/pip/torizon_templates_utils/tasks.py:380-387 | a loaded configuration holds the cast tasks and inputs of the document, in order; it loads whenever the settings cast and every task and input entry casts; a failing cast of the document, of `tasks` or of a task raises that error before `inputs` is looked at; otherwise a failing `inputs` or input entry raises, the first failing entry's error |
| Resolution.MapAll | scripts/utils/pip/torizon_templates_utils/tasks.py:519-526 | a pass over a list succeeds exactly when each element does, and the first failure is raised |
| Resolution.ReplaceEnvVar | scripts/utils/pip/torizon_templates_utils/tasks.py:511-513 | `None` exactly when the braced name is absent; otherwise the braced name is replaced by the variable's value, and a missing variable raises KeyError |
| Resolution.Present | scripts/utils/pip/torizon_templates_utils/tasks.py:519-526 | a `None` left in the list by the workspace pass makes the next pass raise TypeError |
| Resolution.WorkspaceUntouched | scripts/utils/pip/torizon_templates_utils/tasks.py:516-526 | a value without `workspaceFolder` passes unchanged |
| Resolution.WorkspaceFolderResolves | scripts/utils/pip/torizon_templates_utils/tasks.py:516-526 | `${workspaceFolder}` becomes the variable's value, and raises KeyError when it is unset |
| Resolution.WorkspaceBasenameResolves | scripts/utils/pip/torizon_templates_utils/tasks.py:516-526 | `${workspaceFolderBasename}` becomes the variable's value, and raises KeyError when it is unset |
| Resolution.WorkspaceWordAlone | scripts/utils/pip/torizon_templates_utils/tasks.py:516-526 | the bare word `workspaceFolder` yields `None`, on which the next pass raises TypeError |
| Resolution.Rewrite | scripts/utils/pip/torizon_templates_utils/tasks.py:533-534 | the rewrite changes only values that hold the pattern, and leaves the replacement in them |
| Resolution.CommandPass | scripts/utils/pip/torizon_templates_utils/tasks.py:529-548 | `${command:torizon_` and `${command:docker_` values are kept when they lack the pattern, and otherwise hold the `${config:` spelling |
| Resolution.CommandReference | scripts/utils/pip/torizon_templates_utils/tasks.py:529-548 | `${command:<tool><name>}` becomes exactly `${config:<tool><name>}` |
| Resolution.TcbValue | scripts/utils/pip/torizon_templates_utils/tasks.py:551-603 | a value becomes one or two values, and is unchanged without `${command:tcb` |
| Resolution.TcbNextVersionTwice | scripts/utils/pip/torizon_templates_utils/tasks.py:555-603 | the `getNextPackageVersion` branch appends the value unchanged and then with its `${command:tcb.` references rewritten; the version read appears in neither |
| Resolution.TcbNextVersionReference | scripts/utils/pip/torizon_templates_utils/tasks.py:555-603 | `${command:tcb.getNextPackageVersion}` yields itself and then `${config:tcb.getNextPackageVersion}` |
| Resolution.TcbPlainReference | scripts/utils/pip/torizon_templates_utils/tasks.py:554-603 | any other `${command:tcb.<name>}` yields the one value `${config:tcb.<name>}` |
| Resolution.TcbPass | scripts/utils/pip/torizon_templates_utils/tasks.py:551-603 | the list grows by at most one element per value, and is unchanged without tcb references |
| Resolution.DoubledBraceNeverMatches | scripts/utils/pip/torizon_templates_utils/tasks.py:566-598 | the doubled-brace literals never match a value without `${{` |
| Resolution.TcbReference | scripts/utils/pip/torizon_templates_utils/tasks.py:595-599 | `${command:tcb.<name>}` becomes `${config:tcb.<name>}` |
| Resolution.EnvMatches | scripts/utils/pip/torizon_templates_utils/tasks.py:662-670 | fails exactly on a referenced variable that is not set, raising ReferenceError for it |
| Resolution.EnvPass | scripts/utils/pip/torizon_templates_utils/tasks.py:655-674 | keeps the list length and leaves values without `${env:` unchanged |
| Resolution.EnvRoundTrip | scripts/utils/pip/torizon_templates_utils/tasks.py:662-670 | `${env:N}` resolves to the value of `N` |
| Resolution.EnvMissing | scripts/utils/pip/torizon_templates_utils/tasks.py:667-668 | `${env:N}` with `N` unset raises ReferenceError for `N` |
| Resolution.Normalized | scripts/utils/pip/torizon_templates_utils/tasks.py:645-646 | only an empty `config:docker_registry` changes, to the default registry; a non-empty registry and every other key are kept |
| Resolution.ConfigMatches | scripts/utils/pip/torizon_templates_utils/tasks.py:634-650 | keeps the environment's keys and every value but the registry |
| Resolution.ConfigArg | scripts/utils/pip/torizon_templates_utils/tasks.py:629-650 | the same, and leaves an argument without `${config:` unchanged |
| Resolution.ConfigPass | scripts/utils/pip/torizon_templates_utils/tasks.py:623-652 | keeps the list length, the keys and every value but the registry, and is the identity without references |
| Resolution.ConfigSingle | scripts/utils/pip/torizon_templates_utils/tasks.py:630-632 | `${config:N}` holds exactly the one reference `N` |
| Resolution.ConfigRoundTrip | scripts/utils/pip/torizon_templates_utils/tasks.py:635-648 | `${config:N}` resolves to `config:N` (dots read as underscores) and leaves the environment as it was, except that an empty registry resolves to the default and is set to it |
| Resolution.ConfigMissing | scripts/utils/pip/torizon_templates_utils/tasks.py:641-642 | an unset `config:N` raises and changes nothing |
| Resolution.FindInput | scripts/utils/pip/torizon_templates_utils/tasks.py:716-719 | the first input with that id, or proof that there is none |
| Resolution.PickAnswer | scripts/utils/pip/torizon_templates_utils/tasks.py:744-755 | the option whose printed index was typed, or proof that no index was typed |
| Resolution.PickByIndex | scripts/utils/pip/torizon_templates_utils/tasks.py:744-755 | typing an option's index picks that option |
| Resolution.Pick | scripts/utils/pip/torizon_templates_utils/tasks.py:735-755 | a pick consumes stdin lines and never adds any |
| Resolution.InputValue | scripts/utils/pip/torizon_templates_utils/tasks.py:720-758 | resolving one input consumes stdin lines and never adds any |
| Resolution.InputMatches | scripts/utils/pip/torizon_templates_utils/tasks.py:712-760 | the same for every reference in one argument |
| Resolution.InputArg | scripts/utils/pip/torizon_templates_utils/tasks.py:707-762 | an argument without `${input:` passes unchanged and reads nothing |
| Resolution.InputPass | scripts/utils/pip/torizon_templates_utils/tasks.py:704-764 | keeps the list length, and is the identity without references |
| Resolution.InputSingle | scripts/utils/pip/torizon_templates_utils/tasks.py:712-713 | `${input:N}` holds exactly the one reference `N` |
| Resolution.InputRoundTrip | scripts/utils/pip/torizon_templates_utils/tasks.py:712-760 | `${input:N}` resolves to the value of input `N`, and an undeclared `N` raises |
| Resolution.InputPrecedence | scripts/utils/pip/torizon_templates_utils/tasks.py:725-734 | a CLI value wins, then a non-empty default, then a prompt; without interaction the input is refused |
| Resolution.PickScenario | scripts/utils/pip/torizon_templates_utils/tasks.py:735-755 | a `pickString` answered with a valid index yields that option, and anything else raises |
| Resolution.PickWithoutOptions | scripts/utils/pip/torizon_templates_utils/tasks.py:735-755 | a `pickString` without options, or with options that cannot be iterated, raises TypeError |
| Resolution.LongArg | scripts/utils/pip/torizon_templates_utils/tasks.py:677-686 | an argument with a space and no quote is quoted so that it reads as itself; the space test is unchanged; any other argument is kept |
| Resolution.QuoteSpecial | scripts/utils/pip/torizon_templates_utils/tasks.py:689-701 | an argument without a space that needs quoting is quoted so that it reads as itself; one without a special character is kept |
| Resolution.ShapeArgs | scripts/utils/pip/torizon_templates_utils/tasks.py:876-877 | the two quoting passes keep the number of arguments |
| Resolution.ShapedOnce | scripts/utils/pip/torizon_templates_utils/tasks.py:606-701 | the two passes quote each argument at most once: exactly those with a special character |
| Resolution.ShapedReadsAs | scripts/utils/pip/torizon_templates_utils/tasks.py:606-701 | every quoted argument without `'` reads back as the original argument |
| Resolution.QuoteInsideBreaks | scripts/utils/pip/torizon_templates_utils/tasks.py:606-701 | an argument holding `'` is wrapped without escaping and no longer reads as itself |
| Resolution.ReplaceDockerHost | scripts/utils/pip/torizon_templates_utils/tasks.py:797-801 | a command that holds `DOCKER_HOST=` gets `DOCKER_HOST=tcp://docker:2375` in it; any other is kept |
| Resolution.DockerHostRewritten | scripts/utils/pip/torizon_templates_utils/tasks.py:797-801 | a command with one `DOCKER_HOST=` keeps everything before it and everything after the `=`, with `tcp://docker:2375` inserted after the `=` |
| Seeding.Repr | scripts/utils/pip/torizon_templates_utils/tasks.py:457 | `f"{value}"` of a non-string setting is its repr: a string is quoted, a list bracketed and a dict braced |
| Seeding.Attributes | scripts/utils/pip/torizon_templates_utils/tasks.py:455 | the items of `settings.__dict__`: each declared setting with its loaded value, in declaration order, and `any` last |
| Seeding.StrRepr | scripts/utils/pip/torizon_templates_utils/tasks.py:459 | `repr` of a string is quoted by matching single or double quotes |
| Seeding.StrReprPlain | scripts/utils/pip/torizon_templates_utils/tasks.py:459 | `repr` of a string without quotes, backslashes or control characters is the string in single quotes |
| Seeding.PyStrList | scripts/utils/pip/torizon_templates_utils/tasks.py:457-459 | `f"{value}"` of a string is the string, of a list its repr |
| Seeding.ApplyKeys | scripts/utils/pip/torizon_templates_utils/tasks.py:455-467 | writing a sequence of `os.environ` entries sets exactly the keys written, added to those already present |
| Seeding.ApplyAppend | scripts/utils/pip/torizon_templates_utils/tasks.py:455-467 | two runs of writes are one run of both |
| Seeding.ApplyStep | scripts/utils/pip/torizon_templates_utils/tasks.py:455-467 | one more write sets one key |
| Seeding.ApplyUntouched | scripts/utils/pip/torizon_templates_utils/tasks.py:455-467 | a key no write names is left as it was |
| Seeding.ApplyLast | scripts/utils/pip/torizon_templates_utils/tasks.py:455-467 | the last write to a key decides its value |
| Seeding.ApplyDistinct | scripts/utils/pip/torizon_templates_utils/tasks.py:455-467 | writes to distinct keys all take effect |
| Seeding.AttributeNamesDistinct | scripts/utils/pip/torizon_templates_utils/tasks.py:85-104 | the names `__dict__` lists are distinct, so each attribute is written once |
| Seeding.SeedingKeepsOthers | scripts/utils/pip/torizon_templates_utils/tasks.py:455-467 | variables outside `config:` are never touched |
| Seeding.SeedingPublishesSetting | scripts/utils/pip/torizon_templates_utils/tasks.py:457-459 | every non-null setting is published as `config:<name>` with its `str()` value |
| Seeding.SeedingPublishesAny | scripts/utils/pip/torizon_templates_utils/tasks.py:462-467 | every scalar entry of `any` is published as `config:<key>` with its `str()` value |
| Seeding.SeedingKeepsUnpublished | scripts/utils/pip/torizon_templates_utils/tasks.py:455-467 | a `config:` variable that no setting and no scalar `any` entry names is kept |
| Seeding.DockerPasswordSurvives | scripts/utils/pip/torizon_templates_utils/tasks.py:440-452 | the `DOCKER_PSSWD` copy to `config:docker_password` survives seeding unless settings give a password under `any` |
| Seeding.SettingNamesDistinct | scripts/utils/pip/torizon_templates_utils/tasks.py:61-82 | the settings' attribute names are distinct |
| Seeding.SettingNamesNotAny | scripts/utils/pip/torizon_templates_utils/tasks.py:61-82 | no declared setting is called `any` |
| Staging.Prepare | scripts/utils/pip/torizon_templates_utils/tasks.py:831-834 | the reading passes never shorten the list |
| Staging.PrepareUntouched | scripts/utils/pip/torizon_templates_utils/tasks.py:516-603 | values without `workspaceFolder` or `${command:` pass the reading passes unchanged |
| Staging.EnvValue | scripts/utils/pip/torizon_templates_utils/tasks.py:767-794 | `__parse_envs` keeps the keys and every variable but the registry, returns `None` for a missing or empty value, and raises on a value that is not a string |
| Staging.CommandValue | scripts/utils/pip/torizon_templates_utils/tasks.py:828-837 | resolving the command keeps the keys and every variable but the registry; a command that is not a string raises |
| Staging.ArgItems | scripts/utils/pip/torizon_templates_utils/tasks.py:839-841 | `None` arguments are none; any other value is iterated |
| Staging.ArgsFrom | scripts/utils/pip/torizon_templates_utils/tasks.py:869-877 | resolving the arguments keeps the keys and every variable but the registry, and never drops an argument |
| Staging.ArgsValue | scripts/utils/pip/torizon_templates_utils/tasks.py:869-877 | the same, with no arguments for `None` and TypeError for a value that cannot be iterated |
| Staging.CwdValue | scripts/utils/pip/torizon_templates_utils/tasks.py:897-900 | resolving the `cwd` keeps the keys and every variable but the registry; a `cwd` that is not a string raises |
| Staging.Injected | scripts/utils/pip/torizon_templates_utils/tasks.py:884-894 | the inject loop only adds variables, and with override off keeps every variable but the registry |
| Staging.PlainHasNoReference | scripts/utils/pip/torizon_templates_utils/tasks.py:629-764 | a value without `$` holds no reference of any pass |
| Staging.CommandUntouched | scripts/utils/pip/torizon_templates_utils/tasks.py:828-837 | a plain command runs as written, and nothing is read or changed |
| Staging.ArgsUntouched | scripts/utils/pip/torizon_templates_utils/tasks.py:869-877 | plain arguments only go through the quoting passes |
| Staging.EnvValueUntouched | scripts/utils/pip/torizon_templates_utils/tasks.py:767-794 | a plain non-empty `env` value is injected as written |
| Staging.EnvReferenceInjectedLiterally | scripts/utils/pip/torizon_templates_utils/tasks.py:780-786 | an `env` value `${env:NAME}` is injected as that reference, unresolved, since `__parse_envs` has no `${env:` pass |
| Staging.CwdUntouched | scripts/utils/pip/torizon_templates_utils/tasks.py:897-902 | a plain `cwd` is entered as written |
| Staging.InjectedKeeps | scripts/utils/pip/torizon_templates_utils/tasks.py:884-894 | a variable no later entry names keeps its value through the loop |
| Staging.InjectedWrites | scripts/utils/pip/torizon_templates_utils/tasks.py:884-894 | with distinct names, an entry that may be written and parses to a non-empty value ends up in the environment |
| Staging.CommandLine | scripts/utils/pip/torizon_templates_utils/tasks.py:905 | the shell line starts with the command followed by a space |
| Staging.FormOf | scripts/utils/pip/torizon_templates_utils/tasks.py:913-919 | a `shell` task runs its command line through the shell, any other task the vector `[_cmd, *_args]` |
| Staging.Staged | scripts/utils/pip/torizon_templates_utils/tasks.py:860-905 | on success the form runs the command after the GitLab rewrite with the resolved arguments; variables are only added (kept without override), stdin is only consumed, and the directory is kept on failure or without `cwd` |
| Staging.StagedRest | scripts/utils/pip/torizon_templates_utils/tasks.py:883-905 | the `env` injection and `cwd` change keep the form, only add variables, and keep the directory on failure |
| Staging.StagedPlain | scripts/utils/pip/torizon_templates_utils/tasks.py:860-905 | a task without `options` and with plain arguments is started with its quoted arguments and changes nothing |
| Staging.StagedEnvNotADict | scripts/utils/pip/torizon_templates_utils/tasks.py:884-885 | an `env` that is not a dict raises AttributeError before any variable is set or directory entered |
| Runner.FindTask | scripts/utils/pip/torizon_templates_utils/tasks.py:821-825 | a found task has the label asked for |
| Runner.FindTaskFirst | scripts/utils/pip/torizon_templates_utils/tasks.py:821-825 | the task found is the first one with the label; none is found only when no task has it |
| Runner.ShownMeaning | scripts/utils/pip/torizon_templates_utils/tasks.py:470-481 | `list_labels` shows exactly the visible tasks (all with `show_hidden`), in file order |
| Runner.Deps | scripts/utils/pip/torizon_templates_utils/tasks.py:850-852 | a `dependsOn` of None gives no dependency; any other value is iterated, a string giving its characters and a value that cannot be iterated raising TypeError |
| Runner.RunOrderOf | scripts/utils/pip/torizon_templates_utils/tasks.py:850-856 | a task runs after its dependencies' trees in listed order, and fits the depth exactly when each dependency fits one level less |
| Runner.DepsOrderGrows | scripts/utils/pip/torizon_templates_utils/tasks.py:850-856 | the processes of the first dependencies come before those of later ones |
| Runner.SelfDependentUnbounded | scripts/utils/pip/torizon_templates_utils/tasks.py:850-856 | a task that depends on itself exhausts any recursion depth |
| Runner.RanOwn | scripts/utils/pip/torizon_templates_utils/tasks.py:855-926 | dependencies that all succeeded, then the task's own process: the run order with the task last |
| Runner.TaskRunner.constructor | scripts/utils/pip/torizon_templates_utils/tasks.py:418-452 | the flags from the environment, the `DOCKER_PSSWD` copy, then the settings seeding |
| Runner.TaskRunner.SettingsToEnv | scripts/utils/pip/torizon_templates_utils/tasks.py:455-467 | the environment after the loops is the ordered writes of the settings |
| Runner.TaskRunner.SeedAttributes | scripts/utils/pip/torizon_templates_utils/tasks.py:455-459 | the first loop writes each non-null attribute, in order |
| Runner.TaskRunner.SeedAny | scripts/utils/pip/torizon_templates_utils/tasks.py:462-467 | the second loop writes each scalar entry of `any`, in order |
| Runner.TaskRunner.ListLabels | scripts/utils/pip/torizon_templates_utils/tasks.py:470-481 | prints one line per shown task, in order, with its index unless `no_index` |
| Runner.TaskRunner.SetCliInputs | scripts/utils/pip/torizon_templates_utils/tasks.py:804-816 | succeeds exactly when every key names a declared input, and then stores each value; on failure the first unknown key is raised and only the keys before it were stored |
| Runner.TaskRunner.CheckInputArg | scripts/utils/pip/torizon_templates_utils/tasks.py:707-762 | computes `InputArg` on the current stdin |
| Runner.TaskRunner.CheckInput | scripts/utils/pip/torizon_templates_utils/tasks.py:704-764 | computes `InputPass`, keeping the list length |
| Runner.TaskRunner.CheckConfigArg | scripts/utils/pip/torizon_templates_utils/tasks.py:629-650 | computes `ConfigArg` on the current environment |
| Runner.TaskRunner.CheckConfig | scripts/utils/pip/torizon_templates_utils/tasks.py:623-652 | computes `ConfigPass`, keeping the keys and every variable but the registry |
| Runner.TaskRunner.ParseEnvs | scripts/utils/pip/torizon_templates_utils/tasks.py:767-794 | computes `EnvValue` of the task's entry for the name |
| Runner.TaskRunner.InjectKey | scripts/utils/pip/torizon_templates_utils/tasks.py:885-894 | one step of the inject loop: `Injected` from this key on |
| Runner.TaskRunner.InjectEnv | scripts/utils/pip/torizon_templates_utils/tasks.py:884-894 | computes `Injected` over the task's `env` |
| Runner.TaskRunner.ResolveCommand | scripts/utils/pip/torizon_templates_utils/tasks.py:828-837 | computes `CommandValue` |
| Runner.TaskRunner.ResolveArgs | scripts/utils/pip/torizon_templates_utils/tasks.py:869-877 | computes `ArgsValue` |
| Runner.TaskRunner.ResolveCwd | scripts/utils/pip/torizon_templates_utils/tasks.py:897-900 | computes `CwdValue` |
| Runner.TaskRunner.Start | scripts/utils/pip/torizon_templates_utils/tasks.py:913-926 | records one launch with the current environment and directory; succeeds exactly on exit code 0; goes back to the last `cwd` unless the spawn failed |
| Runner.TaskRunner.RunDep | scripts/utils/pip/torizon_templates_utils/tasks.py:855-856 | one dependency's whole tree, in `RunOrder`, stopping at the first failure |
| Runner.TaskRunner.RunDeps | scripts/utils/pip/torizon_templates_utils/tasks.py:850-856 | runs the dependencies in listed order, each one's whole tree before the next; the processes started are a prefix of that order, and all but the last exited with 0 |
| Runner.TaskRunner.Head | scripts/utils/pip/torizon_templates_utils/tasks.py:828-848 | resolves the command, then reads `options`, failing on a raw one |
| Runner.TaskRunner.ReadHead | scripts/utils/pip/torizon_templates_utils/tasks.py:828-848 | reading the command keeps the keys and variables and only consumes stdin; a command that fails to resolve raises its error; a raw `options` raises |
| Runner.TaskRunner.Stage | scripts/utils/pip/torizon_templates_utils/tasks.py:860-905 | computes `Staged`: the launch form, the environment, stdin and the directory |
| Runner.TaskRunner.StageRest | scripts/utils/pip/torizon_templates_utils/tasks.py:883-905 | computes `StagedRest` |
| Runner.TaskRunner.Finish | scripts/utils/pip/torizon_templates_utils/tasks.py:860-926 | the staging, then exactly one launch in the staged form, environment and directory when staging succeeds, none otherwise; success exactly on exit code 0 |
| Runner.TaskRunner.RunOwn | scripts/utils/pip/torizon_templates_utils/tasks.py:860-926 | at most one launch, labelled with the task, running its command in the form its `type` asks for |
| Runner.TaskRunner.RunFound | scripts/utils/pip/torizon_templates_utils/tasks.py:827-926 | the processes started follow `RunOrder`, stopping at the first failure, and on success end with the task's own; a command that fails to resolve, or a raw `options`, raises before any dependency starts |
| Runner.TaskRunner.RunResolved | scripts/utils/pip/torizon_templates_utils/tasks.py:839-926 | the same, and on success the last process runs the resolved command after the GitLab rewrite |
| Runner.TaskRunner.RunTask | scripts/utils/pip/torizon_templates_utils/tasks.py:819-926 | the processes started are a prefix of the dependency tree in `RunOrder`, all but the last exited with 0; on success they are exactly that order, each exited with 0, the task itself last; an unknown label and an exhausted depth raise and start nothing; a command that fails to resolve raises its error before any dependency starts |
| Argv.ArgAt | scripts/utils/pip/torizon_templates_utils/args.py:13 | `sys.argv[index]`, negative indices counting from the end |
| Argv.GetArgNotEmpty | scripts/utils/pip/torizon_templates_utils/args.py:8-21 | returns a non-empty argument, exits with EUSER on an empty one, IndexError out of range |
| Argv.GetOptionalArg | scripts/utils/pip/torizon_templates_utils/args.py:24-41 | the default past the end; a bool reads `True`, `true` or `1` as True; IndexError only for a negative index out of range |
| Argv.GetArgIterative | scripts/utils/pip/torizon_templates_utils/args.py:44-83 | the argument, then the default, then the prompt; exits with EUSER exactly when none of them gives a value |
| Argv.PromptLikeArgv | scripts/utils/pip/torizon_templates_utils/args.py:61-75 | a value typed at the prompt reads like the same value on the command line |
| Argv.FlagSpellings | scripts/utils/pip/torizon_templates_utils/args.py:34-58 | `get_optional_arg` accepts every True of `get_arg_iterative`, and also `true` and `1`, which the latter reads as False |
| Argv.HelpersAgree | scripts/utils/pip/torizon_templates_utils/args.py:8-58 | a non-empty argument comes back the same from all three helpers |

## Left out

- Reading `tasks.json` and `settings.json` from disk: the loaders take the parsed JSON document.
- `json.load` itself is left out: keys are strings and JSON values are a datatype.
- `print`, colours and the debug output of `run_task` are left out: they change no state the model keeps.
- `desc_input`, `desc_task`, `replace_tasks_input` and `BaseTaskConfiguration` are not part of this model. They only print, or rewrite files.
- `__scape_args` is not modelled. `run_task` does not call it (its call is commented out).
- What the started process does is an oracle in `System`.
- The `torizon-io.xsh` call and the reading of `tcbuild.yaml` in `__check_tcb_inputs` are oracles too.
- A `null`, missing, `0` or `false` `tasks` or `inputs` is modelled as an empty list. Python keeps the value as it is, and iterating it (in `list_labels`, `run_task` or an `${input:` reference) then fails with TypeError.
- A list or dict where the resolution passes expect a string (a `command`, an `args` item, an `env` value, a `cwd`) raises TypeError at the first pass, earlier than Python. In Python `in` on a list or dict is a membership test, so such a command gets through all the command passes. A `shell` task then runs the value's repr in its command line, where the model raises instead. A process task raises only inside `subprocess.run`, after its dependencies ran. An `env` value fails at `" ".join`, a `cwd` at `os.chdir`, and an `args` item at the special-character test.
- Labels, ids and `dependsOn` entries are compared as JSON values. Python's `==` also equates `True`, `1` and `1.0`; the model does not.
- Runner.TaskRunner.Start: a failed `os.chdir(_last_cwd)` after the process ran is not modelled. The working directory is restored.
- Runner.TaskRunner.RunTask: the recursion limit is a `depth` parameter. The exact number of frames Python allows per call is not modelled.
- Runner.TaskRunner.RunTask: the answers bound states only that stdin is never extended. It does not state how many lines each input consumes.
- Runner.TaskRunner.RunTask: the contract does not restate the command each process runs. `RunResolved` ties the last process to the resolved command, and `Finish` gives each launch exactly as `Staged` builds it.
- Runner.FindTask: its own contract states only the label; that the task is the first with it is `FindTaskFirst`.
- Resolution.Pick: the prompt text and the list of options printed before it are not modelled.
- Resolution.InputValue: the prompt text printed before a read is not modelled.
- Seeding.Repr: a float is carried as the text Python's `str()` prints for it. Float arithmetic is not modelled.
- Seeding.Repr: `repr` escapes only the characters the model knows. Non-printable Unicode outside ASCII is kept as is.
- Argv.GetArgIterative: the trailing `return default` of `get_arg_iterative` cannot be reached, because `Error_Out` exits. The model has no such outcome.
- Concurrency: a background task (`isBackground`) is modelled only by the ` &` it adds to a shell command line.
