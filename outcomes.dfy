/** The exceptions the task runner raises, one constructor per raise site
    kind, and the result type that carries them. */
module Outcomes {

  datatype Error =
    // loading tasks.json / settings.json
    | NotAnObject(field: string)           // `.keys()` or `.env` on a value that is not a dict
    | DuplicateSelf                        // cls(**kw) with a key "self"
    | MissingArgument(name: string)        // cls(**kw) without a required parameter
    | IllTyped(field: string)              // a JSON object whose key list and entries disagree
    | NotIterable(field: string)           // `for x in v` over a value that is no list, string or dict
    // variable resolution
    | MissingKey(key: string)              // os.environ[key] on an absent key
    | NoneValue                            // `in` applied to None
    | NotAString(field: string)            // `in` or `str.replace` on a loaded value that is no string
    | UnknownInput(id: string)
    | InteractiveInputDisabled
    | NoPickOptions(id: string)            // assert on a pickString without options
    | NotAnOption(id: string)
    | NoneChosen(id: string)               // a pickString option that is null
    | EndOfInput                           // input() on a closed stdin
    | MissingConfig(name: string)
    | MissingEnv(name: string)
    | RegistryQueryFailed                  // torizon-io.xsh exited non-zero
    | NotANumber                           // int() of its output failed
    | ManifestUnreadable                   // tcbuild.yaml could not be opened
    | ManifestKeyMissing                   // output.easy-installer.local absent
    // execution
    | UnknownTask(taskLabel: string)
    | RecursionLimit                       // run_task nested deeper than the interpreter allows
    | ChdirFailed(path: string)
    | SpawnFailed(taskLabel: string)
    | TaskFailed(taskLabel: string, code: int)

  /** The Python exception class each error is raised as. */
  function PythonClass(e: Error): string {
    match e
    case NotAnObject(_) => "AttributeError"
    case DuplicateSelf => "TypeError"
    case MissingArgument(_) => "TypeError"
    case IllTyped(_) => "TypeError"
    case NotIterable(_) => "TypeError"
    case MissingKey(_) => "KeyError"
    case NoneValue => "TypeError"
    case NotAString(_) => "TypeError"
    case UnknownInput(_) => "ReferenceError"
    case InteractiveInputDisabled => "RuntimeError"
    case NoPickOptions(_) => "AssertionError"
    case NotAnOption(_) => "ValueError"
    case NoneChosen(_) => "ValueError"
    case EndOfInput => "EOFError"
    case MissingConfig(_) => "ReferenceError"
    case MissingEnv(_) => "ReferenceError"
    case RegistryQueryFailed => "RuntimeError"
    case NotANumber => "ValueError"
    case ManifestUnreadable => "OSError"
    case ManifestKeyMissing => "RuntimeError"
    case UnknownTask(_) => "ReferenceError"
    case RecursionLimit => "RecursionError"
    case ChdirFailed(_) => "OSError"
    case SpawnFailed(_) => "OSError"
    case TaskFailed(_, _) => "RuntimeError"
  }

  datatype Result<+T> = Ok(value: T) | Raise(error: Error) {
    predicate IsFailure() {
      Raise?
    }

    function PropagateFailure<U>(): Result<U>
      requires Raise?
    {
      Raise(error)
    }

    function Extract(): T
      requires Ok?
    {
      value
    }
  }
}
