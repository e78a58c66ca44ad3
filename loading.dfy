/** Loading tasks.json and settings.json into records: JSON values, dicts
    that keep insertion order, `_cast_from_json` and the three records the
    runner uses (TorizonSettings, InputOptions, TaskDescription). Reading
    and parsing the files is not part of this model: a loaded document is
    given as a `Json` value. */
module Loading {
  import opened Text
  import opened Outcomes

  datatype Json =
    | JNull
    | JBool(b: bool)
    | JInt(i: int)
    | JFloat(text: string)   // the float as Python's str() prints it
    | JStr(s: string)
    | JArray(items: seq<Json>)
    | JObject(obj: Dict)

  /** A Python dict: its keys in insertion order and the value of each. */
  datatype Dict = Dict(keys: seq<string>, values: map<string, Json>)

  const EmptyDict := Dict([], map[])

  /** Python truthiness of a loaded value. */
  predicate Truthy(j: Json) {
    match j
    case JNull => false
    case JBool(b) => b
    case JInt(i) => i != 0
    case JFloat(t) => t != "0.0" && t != "-0.0"
    case JStr(s) => s != ""
    case JArray(items) => items != []
    case JObject(d) => d.keys != []
  }

  /** The characters of a string, each a one-character string. */
  function Chars(s: string): (r: seq<Json>)
    ensures |r| == |s| && forall i :: 0 <= i < |s| ==> r[i] == JStr([s[i]])
  {
    if s == [] then [] else [JStr([s[0]])] + Chars(s[1..])
  }

  /** The keys of a dict, in insertion order. */
  function KeyStrings(ks: seq<string>): (r: seq<Json>)
    ensures |r| == |ks| && forall i :: 0 <= i < |ks| ==> r[i] == JStr(ks[i])
  {
    if ks == [] then [] else [JStr(ks[0])] + KeyStrings(ks[1..])
  }

  /** `for x in j`: a list gives its items, a string its characters, a dict
      its keys; any other value raises TypeError. */
  function Iterated(j: Json, field: string): (r: Result<seq<Json>>)
    ensures j.JArray? ==> r == Ok(j.items)
    ensures j.JStr? ==> r.Ok? && |r.value| == |j.s| && forall i :: 0 <= i < |j.s| ==> r.value[i] == JStr([j.s[i]])
    ensures j.JObject? ==> r.Ok? && |r.value| == |j.obj.keys| && forall i :: 0 <= i < |j.obj.keys| ==> r.value[i] == JStr(j.obj.keys[i])
    ensures r.Raise? <==> j.JNull? || j.JBool? || j.JInt? || j.JFloat?
    ensures r.Raise? ==> r.error == NotIterable(field)
  {
    match j
    case JArray(items) => Ok(items)
    case JStr(s) => Ok(Chars(s))
    case JObject(d) => Ok(KeyStrings(d.keys))
    case _ => Raise(NotIterable(field))
  }

  // ---------------------------------------------------------------------
  // Dicts.

  predicate Distinct(ks: seq<string>) {
    forall i, j :: 0 <= i < j < |ks| ==> ks[i] != ks[j]
  }

  /** The key list names each key of the map exactly once. */
  predicate ValidDict(d: Dict) {
    && Distinct(d.keys)
    && (forall k :: k in d.values ==> k in d.keys)
    && (forall k :: k in d.keys ==> k in d.values)
  }

  /** `d.get(k)`, with None for a missing key. */
  function Lookup(d: Dict, k: string): Json {
    if k in d.values then d.values[k] else JNull
  }

  function Remove(ks: seq<string>, k: string): (r: seq<string>)
    ensures forall x :: x in r <==> x in ks && x != k
    ensures Distinct(ks) ==> Distinct(r)
  {
    if ks == [] then []
    else if ks[0] == k then Remove(ks[1..], k)
    else
      assert Distinct(ks) ==> ks[0] !in ks[1..];
      [ks[0]] + Remove(ks[1..], k)
  }

  function Filter(ks: seq<string>, names: set<string>, keep: bool): (r: seq<string>)
    ensures forall x :: x in r <==> x in ks && (x in names) == keep
    ensures Distinct(ks) ==> Distinct(r)
  {
    if ks == [] then []
    else if (ks[0] in names) == keep then
      assert Distinct(ks) ==> ks[0] !in ks[1..];
      [ks[0]] + Filter(ks[1..], names, keep)
    else Filter(ks[1..], names, keep)
  }

  /** `d.pop(k)`, the dict it leaves. */
  function Pop(d: Dict, k: string): (r: Dict)
    ensures ValidDict(d) ==> ValidDict(r)
  {
    Dict(Remove(d.keys, k), d.values - {k})
  }

  /** `d[k] = v`: an existing key keeps its place, a new key goes last. */
  function Put(d: Dict, k: string, v: Json): (r: Dict)
    requires ValidDict(d)
    ensures ValidDict(r)
    ensures r.values == d.values[k := v]
  {
    Dict(if k in d.values then d.keys else d.keys + [k], d.values[k := v])
  }

  /** The entries whose key is in `names` (when `keep`) or is not (otherwise),
      in their order. */
  function Select(d: Dict, names: set<string>, keep: bool): (r: Dict)
    ensures ValidDict(d) ==> ValidDict(r)
    ensures forall k :: k in r.values <==> k in d.values && (k in names) == keep
    ensures forall k :: k in r.values ==> r.values[k] == d.values[k]
  {
    Dict(Filter(d.keys, names, keep), map k | k in d.values && (k in names) == keep :: d.values[k])
  }

  // ---------------------------------------------------------------------
  // Renaming dotted keys (tasks.py:35-39).

  /** The dict after the first `n` keys of `data` were visited: each dotted
      key was popped and its value stored under the underscored key. */
  function Renamed(data: Dict, n: nat): (r: Dict)
    requires ValidDict(data) && n <= |data.keys|
    ensures ValidDict(r)
  {
    if n == 0 then data
    else
      var d := Renamed(data, n - 1);
      var key := data.keys[n - 1];
      if '.' in key then Put(Pop(d, key), Underscored(key), data.values[key]) else d
  }

  /** The key the `j`-th original key has once the first `n` keys were visited. */
  function KeyAt(ks: seq<string>, n: nat, j: nat): string
    requires j < |ks|
  {
    if j < n then Underscored(ks[j]) else ks[j]
  }

  /** Every value of `d` is the value of an original key with the same
      underscored spelling. */
  predicate ValuesFromData(data: Dict, d: Dict) {
    forall k :: k in d.values ==>
      exists k0 :: k0 in data.values && Underscored(k0) == Underscored(k) && data.values[k0] == d.values[k]
  }

  /** The dotted keys of `d` are the dotted keys of `data` not yet visited,
      with their original values. */
  predicate DottedUnvisited(data: Dict, n: nat, d: Dict) {
    && (forall k :: k in d.values && '.' in k ==> exists j :: n <= j < |data.keys| && data.keys[j] == k)
    && (forall j :: n <= j < |data.keys| && '.' in data.keys[j] ==>
          data.keys[j] in d.values && data.keys[j] in data.values && d.values[data.keys[j]] == data.values[data.keys[j]])
  }

  /** Each key of `data`, as it reads after `n` visits, is a key of `d`. */
  predicate KeysPresent(data: Dict, n: nat, d: Dict) {
    forall j :: 0 <= j < |data.keys| ==> KeyAt(data.keys, n, j) in d.values
  }

  /** Each key of `d` is a key of `data` as it reads after `n` visits. */
  predicate KeysTraced(data: Dict, n: nat, d: Dict) {
    forall k :: k in d.values ==> exists j :: 0 <= j < |data.keys| && k == KeyAt(data.keys, n, j)
  }

  /** The keys of `d` are those of `data` after `n` visits. */
  predicate KeysAfter(data: Dict, n: nat, d: Dict) {
    KeysPresent(data, n, d) && KeysTraced(data, n, d)
  }

  lemma ValuesStep(data: Dict, n: nat)
    requires ValidDict(data) && 0 < n <= |data.keys|
    requires ValuesFromData(data, Renamed(data, n - 1))
    ensures ValuesFromData(data, Renamed(data, n))
  {
    var key := data.keys[n - 1];
    if '.' in key {
      var u := Underscored(key);
      var r := Renamed(data, n);
      forall k | k in r.values
        ensures exists k0 :: k0 in data.values && Underscored(k0) == Underscored(k) && data.values[k0] == r.values[k]
      {
        if k == u {
          assert Underscored(key) == Underscored(k) && data.values[key] == r.values[k];
        }
      }
    }
  }

  lemma DottedStep(data: Dict, n: nat)
    requires ValidDict(data) && 0 < n <= |data.keys|
    requires DottedUnvisited(data, n - 1, Renamed(data, n - 1))
    ensures DottedUnvisited(data, n, Renamed(data, n))
  {
    var r := Renamed(data, n);
    var key := data.keys[n - 1];
    forall k | k in r.values && '.' in k
      ensures exists j :: n <= j < |data.keys| && data.keys[j] == k
    {
      var j :| n - 1 <= j < |data.keys| && data.keys[j] == k;
    }
    forall j | n <= j < |data.keys| && '.' in data.keys[j]
      ensures data.keys[j] in r.values && r.values[data.keys[j]] == data.values[data.keys[j]]
    {
      assert data.keys[j] != key;
    }
  }

  lemma KeysStep(data: Dict, n: nat)
    requires ValidDict(data) && 0 < n <= |data.keys|
    requires KeysAfter(data, n - 1, Renamed(data, n - 1))
    ensures KeysAfter(data, n, Renamed(data, n))
  {
    if '.' in data.keys[n - 1] {
      DottedKeysStep(data, n);
    } else {
      PlainKeysStep(data, n);
    }
  }

  lemma DottedKeysStep(data: Dict, n: nat)
    requires ValidDict(data) && 0 < n <= |data.keys| && '.' in data.keys[n - 1]
    requires KeysAfter(data, n - 1, Renamed(data, n - 1))
    ensures KeysAfter(data, n, Renamed(data, n))
  {
    DottedKeysKept(data, n);
    DottedKeysFrom(data, n);
  }

  lemma DottedKeysKept(data: Dict, n: nat)
    requires ValidDict(data) && 0 < n <= |data.keys| && '.' in data.keys[n - 1]
    requires KeysPresent(data, n - 1, Renamed(data, n - 1))
    ensures KeysPresent(data, n, Renamed(data, n))
  {
    var r := Renamed(data, n);
    var ks := data.keys;
    forall j | 0 <= j < |ks|
      ensures KeyAt(ks, n, j) in r.values
    {
      if j != n - 1 {
        assert KeyAt(ks, n, j) == KeyAt(ks, n - 1, j);
      }
    }
  }

  lemma DottedKeysFrom(data: Dict, n: nat)
    requires ValidDict(data) && 0 < n <= |data.keys| && '.' in data.keys[n - 1]
    requires KeysTraced(data, n - 1, Renamed(data, n - 1))
    ensures KeysTraced(data, n, Renamed(data, n))
  {
    var d := Renamed(data, n - 1);
    var r := Renamed(data, n);
    var ks := data.keys;
    var key := ks[n - 1];
    var u := Underscored(key);
    assert r.values == (d.values - {key})[u := data.values[key]];
    forall k | k in r.values
      ensures exists j :: 0 <= j < |ks| && k == KeyAt(ks, n, j)
    {
      if k == u {
        assert k == KeyAt(ks, n, n - 1);
      } else {
        assert k in d.values && k != key;
        var j :| 0 <= j < |ks| && k == KeyAt(ks, n - 1, j);
        KeyAtStep(ks, n, j, key);
      }
    }
  }

  lemma KeyAtStep(ks: seq<string>, n: nat, j: nat, key: string)
    requires 0 < n <= |ks| && j < |ks| && key == ks[n - 1] && KeyAt(ks, n - 1, j) != key
    ensures KeyAt(ks, n, j) == KeyAt(ks, n - 1, j)
  {
  }

  lemma PlainKeysStep(data: Dict, n: nat)
    requires ValidDict(data) && 0 < n <= |data.keys| && '.' !in data.keys[n - 1]
    requires KeysAfter(data, n - 1, Renamed(data, n - 1))
    ensures KeysAfter(data, n, Renamed(data, n))
  {
    var r := Renamed(data, n);
    var ks := data.keys;
    assert r == Renamed(data, n - 1);
    forall j | 0 <= j < |ks|
      ensures KeyAt(ks, n, j) == KeyAt(ks, n - 1, j)
    {
    }
    forall k | k in r.values
      ensures exists j :: 0 <= j < |ks| && k == KeyAt(ks, n, j)
    {
      var j :| 0 <= j < |ks| && k == KeyAt(ks, n - 1, j);
      assert k == KeyAt(ks, n, j);
    }
  }

  lemma ValuesBase(data: Dict)
    requires ValidDict(data)
    ensures ValuesFromData(data, data)
  {
    forall k | k in data.values
      ensures exists k0 :: k0 in data.values && Underscored(k0) == Underscored(k) && data.values[k0] == data.values[k]
    {
    }
  }

  lemma DottedBase(data: Dict)
    requires ValidDict(data)
    ensures DottedUnvisited(data, 0, data)
  {
    forall k | k in data.values && '.' in k
      ensures exists j :: 0 <= j < |data.keys| && data.keys[j] == k
    {
      var j :| 0 <= j < |data.keys| && data.keys[j] == k;
    }
  }

  lemma KeysBase(data: Dict)
    requires ValidDict(data)
    ensures KeysAfter(data, 0, data)
  {
    forall k | k in data.values
      ensures exists j :: 0 <= j < |data.keys| && k == KeyAt(data.keys, 0, j)
    {
      var j :| 0 <= j < |data.keys| && data.keys[j] == k;
      assert k == KeyAt(data.keys, 0, j);
    }
  }

  /** What `Renamed` keeps part way through the visit. */
  lemma {:induction false} RenamedShape(data: Dict, n: nat)
    requires ValidDict(data) && n <= |data.keys|
    ensures ValuesFromData(data, Renamed(data, n))
    ensures DottedUnvisited(data, n, Renamed(data, n))
    ensures KeysAfter(data, n, Renamed(data, n))
  {
    if n == 0 {
      ValuesBase(data);
      DottedBase(data);
      KeysBase(data);
    } else {
      RenamedShape(data, n - 1);
      ValuesStep(data, n);
      DottedStep(data, n);
      KeysStep(data, n);
    }
  }

  /** Once every key was visited no key holds a dot, every original key is
      present underscored, and every value is that of an original key with
      the same underscored spelling. */
  lemma RenamedComplete(data: Dict)
    requires ValidDict(data)
    ensures forall k :: k in Renamed(data, |data.keys|).values ==> '.' !in k
    ensures forall k :: k in data.values ==> Underscored(k) in Renamed(data, |data.keys|).values
    ensures forall k :: k in Renamed(data, |data.keys|).values ==>
      exists k0 :: k0 in data.values && k == Underscored(k0) && data.values[k0] == Renamed(data, |data.keys|).values[k]
  {
    var r := Renamed(data, |data.keys|);
    RenamedShape(data, |data.keys|);
    forall k | k in data.values
      ensures Underscored(k) in r.values
    {
      var j :| 0 <= j < |data.keys| && data.keys[j] == k;
      assert KeyAt(data.keys, |data.keys|, j) == Underscored(k);
    }
    forall k | k in r.values
      ensures '.' !in k
      ensures exists k0 :: k0 in data.values && k == Underscored(k0) && data.values[k0] == r.values[k]
    {
      var j :| 0 <= j < |data.keys| && k == KeyAt(data.keys, |data.keys|, j);
    }
  }

  /** A key without a dot that no dotted key is renamed onto keeps its value. */
  lemma RenamedKeepsPlainKey(data: Dict, k: string)
    requires ValidDict(data) && k in data.values && '.' !in k
    requires forall k0 :: k0 in data.values && '.' in k0 ==> Underscored(k0) != k
    ensures k in Renamed(data, |data.keys|).values && Renamed(data, |data.keys|).values[k] == data.values[k]
  {
    RenamedComplete(data);
    var r := Renamed(data, |data.keys|);
    assert k in r.values;
    var k0 :| k0 in data.values && k == Underscored(k0) && data.values[k0] == r.values[k];
    if '.' !in k0 {
    }
  }

  /** When the loop reaches a dotted key, the key still holds its
      original value. */
  lemma DottedKeyUntouched(data: Dict, i: nat)
    requires ValidDict(data) && i < |data.keys| && '.' in data.keys[i]
    ensures data.keys[i] in Renamed(data, i).values
    ensures Renamed(data, i).values[data.keys[i]] == data.values[data.keys[i]]
  {
    RenamedShape(data, i);
  }

  /** `_cast_from_json`'s loop over `list(json_data.keys())`, which pops each
      dotted key and stores its value under the underscored key. */
  method RenameDottedKeys(data: Dict) returns (d: Dict)
    requires ValidDict(data)
    ensures d == Renamed(data, |data.keys|)
  {
    var keys := data.keys;
    d := data;
    var i := 0;
    while i < |keys|
      invariant 0 <= i <= |keys|
      invariant d == Renamed(data, i)
    {
      var key := keys[i];
      if '.' in key {
        DottedKeyUntouched(data, i);
        var value := d.values[key];
        d := Put(Pop(d, key), Underscored(key), value);
      }
      i := i + 1;
    }
  }

  // ---------------------------------------------------------------------
  // Binding keyword arguments (tasks.py:41-52).

  /** A constructor's parameters after `self` other than `any`; `required`
      are those without a default, `hasAny` says whether `any` is one. */
  datatype Params = Params(names: seq<string>, required: seq<string>, hasAny: bool)

  /** `inspect.signature(cls.__init__).parameters`, which includes `self`. */
  function Expected(p: Params): set<string> {
    {"self"} + (set n | n in p.names) + (if p.hasAny then {"any"} else {})
  }


  /** The keys the constructor does not declare, gathered for `any`. */
  function Unexpected(d: Dict, p: Params): Dict {
    Select(d, Expected(p), false)
  }

  /** The first required parameter without a value. */
  function MissingRequired(d: Dict, required: seq<string>): (r: Option<string>)
    ensures r.Some? ==> r.value in required && r.value !in d.values
    ensures r.None? ==> forall n :: n in required ==> n in d.values
  {
    if required == [] then None
    else if required[0] !in d.values then Some(required[0])
    else MissingRequired(d, required[1..])
  }

  /** The keyword arguments `cls(**filtered_data)` receives, or the
      TypeError that call raises. */
  function Bind(d: Dict, p: Params): Result<Dict>
    requires ValidDict(d)
  {
    if "self" in d.values then Raise(DuplicateSelf)
    else
      var missing := MissingRequired(d, p.required);
      if missing.Some? then Raise(MissingArgument(missing.value))
      else
        var kw := Select(d, Expected(p), true);
        Ok(if p.hasAny then Put(kw, "any", JObject(Unexpected(d, p))) else kw)
  }

  /** The constructor call fails exactly when `self` is passed twice or a
      required argument is missing. */
  lemma BindOutcome(d: Dict, p: Params)
    requires ValidDict(d)
    ensures Bind(d, p).Ok? <==> "self" !in d.values && forall n :: n in p.required ==> n in d.values
    ensures "self" in d.values ==> Bind(d, p) == Raise(DuplicateSelf)
  {
  }

  /** The constructor receives nothing but its declared parameters and,
      when it has one, `any`. */
  lemma BindKeys(d: Dict, p: Params)
    requires ValidDict(d) && Bind(d, p).Ok?
    ensures ValidDict(Bind(d, p).value)
    ensures forall k :: k in Bind(d, p).value.values ==> k in p.names || (p.hasAny && k == "any")
  {
  }

  /** The constructor receives each declared parameter that was given, with
      its value, and `any` holds the undeclared keys. */
  lemma BindValues(d: Dict, p: Params)
    requires ValidDict(d) && Bind(d, p).Ok?
    ensures forall n :: n in p.names && n != "any" ==> Lookup(Bind(d, p).value, n) == Lookup(d, n)
    ensures p.hasAny ==> Lookup(Bind(d, p).value, "any") == JObject(Unexpected(d, p))
  {
  }

  /** `_cast_from_json(json_data, cls)`: dotted keys renamed, undeclared keys
      dropped or gathered into `any`, then the constructor call. */
  method CastFromJson(data: Dict, p: Params) returns (r: Result<Dict>)
    requires ValidDict(data)
    ensures r == Bind(Renamed(data, |data.keys|), p)
  {
    var renamed := RenameDottedKeys(data);
    r := Bind(renamed, p);
  }

  /** The dict `_cast_from_json` binds from: a JSON object's entries after
      the dotted keys are renamed; nothing for any other value. */
  function Fields(j: Json): Dict {
    if j.JObject? && ValidDict(j.obj) then Renamed(j.obj, |j.obj.keys|) else EmptyDict
  }

  /** What `_cast_from_json(j, cls)` passes to the constructor of `cls`, or
      the error it raises: `.keys()` of a value that is not a dict raises
      AttributeError. A `Dict` whose key list and map disagree is not one
      `json.load` builds; it is refused. */
  function Cast(j: Json, p: Params, field: string): Result<Dict>
  {
    if !j.JObject? then Raise(NotAnObject(field))
    else if !ValidDict(j.obj) then Raise(IllTyped(field))
    else Bind(Renamed(j.obj, |j.obj.keys|), p)
  }

  /** `_cast_from_json` applied to a loaded value. */
  method CastValue(j: Json, p: Params, field: string) returns (r: Result<Dict>)
    ensures r == Cast(j, p, field)
  {
    if !j.JObject? {
      return Raise(NotAnObject(field));
    }
    if !ValidDict(j.obj) {
      return Raise(IllTyped(field));
    }
    r := CastFromJson(j.obj, p);
  }

  /** A JSON object whose key "self" survives renaming cannot be cast:
      `cls(**kw)` gets `self` twice. */
  lemma SelfKeyRejected(j: Json, p: Params, field: string)
    requires j.JObject? && ValidDict(j.obj) && "self" in j.obj.values
    ensures Cast(j, p, field) == Raise(DuplicateSelf)
  {
    RenamedComplete(j.obj);
    assert Underscored("self") == "self";
  }

  /** A key written with dots, as VS Code settings are, reaches the
      constructor under its underscored spelling when no other key is
      renamed onto it. */
  lemma DottedKeyBound(j: Json, p: Params, field: string, k: string)
    requires j.JObject? && ValidDict(j.obj) && k in j.obj.values
    requires Underscored(k) in p.names && Underscored(k) != "any"
    requires forall k0 :: k0 in j.obj.values && k0 != k ==> Underscored(k0) != Underscored(k)
    requires Cast(j, p, field).Ok?
    ensures Lookup(Cast(j, p, field).value, Underscored(k)) == j.obj.values[k]
  {
    RenamedComplete(j.obj);
    var d := Renamed(j.obj, |j.obj.keys|);
    var k0 :| k0 in j.obj.values && Underscored(k) == Underscored(k0) && j.obj.values[k0] == d.values[Underscored(k)];
    BindValues(d, p);
  }

  // ---------------------------------------------------------------------
  // Records.

  /** The settings TorizonSettings declares, in declaration order. */
  const SettingNames: seq<string> := [
    "torizon_psswd", "torizon_login", "torizon_ip", "torizon_ssh_port", "host_ip",
    "torizon_workspace", "torizon_debug_ssh_port", "torizon_debug_port1",
    "torizon_debug_port2", "torizon_debug_port3", "torizon_gpu", "torizon_arch",
    "wait_sync", "torizon_run_as", "torizon_app_root", "docker_tag",
    "tcb_packageName", "tcb_version", "torizon_gpuPrefixRC"]

  const SettingsParams := Params(SettingNames, [], true)

  /** TorizonSettings: the declared settings that were given, and `any`,
      the other keys in their order. */
  datatype TorizonSettings = TorizonSettings(fields: map<string, Json>, any: Dict)

  /** `getattr(settings, name)`: a declared setting not given is None. */
  function Setting(s: TorizonSettings, name: string): Json {
    if name in s.fields then s.fields[name] else JNull
  }

  /** Settings as the loader builds them: `any` is a dict none of whose
      keys is a declared setting, `any` or `self`. */
  predicate SettingsWellFormed(s: TorizonSettings) {
    && ValidDict(s.any)
    && (forall k :: k in s.fields ==> k in SettingNames)
    && (forall k :: k in s.any.values ==> k !in SettingNames && k != "any" && k != "self")
  }

  /** The settings hold the arguments their constructor received. */
  predicate SettingsFrom(kw: Dict, s: TorizonSettings) {
    && (forall n :: n in SettingNames ==> Setting(s, n) == Lookup(kw, n))
    && Lookup(kw, "any") == JObject(s.any)
  }

  /** `_cast_from_json(settings_json, TorizonSettings)`. */
  method LoadSettings(doc: Json) returns (r: Result<TorizonSettings>)
    ensures r.Ok? <==> Cast(doc, SettingsParams, "settings").Ok?
    ensures r.Raise? ==> r.error == Cast(doc, SettingsParams, "settings").error
    ensures r.Ok? ==> SettingsFrom(Cast(doc, SettingsParams, "settings").value, r.value)
    ensures r.Ok? ==> SettingsWellFormed(r.value)
  {
    var kw :- CastValue(doc, SettingsParams, "settings");
    ghost var d := Renamed(doc.obj, |doc.obj.keys|);
    var any := Lookup(kw, "any").obj;
    assert any == Unexpected(d, SettingsParams);
    var fields := map n | n in SettingNames && n in kw.values :: kw.values[n];
    r := Ok(TorizonSettings(fields, any));
    forall k | k in any.values
      ensures k !in SettingNames && k != "any" && k != "self"
    {
      assert k !in Expected(SettingsParams);
    }
  }

  /** A key of the object `j` that reaches the constructor under its own
      name: it has no dot and no other key is renamed onto it. */
  predicate Unrenamed(j: Json, k: string) {
    && j.JObject?
    && k in j.obj.values && '.' !in k
    && forall k0 :: k0 in j.obj.values && k0 != k ==> Underscored(k0) != k
  }

  /** No key of the object `j` is renamed onto `k`, nor spelled `k`. */
  predicate Absent(j: Json, k: string) {
    j.JObject? && forall k0 :: k0 in j.obj.values ==> Underscored(k0) != k
  }

  /** A parameter given under its own name receives its value. */
  lemma CastPlain(j: Json, p: Params, field: string, k: string)
    requires Cast(j, p, field).Ok? && Unrenamed(j, k) && k in p.names && k != "any"
    ensures k in Cast(j, p, field).value.values && Cast(j, p, field).value.values[k] == j.obj.values[k]
  {
    RenamedKeepsPlainKey(j.obj, k);
    var d := Renamed(j.obj, |j.obj.keys|);
    assert k in Expected(p);
  }

  /** A parameter no key names is left to its default. */
  lemma CastAbsent(j: Json, p: Params, field: string, k: string)
    requires Cast(j, p, field).Ok? && Absent(j, k) && k != "any"
    ensures k !in Cast(j, p, field).value.values
  {
    RenamedComplete(j.obj);
    var d := Renamed(j.obj, |j.obj.keys|);
    assert k !in d.values;
  }

  /** InputOptions keeps every argument as loaded; only `id` and
      `description` are required. */
  datatype InputOptions = InputOptions(
    id: Json,
    description: Json,
    default: Json,
    kind: Json,          // `type`
    options: Json)

  const InputParams := Params(["id", "description", "default", "type", "options"], ["id", "description"], false)

  /** `InputOptions(**kw)`: `type` defaults to "promptString", `default`
      and `options` to None. */
  function InputFromArgs(kw: Dict): InputOptions {
    InputOptions(Lookup(kw, "id"), Lookup(kw, "description"), Lookup(kw, "default"),
                 if "type" in kw.values then kw.values["type"] else JStr("promptString"),
                 Lookup(kw, "options"))
  }

  /** `_cast_from_json(j, InputOptions)`: the input built, or the error
      raised. The constructor checks no type, so an input fails to load
      exactly when its cast fails, and with the cast's error. */
  function InputResult(j: Json): (r: Result<InputOptions>)
    ensures r.Ok? <==> Cast(j, InputParams, "inputs").Ok?
    ensures r.Raise? ==> r.error == Cast(j, InputParams, "inputs").error
  {
    var kw :- Cast(j, InputParams, "inputs");
    Ok(InputFromArgs(kw))
  }

  /** A value of any type given under a parameter's own name is kept as
      loaded. */
  lemma InputFromArgsMeaning(j: Json)
    requires InputResult(j).Ok?
    ensures Unrenamed(j, "id") ==> InputResult(j).value.id == j.obj.values["id"]
    ensures Unrenamed(j, "default") ==> InputResult(j).value.default == j.obj.values["default"]
    ensures Unrenamed(j, "options") ==> InputResult(j).value.options == j.obj.values["options"]
    ensures Unrenamed(j, "type") ==> InputResult(j).value.kind == j.obj.values["type"]
  {
    if Unrenamed(j, "id") { CastPlain(j, InputParams, "inputs", "id"); }
    if Unrenamed(j, "default") { CastPlain(j, InputParams, "inputs", "default"); }
    if Unrenamed(j, "options") { CastPlain(j, InputParams, "inputs", "options"); }
    if Unrenamed(j, "type") { CastPlain(j, InputParams, "inputs", "type"); }
  }

  /** An input's `type` left out is "promptString"; `default` and `options`
      left out are None. */
  lemma InputDefaults(j: Json)
    requires InputResult(j).Ok?
    ensures Absent(j, "default") ==> InputResult(j).value.default == JNull
    ensures Absent(j, "options") ==> InputResult(j).value.options == JNull
    ensures Absent(j, "type") ==> InputResult(j).value.kind == JStr("promptString")
  {
    if Absent(j, "default") { CastAbsent(j, InputParams, "inputs", "default"); }
    if Absent(j, "options") { CastAbsent(j, InputParams, "inputs", "options"); }
    if Absent(j, "type") { CastAbsent(j, InputParams, "inputs", "type"); }
  }

  /** `_cast_from_json(_input, InputOptions)`. */
  method LoadInput(j: Json) returns (r: Result<InputOptions>)
    ensures r == InputResult(j)
  {
    var kw :- CastValue(j, InputParams, "inputs");
    r := Ok(InputFromArgs(kw));
  }

  /** CommandOptions: `cwd` and `env` as loaded. */
  datatype CommandOptions = CommandOptions(cwd: Json, env: Json)

  /** `TaskDescription.options`: None; a falsy value kept as it is, which
      has no `env`; or the cast CommandOptions. */
  datatype TaskOptions = NoOptions | RawOptions | Options(opts: CommandOptions)

  /** TaskDescription keeps its arguments as loaded, except that `hide`
      and `isBackground` are only ever tested for truth. */
  datatype TaskDescription = TaskDescription(
    taskLabel: Json,
    kind: Json,                    // `type`; only "shell" is told apart
    command: Json,
    hide: bool,
    isBackground: bool,
    args: Json,
    options: TaskOptions,
    dependsOn: Json)

  const TaskParams := Params(
    ["label", "type", "command", "hide", "isBackground", "args", "options", "group",
     "presentation", "problemMatcher", "runOptions", "dependsOrder", "dependsOn", "icon"],
    ["label", "type", "command"], false)
  const CommandParams := Params(["cwd", "env", "shell"], [], false)
  const ShellParams := Params(["executable", "args"], ["executable", "args"], false)
  const PresentationParams := Params(["reveal", "echo", "focus", "panel", "showReuseMessage", "clear", "group"], [], false)
  const RunOptionsParams := Params(["reevaluateOnRerun", "runOn"], [], false)
  const IconParams := Params(["id", "color"], ["id", "color"], false)

  /** `if x: self.x = _cast_from_json(x, cls)` for a nested record the model
      keeps only for the errors its cast raises; a falsy value is kept as it is. */
  function Nested(j: Json, p: Params, field: string): (r: Result<()>)
    ensures r.Ok? <==> !Truthy(j) || Cast(j, p, field).Ok?
  {
    if !Truthy(j) then Ok(())
    else
      var kw :- Cast(j, p, field);
      Ok(())
  }

  /** `CommandOptions(**kw)` with the nested `shell` cast: it fails only
      when that cast fails, and keeps `cwd` and `env` as given. */
  function CommandOptionsFromArgs(kw: Dict): (r: Result<CommandOptions>)
    ensures r.Ok? <==> Nested(Lookup(kw, "shell"), ShellParams, "shell").Ok?
    ensures r.Ok? ==> r.value.cwd == Lookup(kw, "cwd") && r.value.env == Lookup(kw, "env")
  {
    var shell :- Nested(Lookup(kw, "shell"), ShellParams, "shell");
    Ok(CommandOptions(Lookup(kw, "cwd"), Lookup(kw, "env")))
  }

  /** `if options: self.options = _cast_from_json(options, CommandOptions)`:
      None stays None, another falsy value (such as `{}`) stays raw. */
  function TaskOptionsFrom(j: Json): (r: Result<TaskOptions>)
    ensures !Truthy(j) ==> r == Ok(if j.JNull? then NoOptions else RawOptions)
    ensures Truthy(j) && !j.JObject? ==> r == Raise(NotAnObject("options"))
    ensures Truthy(j) && r.Ok? ==>
      && r.value.Options?
      && Cast(j, CommandParams, "options").Ok?
      && CommandOptionsFromArgs(Cast(j, CommandParams, "options").value) == Ok(r.value.opts)
  {
    if j.JNull? then Ok(NoOptions)
    else if !Truthy(j) then Ok(RawOptions)
    else
      var kw :- Cast(j, CommandParams, "options");
      var opts :- CommandOptionsFromArgs(kw);
      Ok(Options(opts))
  }

  /** The task holds the arguments its constructor received. */
  predicate TaskFrom(kw: Dict, t: TaskDescription) {
    && t.taskLabel == Lookup(kw, "label")
    && t.command == Lookup(kw, "command")
    && t.kind == Lookup(kw, "type")
    && t.hide == Truthy(Lookup(kw, "hide"))
    && t.isBackground == Truthy(Lookup(kw, "isBackground"))
    && t.args == Lookup(kw, "args")
    && t.dependsOn == Lookup(kw, "dependsOn")
    && TaskOptionsFrom(Lookup(kw, "options")) == Ok(t.options)
  }

  /** `TaskDescription(**kw)` with its nested casts (options, presentation,
      runOptions, icon, in that order). */
  function TaskFromArgs(kw: Dict): Result<TaskDescription>
  {
    var options :- TaskOptionsFrom(Lookup(kw, "options"));
    var presentation :- Nested(Lookup(kw, "presentation"), PresentationParams, "presentation");
    var runOptions :- Nested(Lookup(kw, "runOptions"), RunOptionsParams, "runOptions");
    var icon :- Nested(Lookup(kw, "icon"), IconParams, "icon");
    Ok(TaskDescription(Lookup(kw, "label"), Lookup(kw, "type"), Lookup(kw, "command"), Truthy(Lookup(kw, "hide")),
                       Truthy(Lookup(kw, "isBackground")), Lookup(kw, "args"), options, Lookup(kw, "dependsOn")))
  }

  /** A task is built exactly when every nested cast succeeds, and it holds
      the arguments its constructor received, whatever their type. */
  lemma TaskFromArgsMeaning(kw: Dict)
    ensures TaskFromArgs(kw).Ok? <==>
      && TaskOptionsFrom(Lookup(kw, "options")).Ok?
      && Nested(Lookup(kw, "presentation"), PresentationParams, "presentation").Ok?
      && Nested(Lookup(kw, "runOptions"), RunOptionsParams, "runOptions").Ok?
      && Nested(Lookup(kw, "icon"), IconParams, "icon").Ok?
    ensures TaskFromArgs(kw).Ok? ==> TaskFrom(kw, TaskFromArgs(kw).value)
    ensures Truthy(Lookup(kw, "options")) && !Lookup(kw, "options").JObject? ==>
      TaskFromArgs(kw) == Raise(NotAnObject("options"))
  {
  }

  /** `_cast_from_json(j, TaskDescription)`: the task built, or the error raised. */
  function TaskResult(j: Json): Result<TaskDescription> {
    var kw :- Cast(j, TaskParams, "tasks");
    TaskFromArgs(kw)
  }

  /** A task's label, type, command, args and dependsOn, given under their
      own names, are kept as loaded, whatever their type. */
  lemma TaskFieldsAsGiven(j: Json)
    requires TaskResult(j).Ok?
    ensures Unrenamed(j, "label") ==> TaskResult(j).value.taskLabel == j.obj.values["label"]
    ensures Unrenamed(j, "type") ==> TaskResult(j).value.kind == j.obj.values["type"]
    ensures Unrenamed(j, "command") ==> TaskResult(j).value.command == j.obj.values["command"]
    ensures Unrenamed(j, "args") ==> TaskResult(j).value.args == j.obj.values["args"]
    ensures Unrenamed(j, "dependsOn") ==> TaskResult(j).value.dependsOn == j.obj.values["dependsOn"]
  {
    var kw := Cast(j, TaskParams, "tasks").value;
    TaskFromArgsMeaning(kw);
    if Unrenamed(j, "label") { CastPlain(j, TaskParams, "tasks", "label"); }
    if Unrenamed(j, "type") { CastPlain(j, TaskParams, "tasks", "type"); }
    if Unrenamed(j, "command") { CastPlain(j, TaskParams, "tasks", "command"); }
    if Unrenamed(j, "args") { CastPlain(j, TaskParams, "tasks", "args"); }
    if Unrenamed(j, "dependsOn") { CastPlain(j, TaskParams, "tasks", "dependsOn"); }
  }

  /** A task without `args` or without `dependsOn` gets None for it. */
  lemma TaskFieldsDefault(j: Json)
    requires TaskResult(j).Ok?
    ensures Absent(j, "args") ==> TaskResult(j).value.args == JNull
    ensures Absent(j, "dependsOn") ==> TaskResult(j).value.dependsOn == JNull
  {
    var kw := Cast(j, TaskParams, "tasks").value;
    TaskFromArgsMeaning(kw);
    if Absent(j, "args") { CastAbsent(j, TaskParams, "tasks", "args"); }
    if Absent(j, "dependsOn") { CastAbsent(j, TaskParams, "tasks", "dependsOn"); }
  }

  /** `_cast_from_json(task, TaskDescription)`. */
  method LoadTask(j: Json) returns (r: Result<TaskDescription>)
    ensures r == TaskResult(j)
  {
    var kw :- CastValue(j, TaskParams, "tasks");
    r := TaskFromArgs(kw);
  }

  const ConfigurationParams := Params(["version", "tasks", "inputs", "windows", "osx", "linux"], [], false)

  /** The entries a TaskConfiguration casts one by one: a falsy value gives
      none; a truthy one is iterated, so a string gives its characters and
      an object its keys, each of which then fails to cast. */
  function Entries(j: Json, field: string): (r: Result<seq<Json>>)
    ensures !Truthy(j) ==> r == Ok([])
    ensures Truthy(j) ==> r == Iterated(j, field)
  {
    if !Truthy(j) then Ok([]) else Iterated(j, field)
  }

  /** The first `|ys|` elements of `xs` were cast, by `cast`, into `ys`. */
  predicate CastPrefix<A, B(==)>(cast: A -> Result<B>, xs: seq<A>, ys: seq<B>) {
    |ys| <= |xs| && forall t :: 0 <= t < |ys| ==> cast(xs[t]) == Ok(ys[t])
  }

  /** `cast` fails on `xs[t]`, the first element it fails on, with `e`. */
  predicate FirstFailure<A, B>(cast: A -> Result<B>, xs: seq<A>, t: int, e: Error) {
    0 <= t < |xs| && (forall u :: 0 <= u < t ==> cast(xs[u]).Ok?) && cast(xs[t]) == Raise(e)
  }

  lemma CastPrefixExtend<A, B>(cast: A -> Result<B>, xs: seq<A>, ys: seq<B>, y: B)
    requires CastPrefix(cast, xs, ys) && |ys| < |xs| && cast(xs[|ys|]) == Ok(y)
    ensures CastPrefix(cast, xs, ys + [y])
  {
    var more := ys + [y];
    forall t | 0 <= t < |more|
      ensures cast(xs[t]) == Ok(more[t])
    {
      if t < |ys| {
        assert more[t] == ys[t];
      }
    }
  }

  /** `[_cast_from_json(task, TaskDescription) for task in tasks]`: every
      task cast in order, or the error of the first that fails. */
  method LoadTasks(ts: seq<Json>) returns (r: Result<seq<TaskDescription>>)
    ensures r.Ok? ==> |r.value| == |ts| && CastPrefix(TaskResult, ts, r.value)
    ensures r.Raise? ==> exists t :: FirstFailure(TaskResult, ts, t, r.error)
  {
    var tasks: seq<TaskDescription> := [];
    while |tasks| < |ts|
      invariant CastPrefix(TaskResult, ts, tasks)
      decreases |ts| - |tasks|
    {
      var task := LoadTask(ts[|tasks|]);
      if task.Raise? {
        assert FirstFailure(TaskResult, ts, |tasks|, task.error);
        return Raise(task.error);
      }
      CastPrefixExtend(TaskResult, ts, tasks, task.value);
      tasks := tasks + [task.value];
    }
    r := Ok(tasks);
  }

  /** `[_cast_from_json(_input, InputOptions) for _input in inputs]`. */
  method LoadInputs(ins: seq<Json>) returns (r: Result<seq<InputOptions>>)
    ensures r.Ok? ==> |r.value| == |ins| && CastPrefix(InputResult, ins, r.value)
    ensures r.Raise? ==> exists t :: FirstFailure(InputResult, ins, t, r.error)
  {
    var inputs: seq<InputOptions> := [];
    while |inputs| < |ins|
      invariant CastPrefix(InputResult, ins, inputs)
      decreases |ins| - |inputs|
    {
      var input := LoadInput(ins[|inputs|]);
      if input.Raise? {
        assert FirstFailure(InputResult, ins, |inputs|, input.error);
        return Raise(input.error);
      }
      CastPrefixExtend(InputResult, ins, inputs, input.value);
      inputs := inputs + [input.value];
    }
    r := Ok(inputs);
  }

  /** `_cast_from_json(tasks_json, TaskConfiguration)`: the tasks are cast
      before `inputs` is even iterated, so an error in a task is the one
      raised. Labels are not checked for uniqueness. */
  method LoadTaskConfiguration(doc: Json) returns (r: Result<(seq<TaskDescription>, seq<InputOptions>)>)
    ensures r.Ok? ==> Cast(doc, ConfigurationParams, "tasks.json").Ok?
    ensures r.Ok? ==> var kw := Cast(doc, ConfigurationParams, "tasks.json").value;
      && Entries(Lookup(kw, "tasks"), "tasks").Ok?
      && var ts := Entries(Lookup(kw, "tasks"), "tasks").value;
      && |r.value.0| == |ts| && CastPrefix(TaskResult, ts, r.value.0)
    ensures r.Ok? ==> var kw := Cast(doc, ConfigurationParams, "tasks.json").value;
      && Entries(Lookup(kw, "inputs"), "inputs").Ok?
      && var ins := Entries(Lookup(kw, "inputs"), "inputs").value;
      && |r.value.1| == |ins| && CastPrefix(InputResult, ins, r.value.1)
    ensures Cast(doc, ConfigurationParams, "tasks.json").Ok? ==>
      var kw := Cast(doc, ConfigurationParams, "tasks.json").value;
      var ts := Entries(Lookup(kw, "tasks"), "tasks");
      ts.Ok? && (exists t :: 0 <= t < |ts.value| && TaskResult(ts.value[t]).Raise?) ==>
        r.Raise? && exists t :: FirstFailure(TaskResult, ts.value, t, r.error)
    ensures Cast(doc, ConfigurationParams, "tasks.json").Raise? ==>
      r == Raise(Cast(doc, ConfigurationParams, "tasks.json").error)
    ensures Cast(doc, ConfigurationParams, "tasks.json").Ok? ==>
      var kw := Cast(doc, ConfigurationParams, "tasks.json").value;
      var ts := Entries(Lookup(kw, "tasks"), "tasks");
      ts.Raise? ==> r == Raise(ts.error)
    ensures Cast(doc, ConfigurationParams, "tasks.json").Ok? ==>
      var kw := Cast(doc, ConfigurationParams, "tasks.json").value;
      var ts := Entries(Lookup(kw, "tasks"), "tasks");
      var ins := Entries(Lookup(kw, "inputs"), "inputs");
      ts.Ok? && (forall t :: 0 <= t < |ts.value| ==> TaskResult(ts.value[t]).Ok?) ==>
        && (ins.Raise? ==> r == Raise(ins.error))
        && (ins.Ok? && (exists t :: 0 <= t < |ins.value| && InputResult(ins.value[t]).Raise?) ==>
              r.Raise? && exists t :: FirstFailure(InputResult, ins.value, t, r.error))
        && (ins.Ok? && (forall t :: 0 <= t < |ins.value| ==> InputResult(ins.value[t]).Ok?) ==>
              r.Ok?)
  {
    var kw :- CastValue(doc, ConfigurationParams, "tasks.json");
    var ts :- Entries(Lookup(kw, "tasks"), "tasks");
    var tasks :- LoadTasks(ts);
    var ins :- Entries(Lookup(kw, "inputs"), "inputs");
    var inputs :- LoadInputs(ins);
    r := Ok((tasks, inputs));
  }
}
