/** Publishing the settings into the environment (tasks.py:455-467): each
    attribute of the loaded TorizonSettings that is not None becomes
    `config:<name>` = `f"{value}"`, and each entry of `any` whose value is a
    str, int (bool included) or float becomes `config:<key>` = `str(value)`. */
module Seeding {
  import opened Text
  import opened Loading

  type Env = map<string, string>

  // ---------------------------------------------------------------------
  // Python's str() and repr() of loaded JSON values.

  /** The escape `repr` writes for a character inside a quoted string. */
  function EscapeChar(c: char, quote: char): string {
    if c == quote || c == '\\' then ['\\', c]
    else if c == '\n' then "\\n"
    else if c == '\r' then "\\r"
    else if c == '\t' then "\\t"
    else if c < ' ' || c as int == 127 then "\\x" + [HexDigit(c as int / 16), HexDigit(c as int % 16)]
    else [c]
  }

  function HexDigit(d: int): char
    requires 0 <= d < 16
  {
    "0123456789abcdef"[d]
  }

  function Escaped(s: string, quote: char): string {
    if s == [] then "" else EscapeChar(s[0], quote) + Escaped(s[1..], quote)
  }

  /** `repr(s)`: single quotes unless the string holds a single quote and
      no double quote. */
  function StrRepr(s: string): (r: string)
    ensures |r| >= 2 && r[0] == r[|r| - 1] && (r[0] == '\'' || r[0] == '"')
  {
    var quote := if '\'' in s && '"' !in s then '"' else '\'';
    [quote] + Escaped(s, quote) + [quote]
  }

  /** `repr(j)` of a value `json.load` builds: its first and last
      characters tell a string, a list and a dict apart. */
  function Repr(j: Json): (r: string)
    ensures j.JStr? ==> |r| >= 2 && r[0] == r[|r| - 1] && (r[0] == '\'' || r[0] == '"')
    ensures j.JArray? ==> |r| >= 2 && r[0] == '[' && r[|r| - 1] == ']'
    ensures j.JObject? ==> |r| >= 2 && r[0] == '{' && r[|r| - 1] == '}'
  {
    match j
    case JNull => "None"
    case JBool(b) => if b then "True" else "False"
    case JInt(i) => IntToDecimal(i)
    case JFloat(t) => t
    case JStr(s) => StrRepr(s)
    case JArray(items) =>
      "[" + Join(seq(|items|, i requires 0 <= i < |items| => Repr(items[i])), ", ") + "]"
    case JObject(d) =>
      "{" + Join(seq(|d.keys|, i requires 0 <= i < |d.keys| =>
                   StrRepr(d.keys[i]) + ": " + (if d.keys[i] in d.values then Repr(d.values[d.keys[i]]) else "None")),
                 ", ") + "}"
  }

  /** `str(j)`, which is `f"{j}"`: a string is itself, anything else its repr. */
  function PyStr(j: Json): string {
    if j.JStr? then j.s else Repr(j)
  }

  /** A character `repr` writes as itself inside single quotes. */
  predicate PlainInRepr(c: char) {
    c != '\'' && c != '\\' && c >= ' ' && c as int != 127
  }

  /** A string of such characters is escaped to itself. */
  lemma {:induction false} EscapedPlain(s: string)
    requires forall i :: 0 <= i < |s| ==> PlainInRepr(s[i])
    ensures Escaped(s, '\'') == s
  {
    if s != [] {
      EscapedPlain(s[1..]);
    }
  }

  /** `repr` of such a string is the string in single quotes. */
  lemma StrReprPlain(s: string)
    requires forall i :: 0 <= i < |s| ==> PlainInRepr(s[i])
    ensures StrRepr(s) == "'" + s + "'"
  {
    EscapedPlain(s);
  }

  /** `str()` of a list of one plain string, as a list setting is
      published: the list's repr, not the string. */
  lemma PyStrList(s: string)
    requires forall i :: 0 <= i < |s| ==> PlainInRepr(s[i])
    ensures PyStr(JArray([JStr(s)])) == "['" + s + "']"
    ensures PyStr(JStr(s)) == s
  {
    StrReprPlain(s);
    var items := [JStr(s)];
    var parts := seq(|items|, i requires 0 <= i < |items| => Repr(items[i]));
    assert parts[0] == StrRepr(s);
    assert parts == [StrRepr(s)];
    assert Join(parts, ", ") == StrRepr(s);
  }

  /** `isinstance(v, (str, int, float))`; a bool is an int. */
  predicate Scalar(j: Json) {
    j.JStr? || j.JInt? || j.JBool? || j.JFloat?
  }

  // ---------------------------------------------------------------------
  // Writes to the environment.

  /** The environment after the writes, in order. */
  function Apply(env: Env, ws: seq<(string, string)>): Env {
    if ws == [] then env
    else
      var last := ws[|ws| - 1];
      Apply(env, ws[..|ws| - 1])[last.0 := last.1]
  }

  /** The writes add exactly the keys they name. */
  lemma {:induction false} ApplyKeys(env: Env, ws: seq<(string, string)>)
    ensures Apply(env, ws).Keys == env.Keys + set w | w in ws :: w.0
  {
    if ws != [] {
      var last := ws[|ws| - 1];
      ApplyKeys(env, ws[..|ws| - 1]);
      assert ws == ws[..|ws| - 1] + [last];
    }
  }

  lemma {:induction false} ApplyAppend(env: Env, ws: seq<(string, string)>, vs: seq<(string, string)>)
    ensures Apply(env, ws + vs) == Apply(Apply(env, ws), vs)
  {
    if vs != [] {
      assert (ws + vs)[..|ws + vs| - 1] == ws + vs[..|vs| - 1];
      ApplyAppend(env, ws, vs[..|vs| - 1]);
    } else {
      assert ws + vs == ws;
    }
  }

  /** One more write. */
  lemma ApplyStep(env: Env, ws: seq<(string, string)>, i: nat)
    requires i < |ws|
    ensures Apply(env, ws[..i + 1]) == Apply(env, ws[..i])[ws[i].0 := ws[i].1]
  {
    assert ws[..i + 1][..i] == ws[..i];
  }

  /** A key no write names keeps its value. */
  lemma {:induction false} ApplyUntouched(env: Env, ws: seq<(string, string)>, k: string)
    requires forall i :: 0 <= i < |ws| ==> ws[i].0 != k
    ensures k in Apply(env, ws) <==> k in env
    ensures k in env ==> Apply(env, ws)[k] == env[k]
  {
    if ws != [] {
      ApplyUntouched(env, ws[..|ws| - 1], k);
    }
  }

  /** A key takes the value of the last write that names it. */
  lemma {:induction false} ApplyLast(env: Env, ws: seq<(string, string)>, i: nat)
    requires i < |ws|
    requires forall j :: i < j < |ws| ==> ws[j].0 != ws[i].0
    ensures ws[i].0 in Apply(env, ws) && Apply(env, ws)[ws[i].0] == ws[i].1
  {
    if i < |ws| - 1 {
      ApplyLast(env, ws[..|ws| - 1], i);
    }
  }

  /** Writes to distinct keys all land. */
  lemma ApplyDistinct(env: Env, ws: seq<(string, string)>)
    requires forall i, j :: 0 <= i < j < |ws| ==> ws[i].0 != ws[j].0
    ensures forall i :: 0 <= i < |ws| ==> ws[i].0 in Apply(env, ws) && Apply(env, ws)[ws[i].0] == ws[i].1
  {
    forall i | 0 <= i < |ws|
      ensures ws[i].0 in Apply(env, ws) && Apply(env, ws)[ws[i].0] == ws[i].1
    {
      ApplyLast(env, ws, i);
    }
  }

  /** The items of `settings.__dict__`, in attribute order: the declared
      settings and then `any`. */
  function Attributes(s: TorizonSettings): (r: seq<(string, Json)>)
    ensures |r| == |SettingNames| + 1
    ensures forall i :: 0 <= i < |SettingNames| ==> r[i] == (SettingNames[i], Setting(s, SettingNames[i]))
    ensures r[|SettingNames|] == ("any", JObject(s.any))
  {
    seq(|SettingNames|, i requires 0 <= i < |SettingNames| => (SettingNames[i], Setting(s, SettingNames[i])))
    + [("any", JObject(s.any))]
  }

  /** The writes of the first loop of `__settings_to_env`. */
  function AttributeWrites(items: seq<(string, Json)>): seq<(string, string)> {
    if items == [] then []
    else
      var last := items[|items| - 1];
      AttributeWrites(items[..|items| - 1])
      + (if last.1 != JNull then [("config:" + last.0, PyStr(last.1))] else [])
  }

  /** The writes of the second loop, over `settings.any`. */
  function AnyWrites(any: Dict, keys: seq<string>): seq<(string, string)> {
    if keys == [] then []
    else
      var k := keys[|keys| - 1];
      AnyWrites(any, keys[..|keys| - 1])
      + (if k in any.values && Scalar(any.values[k]) then [("config:" + k, PyStr(any.values[k]))] else [])
  }

  /** One more attribute: its write, if any, lands on the environment so far. */
  lemma AttributeWritesStep(env: Env, items: seq<(string, Json)>, i: nat)
    requires i < |items|
    ensures Apply(env, AttributeWrites(items[..i + 1])) ==
      if items[i].1 != JNull then Apply(env, AttributeWrites(items[..i]))["config:" + items[i].0 := PyStr(items[i].1)]
      else Apply(env, AttributeWrites(items[..i]))
  {
    assert items[..i + 1][..i] == items[..i];
    var ws := AttributeWrites(items[..i + 1]);
    if items[i].1 != JNull {
      assert ws[..|ws| - 1] == AttributeWrites(items[..i]);
    } else {
      assert ws == AttributeWrites(items[..i]);
    }
  }

  lemma AnyWritesStep(env: Env, any: Dict, keys: seq<string>, j: nat)
    requires j < |keys|
    ensures Apply(env, AnyWrites(any, keys[..j + 1])) ==
      if keys[j] in any.values && Scalar(any.values[keys[j]])
      then Apply(env, AnyWrites(any, keys[..j]))["config:" + keys[j] := PyStr(any.values[keys[j]])]
      else Apply(env, AnyWrites(any, keys[..j]))
  {
    assert keys[..j + 1][..j] == keys[..j];
    var ws := AnyWrites(any, keys[..j + 1]);
    if keys[j] in any.values && Scalar(any.values[keys[j]]) {
      assert ws[..|ws| - 1] == AnyWrites(any, keys[..j]);
    } else {
      assert ws == AnyWrites(any, keys[..j]);
    }
  }

  function SeedWrites(s: TorizonSettings): seq<(string, string)> {
    AttributeWrites(Attributes(s)) + AnyWrites(s.any, s.any.keys)
  }

  // ---------------------------------------------------------------------
  // What seeding publishes.

  lemma ConfigKeyInjective(a: string, b: string)
    requires "config:" + a == "config:" + b
    ensures a == b
  {
    assert a == ("config:" + a)[7..];
  }

  /** Every write of the first loop names `config:<attribute>` for an
      attribute whose value is not None, with `str` of that value, and every
      such attribute is written. */
  lemma {:induction false} AttributeWritesShape(items: seq<(string, Json)>)
    ensures forall w :: w in AttributeWrites(items) ==>
      exists i :: 0 <= i < |items| && items[i].1 != JNull && w == ("config:" + items[i].0, PyStr(items[i].1))
  {
    if items != [] {
      AttributeWritesShape(items[..|items| - 1]);
    }
  }

  lemma {:induction false} AnyWritesShape(any: Dict, keys: seq<string>)
    ensures forall w :: w in AnyWrites(any, keys) ==>
      exists k :: k in keys && k in any.values && Scalar(any.values[k]) && w == ("config:" + k, PyStr(any.values[k]))
  {
    if keys != [] {
      AnyWritesShape(any, keys[..|keys| - 1]);
    }
  }

  /** `ws[p]` is the write `w`, and no later write names its key. */
  predicate LastWriteAt(ws: seq<(string, string)>, p: int, w: (string, string)) {
    0 <= p < |ws| && ws[p] == w && forall q :: p < q < |ws| ==> ws[q].0 != w.0
  }

  /** A write names `config:<name>` for the attribute `name` when its value
      is not None; it is found at the index the attribute has. */
  lemma {:induction false} AttributeWritten(items: seq<(string, Json)>, i: nat)
    requires i < |items| && items[i].1 != JNull
    requires forall j :: 0 <= j < |items| && j != i ==> items[j].0 != items[i].0
    ensures exists p :: LastWriteAt(AttributeWrites(items), p, ("config:" + items[i].0, PyStr(items[i].1)))
  {
    var init := items[..|items| - 1];
    var last := items[|items| - 1];
    var ws := AttributeWrites(items);
    if i == |items| - 1 {
      assert ws[|ws| - 1] == ("config:" + last.0, PyStr(last.1));
      assert LastWriteAt(ws, |ws| - 1, ("config:" + last.0, PyStr(last.1)));
    } else {
      AttributeWritten(init, i);
      var p :| LastWriteAt(AttributeWrites(init), p, ("config:" + items[i].0, PyStr(items[i].1)));
      assert ws[p] == AttributeWrites(init)[p];
      forall q | p < q < |ws|
        ensures ws[q].0 != "config:" + items[i].0
      {
        if q >= |AttributeWrites(init)| {
          if ws[q].0 == "config:" + items[i].0 {
            ConfigKeyInjective(last.0, items[i].0);
          }
        } else {
          assert ws[q] == AttributeWrites(init)[q];
        }
      }
      assert LastWriteAt(ws, p, ("config:" + items[i].0, PyStr(items[i].1)));
    }
  }

  /** Seeding leaves every key outside the `config:` names it writes as it
      was: in particular no variable without the `config:` prefix changes. */
  lemma SeedingKeepsOthers(env: Env, s: TorizonSettings, k: string)
    requires !IsPrefix("config:", k)
    ensures k in Apply(env, SeedWrites(s)) <==> k in env
    ensures k in env ==> Apply(env, SeedWrites(s))[k] == env[k]
  {
    var ws := SeedWrites(s);
    AttributeWritesShape(Attributes(s));
    AnyWritesShape(s.any, s.any.keys);
    forall i | 0 <= i < |ws|
      ensures ws[i].0 != k
    {
      assert ws[i] in AttributeWrites(Attributes(s)) || ws[i] in AnyWrites(s.any, s.any.keys);
      assert IsPrefix("config:", ws[i].0);
    }
    ApplyUntouched(env, ws, k);
  }

  /** Each declared setting that is not None is published as
      `config:<name>` = `str(value)`, whatever `any` holds. */
  lemma SeedingPublishesSetting(env: Env, s: TorizonSettings, n: string)
    requires SettingsWellFormed(s) && n in SettingNames && Setting(s, n) != JNull
    ensures "config:" + n in Apply(env, SeedWrites(s))
    ensures Apply(env, SeedWrites(s))["config:" + n] == PyStr(Setting(s, n))
  {
    var items := Attributes(s);
    var i :| 0 <= i < |SettingNames| && SettingNames[i] == n;
    assert items[i] == (n, Setting(s, n));
    AttributeNamesDistinct(s);
    AttributeWritten(items, i);
    var first := AttributeWrites(items);
    var p :| LastWriteAt(first, p, ("config:" + n, PyStr(Setting(s, n))));
    var rest := AnyWrites(s.any, s.any.keys);
    AnyWritesShape(s.any, s.any.keys);
    var ws := first + rest;
    forall q | p < q < |ws|
      ensures ws[q].0 != "config:" + n
    {
      if q >= |first| {
        assert ws[q] in rest;
        var k :| k in s.any.keys && k in s.any.values && Scalar(s.any.values[k]) && ws[q] == ("config:" + k, PyStr(s.any.values[k]));
        if ws[q].0 == "config:" + n {
          ConfigKeyInjective(k, n);
        }
      } else {
        assert ws[q] == first[q];
      }
    }
    assert ws[p] == first[p];
    ApplyLast(env, ws, p);
  }

  /** The write for an entry of `any` with a str, int or float value is the
      last one naming its key when the keys are distinct. */
  lemma {:induction false} AnyWritten(any: Dict, keys: seq<string>, i: nat)
    requires Distinct(keys) && i < |keys| && keys[i] in any.values && Scalar(any.values[keys[i]])
    ensures exists p :: LastWriteAt(AnyWrites(any, keys), p, ("config:" + keys[i], PyStr(any.values[keys[i]])))
  {
    var init := keys[..|keys| - 1];
    var last := keys[|keys| - 1];
    var ws := AnyWrites(any, keys);
    var w := ("config:" + keys[i], PyStr(any.values[keys[i]]));
    if i == |keys| - 1 {
      assert ws[|ws| - 1] == w;
      assert LastWriteAt(ws, |ws| - 1, w);
    } else {
      AnyWritten(any, init, i);
      var p :| LastWriteAt(AnyWrites(any, init), p, w);
      assert ws[p] == AnyWrites(any, init)[p];
      forall q | p < q < |ws|
        ensures ws[q].0 != w.0
      {
        if q >= |AnyWrites(any, init)| {
          if ws[q].0 == w.0 {
            ConfigKeyInjective(last, keys[i]);
          }
        } else {
          assert ws[q] == AnyWrites(any, init)[q];
        }
      }
      assert LastWriteAt(ws, p, w);
    }
  }

  /** The first loop writes only the names of the attributes. */
  lemma AttributesMissOthers(s: TorizonSettings, k: string)
    requires k !in SettingNames && k != "any"
    ensures forall q :: 0 <= q < |AttributeWrites(Attributes(s))| ==> AttributeWrites(Attributes(s))[q].0 != "config:" + k
  {
    var items := Attributes(s);
    var first := AttributeWrites(items);
    AttributeWritesShape(items);
    forall q | 0 <= q < |first|
      ensures first[q].0 != "config:" + k
    {
      assert first[q] in first;
      var i :| 0 <= i < |items| && items[i].1 != JNull && first[q] == ("config:" + items[i].0, PyStr(items[i].1));
      if first[q].0 == "config:" + k {
        ConfigKeyInjective(items[i].0, k);
      }
    }
  }

  /** Each entry of `any` holding a str, int, bool or float is published as
      `config:<key>` = `str(value)`. */
  lemma SeedingPublishesAny(env: Env, s: TorizonSettings, k: string)
    requires SettingsWellFormed(s) && k in s.any.values && Scalar(s.any.values[k])
    ensures "config:" + k in Apply(env, SeedWrites(s))
    ensures Apply(env, SeedWrites(s))["config:" + k] == PyStr(s.any.values[k])
  {
    var w := ("config:" + k, PyStr(s.any.values[k]));
    var i :| 0 <= i < |s.any.keys| && s.any.keys[i] == k;
    AnyWritten(s.any, s.any.keys, i);
    var p :| LastWriteAt(AnyWrites(s.any, s.any.keys), p, w);
    ApplyLastOfRest(env, AttributeWrites(Attributes(s)), AnyWrites(s.any, s.any.keys), p, w);
  }

  /** A last write among later writes lands, whatever came before. */
  lemma ApplyLastOfRest(env: Env, first: seq<(string, string)>, rest: seq<(string, string)>, p: int, w: (string, string))
    requires LastWriteAt(rest, p, w)
    ensures w.0 in Apply(env, first + rest) && Apply(env, first + rest)[w.0] == w.1
  {
    var ws := first + rest;
    assert ws[|first| + p] == rest[p];
    forall q | |first| + p < q < |ws|
      ensures ws[q].0 != w.0
    {
      assert ws[q] == rest[q - |first|];
    }
    ApplyLast(env, ws, |first| + p);
  }

  /** A name that is neither an attribute nor a str, int, bool or float
      entry of `any` is not published: its `config:` variable keeps whatever
      the environment held. This covers the entries of `any` holding a list,
      an object or null. */
  lemma SeedingKeepsUnpublished(env: Env, s: TorizonSettings, k: string)
    requires k !in SettingNames && k != "any" && !(k in s.any.values && Scalar(s.any.values[k]))
    ensures "config:" + k in Apply(env, SeedWrites(s)) <==> "config:" + k in env
    ensures "config:" + k in env ==> Apply(env, SeedWrites(s))["config:" + k] == env["config:" + k]
  {
    var first := AttributeWrites(Attributes(s));
    var rest := AnyWrites(s.any, s.any.keys);
    var ws := first + rest;
    AttributesMissOthers(s, k);
    AnyWritesShape(s.any, s.any.keys);
    forall q | 0 <= q < |ws|
      ensures ws[q].0 != "config:" + k
    {
      if q >= |first| {
        assert ws[q] in rest;
        var k' :| k' in s.any.keys && k' in s.any.values && Scalar(s.any.values[k']) && ws[q] == ("config:" + k', PyStr(s.any.values[k']));
        if ws[q].0 == "config:" + k {
          ConfigKeyInjective(k', k);
        }
      } else {
        assert ws[q] == first[q];
      }
    }
    ApplyUntouched(env, ws, "config:" + k);
  }

  /** `DOCKER_PSSWD` is copied to `config:docker_password` before seeding,
      and seeding keeps the copy unless `any` holds a str, int, bool or
      float `docker_password`. */
  lemma DockerPasswordSurvives(environ: Env, s: TorizonSettings)
    requires "DOCKER_PSSWD" in environ
    requires !("docker_password" in s.any.values && Scalar(s.any.values["docker_password"]))
    ensures "config:docker_password" in Apply(environ["config:docker_password" := environ["DOCKER_PSSWD"]], SeedWrites(s))
    ensures Apply(environ["config:docker_password" := environ["DOCKER_PSSWD"]], SeedWrites(s))["config:docker_password"]
      == environ["DOCKER_PSSWD"]
  {
    assert "docker_password" !in SettingNames by {
      assert SettingNames == [
        "torizon_psswd", "torizon_login", "torizon_ip", "torizon_ssh_port", "host_ip",
        "torizon_workspace", "torizon_debug_ssh_port", "torizon_debug_port1",
        "torizon_debug_port2", "torizon_debug_port3", "torizon_gpu", "torizon_arch",
        "wait_sync", "torizon_run_as", "torizon_app_root", "docker_tag",
        "tcb_packageName", "tcb_version", "torizon_gpuPrefixRC"];
    }
    assert "docker_password" != "any";
    assert "config:" + "docker_password" == "config:docker_password";
    SeedingKeepsUnpublished(environ["config:docker_password" := environ["DOCKER_PSSWD"]], s, "docker_password");
  }

  /** `settings.__dict__` names each attribute once, `any` included, so
      no write of the first loop is overwritten by another. */
  lemma AttributeNamesDistinct(s: TorizonSettings)
    ensures forall i, j :: 0 <= i < |Attributes(s)| && 0 <= j < |Attributes(s)| && i != j ==>
      Attributes(s)[i].0 != Attributes(s)[j].0
  {
    var items := Attributes(s);
    forall i, j | 0 <= i < |items| && 0 <= j < |items| && i != j
      ensures items[i].0 != items[j].0
    {
      if i < |SettingNames| && j < |SettingNames| {
        SettingNamesDistinct(i, j);
      } else {
        SettingNamesNotAny();
      }
    }
  }

  lemma SettingNamesDistinct(i: nat, j: nat)
    requires i < |SettingNames| && j < |SettingNames| && i != j
    ensures SettingNames[i] != SettingNames[j]
  {
    assert SettingNames == [
      "torizon_psswd", "torizon_login", "torizon_ip", "torizon_ssh_port", "host_ip",
      "torizon_workspace", "torizon_debug_ssh_port", "torizon_debug_port1",
      "torizon_debug_port2", "torizon_debug_port3", "torizon_gpu", "torizon_arch",
      "wait_sync", "torizon_run_as", "torizon_app_root", "docker_tag",
      "tcb_packageName", "tcb_version", "torizon_gpuPrefixRC"];
  }

  lemma SettingNamesNotAny()
    ensures "any" !in SettingNames
  {
    assert SettingNames == [
      "torizon_psswd", "torizon_login", "torizon_ip", "torizon_ssh_port", "host_ip",
      "torizon_workspace", "torizon_debug_ssh_port", "torizon_debug_port1",
      "torizon_debug_port2", "torizon_debug_port3", "torizon_gpu", "torizon_arch",
      "wait_sync", "torizon_run_as", "torizon_app_root", "docker_tag",
      "tcb_packageName", "tcb_version", "torizon_gpuPrefixRC"];
  }
}
