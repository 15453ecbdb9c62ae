/**
 * The environment-variable override walk over the loaded configuration tree
 * (`override_config_with_env`, main.py:36-54).
 *
 * Every leaf whose key path is k1, ..., kn is overridden by the variable named
 * UPPER(k1)_..._UPPER(kn) when that variable is set. Mappings are never
 * replaced, only walked into. The replacement value is coerced by the leaf's
 * original type, and because Python's `bool` is a subclass of `int` the integer
 * branch catches boolean leaves before the boolean branch can.
 */
module Config {
  import opened Wrappers
  import opened Text

  /** A value of the loaded YAML configuration. */
  datatype Node =
    | Dict(entries: map<string, Node>)
    | IntLeaf(i: int)
    | BoolLeaf(b: bool)
    | StrLeaf(s: string)
    | Other(text: string)  // a float, null, list or any other YAML value

  /** The process environment as seen by `os.getenv`. */
  type Env = map<string, string>

  /** Python's `int(s)`: a number, or None where it raises `ValueError`. */
  type IntParser = string -> Option<int>

  /** `isinstance(value, int)`: true of booleans as well. */
  predicate IsPyInt(v: Node) { v.IntLeaf? || v.BoolLeaf? }

  /** `isinstance(value, bool)`. */
  predicate IsPyBool(v: Node) { v.BoolLeaf? }

  /** The strings that the boolean branch reads as true, after lower-casing. */
  const TruthyTokens: set<string> := {"true", "1", "t", "y", "yes"}

  /** The name the walk looks up for entry `key` under `prefix` (main.py:38). */
  function EntryName(prefix: string, key: string): (r: string)
    ensures |r| == |prefix| + |key| && prefix <= r
  {
    prefix + Upper(key)
  }

  /** The variable name of the leaf at key path `path`. */
  function EnvVarName(path: seq<string>): string
  {
    Join("_", UpperAll(path))
  }

  function UpperAll(path: seq<string>): (r: seq<string>)
    ensures |r| == |path|
    ensures forall i :: 0 <= i < |path| ==> r[i] == Upper(path[i])
  {
    seq(|path|, i requires 0 <= i < |path| => Upper(path[i]))
  }

  /** The value assigned to a leaf whose variable holds `raw` (main.py:45-53), as written. */
  function CoerceLeaf(value: Node, raw: string, parse: IntParser): (r: Node)
    requires !value.Dict?
    ensures !r.Dict?
  {
    if IsPyInt(value) then
      match parse(raw)
      case Some(n) => IntLeaf(n)
      case None => value  // a warning is logged and the old value is kept
    else if IsPyBool(value) then
      BoolLeaf(Lower(raw) in TruthyTokens)
    else
      StrLeaf(raw)
  }

  /** A leaf after the lookup of its variable `name` (main.py:42-53). */
  function OverrideLeaf(value: Node, name: string, env: Env, parse: IntParser): (r: Node)
    requires !value.Dict?
    ensures !r.Dict?
  {
    if name in env then CoerceLeaf(value, env[name], parse) else value
  }

  /** One entry of a mapping after the walk: mappings are walked into, leaves overridden. */
  function OverrideEntry(value: Node, name: string, env: Env, parse: IntParser): (r: Node)
    ensures r.Dict? <==> value.Dict?
    ensures value.Dict? ==> r.entries.Keys == value.entries.Keys
    ensures !value.Dict? && name !in env ==> r == value
    decreases value, 1
  {
    match value
    case Dict(m) => Dict(OverrideMap(m, name + "_", env, parse))
    case _ => OverrideLeaf(value, name, env, parse)
  }

  /** The mapping `m` after `override_config_with_env(m, prefix)`. */
  function OverrideMap(m: map<string, Node>, prefix: string, env: Env, parse: IntParser): (r: map<string, Node>)
    ensures r.Keys == m.Keys
    decreases Dict(m), 0
  {
    map k | k in m :: OverrideEntry(m[k], EntryName(prefix, k), env, parse)
  }

  /** The variable names for which an unparsable integer is logged (main.py:48-49). */
  function EntryWarnings(value: Node, name: string, env: Env, parse: IntParser): (r: set<string>)
    ensures forall w :: w in r ==> w in env && parse(env[w]).None? && name <= w
    decreases value, 1
  {
    match value
    case Dict(m) => InvalidIntegerNames(m, name + "_", env, parse)
    case _ => if IsPyInt(value) && name in env && parse(env[name]).None? then {name} else {}
  }

  function InvalidIntegerNames(m: map<string, Node>, prefix: string, env: Env, parse: IntParser): (r: set<string>)
    ensures forall w :: w in r ==> w in env && parse(env[w]).None? && prefix <= w
    decreases Dict(m), 0
  {
    set k, w | k in m && w in EntryWarnings(m[k], EntryName(prefix, k), env, parse) :: w
  }

  /** The warnings of the entries of `m` whose keys are in `done`. */
  function WarningsOf(m: map<string, Node>, done: set<string>, prefix: string, env: Env, parse: IntParser): set<string>
  {
    set k, w | k in m && k in done && w in EntryWarnings(m[k], EntryName(prefix, k), env, parse) :: w
  }

  lemma WarningsOfAddKey(m: map<string, Node>, done: set<string>, key: string, prefix: string, env: Env, parse: IntParser)
    requires key in m
    ensures WarningsOf(m, done + {key}, prefix, env, parse)
      == WarningsOf(m, done, prefix, env, parse) + EntryWarnings(m[key], EntryName(prefix, key), env, parse)
  {
    var before := WarningsOf(m, done, prefix, env, parse);
    var extra := EntryWarnings(m[key], EntryName(prefix, key), env, parse);
    forall w | w in extra ensures w in WarningsOf(m, done + {key}, prefix, env, parse) {
      assert key in m && key in done + {key};
    }
  }

  /** `override_config_with_env(cfg, prefix)`: returns the rewritten mapping and the names warned about. */
  method OverrideConfigWithEnv(cfg: map<string, Node>, prefix: string, env: Env, parse: IntParser)
    returns (result: map<string, Node>, warnings: set<string>)
    ensures result == OverrideMap(cfg, prefix, env, parse)
    ensures warnings == InvalidIntegerNames(cfg, prefix, env, parse)
    decreases Dict(cfg)
  {
    result := cfg;
    warnings := {};
    var todo := cfg.Keys;
    ghost var done: set<string> := {};
    while todo != {}
      invariant done <= cfg.Keys && todo == cfg.Keys - done && result.Keys == cfg.Keys
      invariant forall k :: k in cfg && k !in done ==> result[k] == cfg[k]
      invariant forall k :: k in done ==> result[k] == OverrideEntry(cfg[k], EntryName(prefix, k), env, parse)
      invariant warnings == WarningsOf(cfg, done, prefix, env, parse)
      decreases todo
    {
      var key :| key in todo;
      var value := cfg[key];
      var name := prefix + Upper(key);
      ghost var before := result;
      var added: set<string> := {};
      if value.Dict? {
        var inner;
        inner, added := OverrideConfigWithEnv(value.entries, name + "_", env, parse);
        result := result[key := Dict(inner)];
      } else if name in env {
        var raw := env[name];
        if IsPyInt(value) {
          match parse(raw)
          case Some(n) =>
            result := result[key := IntLeaf(n)];
          case None =>
            added := {name};
        } else if IsPyBool(value) {
          result := result[key := BoolLeaf(Lower(raw) in TruthyTokens)];
        } else {
          result := result[key := StrLeaf(raw)];
        }
      }
      assert result == before[key := OverrideEntry(value, EntryName(prefix, key), env, parse)];
      assert added == EntryWarnings(value, EntryName(prefix, key), env, parse);
      WarningsOfAddKey(cfg, done, key, prefix, env, parse);
      warnings := warnings + added;
      done := done + {key};
      todo := todo - {key};
    }
  }

  // ----- Key paths -----

  /** The value at key path `path`, if every step but the last goes through a mapping. */
  function Get(t: Node, path: seq<string>): Option<Node>
    decreases |path|
  {
    if path == [] then Some(t)
    else match t
      case Dict(m) => if path[0] in m then Get(m[path[0]], path[1..]) else None
      case _ => None
  }

  /** Same mappings with the same keys everywhere; leaves stay leaves. */
  predicate SameShape(a: Node, b: Node)
  {
    match a
    case Dict(m) =>
      b.Dict? && b.entries.Keys == m.Keys && forall k :: k in m ==> SameShape(m[k], b.entries[k])
    case _ => !b.Dict?
  }

  lemma {:induction false} SameShapeGet(a: Node, b: Node, path: seq<string>)
    requires SameShape(a, b)
    ensures Get(a, path).Some? <==> Get(b, path).Some?
    ensures Get(a, path).Some? ==> SameShape(Get(a, path).value, Get(b, path).value)
    decreases |path|
  {
    if path != [] && a.Dict? && path[0] in a.entries {
      SameShapeGet(a.entries[path[0]], b.entries[path[0]], path[1..]);
    }
  }

  /** The walk keeps the tree's shape: mappings are walked into, never replaced, and gain or lose no key. */
  lemma {:induction false} OverridePreservesShape(m: map<string, Node>, prefix: string, env: Env, parse: IntParser)
    ensures SameShape(Dict(m), Dict(OverrideMap(m, prefix, env, parse)))
    decreases Dict(m)
  {
    var r := OverrideMap(m, prefix, env, parse);
    forall k | k in m ensures SameShape(m[k], r[k]) {
      assert r[k] == OverrideEntry(m[k], EntryName(prefix, k), env, parse);
      if m[k].Dict? {
        OverridePreservesShape(m[k].entries, EntryName(prefix, k) + "_", env, parse);
      } else {
        assert r[k] == OverrideLeaf(m[k], EntryName(prefix, k), env, parse);
      }
    }
  }

  lemma GetStep(m: map<string, Node>, path: seq<string>)
    requires |path| > 0 && path[0] in m
    ensures Get(Dict(m), path) == Get(m[path[0]], path[1..])
  {
  }

  /** The variable name of a longer path extends that of its tail: UPPER(k) + "_" + ... */
  lemma EnvVarNameStep(path: seq<string>)
    requires |path| > 1
    ensures EnvVarName(path) == Upper(path[0]) + "_" + EnvVarName(path[1..])
  {
    assert UpperAll(path)[1..] == UpperAll(path[1..]);
  }

  lemma EnvVarNameSingle(key: string)
    ensures EnvVarName([key]) == Upper(key)
  {
  }

  /** Under `prefix`, the leaf at `path` is overridden by the variable prefix + UPPER(k1)_..._UPPER(kn). */
  lemma {:induction false} OverrideAtPathUnder(m: map<string, Node>, prefix: string, env: Env, parse: IntParser, path: seq<string>, v: Node)
    requires |path| > 0 && Get(Dict(m), path) == Some(v) && !v.Dict?
    ensures Get(Dict(OverrideMap(m, prefix, env, parse)), path)
      == Some(OverrideLeaf(v, prefix + EnvVarName(path), env, parse))
    decreases |path|
  {
    var k := path[0];
    var rest := path[1..];
    var r := OverrideMap(m, prefix, env, parse);
    GetStep(m, path);
    GetStep(r, path);
    if |path| == 1 {
      EnvVarNameSingle(k);
      assert path == [k];
    } else {
      var inner := EntryName(prefix, k) + "_";
      assert m[k].Dict?;
      assert r[k] == OverrideEntry(m[k], EntryName(prefix, k), env, parse);
      assert r[k] == Dict(OverrideMap(m[k].entries, inner, env, parse));
      OverrideAtPathUnder(m[k].entries, inner, env, parse, rest, v);
      EnvVarNameStep(path);
      assert inner + EnvVarName(rest) == prefix + EnvVarName(path);
    }
  }

  /**
   * A leaf at key path k1, ..., kn of the top-level configuration is left alone
   * when UPPER(k1)_..._UPPER(kn) is unset and coerced from its value when it is set.
   */
  lemma OverrideAtPath(cfg: map<string, Node>, env: Env, parse: IntParser, path: seq<string>, v: Node)
    requires |path| > 0 && Get(Dict(cfg), path) == Some(v) && !v.Dict?
    ensures var name := EnvVarName(path);
      Get(Dict(OverrideMap(cfg, "", env, parse)), path)
        == Some(if name in env then CoerceLeaf(v, env[name], parse) else v)
  {
    OverrideAtPathUnder(cfg, "", env, parse, path, v);
    assert "" + EnvVarName(path) == EnvVarName(path);
  }

  /** A top-level leaf's variable is its upper-cased key, with no leading underscore. */
  lemma TopLevelName(key: string)
    ensures EnvVarName([key]) == Upper(key)
    ensures EntryName("", key) == EnvVarName([key])
  {
    assert UpperAll([key]) == [Upper(key)];
  }

  /** The variable names of the leaves under `prefix` that draw an invalid-integer warning. */
  ghost predicate WarnedAt(m: map<string, Node>, prefix: string, env: Env, parse: IntParser, path: seq<string>, name: string)
  {
    && |path| > 0
    && Get(Dict(m), path).Some?
    && IsPyInt(Get(Dict(m), path).value)
    && name == prefix + EnvVarName(path)
    && name in env
    && parse(env[name]).None?
  }

  lemma {:induction false} WarnedAtIsLogged(m: map<string, Node>, prefix: string, env: Env, parse: IntParser, path: seq<string>, name: string)
    requires WarnedAt(m, prefix, env, parse, path, name)
    ensures name in InvalidIntegerNames(m, prefix, env, parse)
    decreases |path|
  {
    var k := path[0];
    var rest := path[1..];
    GetStep(m, path);
    var entryName := EntryName(prefix, k);
    if |path| == 1 {
      EnvVarNameSingle(k);
      assert path == [k];
      assert name == entryName;
      assert Get(m[k], rest) == Some(m[k]);
      assert name in EntryWarnings(m[k], entryName, env, parse);
    } else {
      var inner := entryName + "_";
      EnvVarNameStep(path);
      assert name == inner + EnvVarName(rest);
      var child := m[k].entries;
      assert WarnedAt(child, inner, env, parse, rest, name);
      WarnedAtIsLogged(child, inner, env, parse, rest, name);
      assert name in EntryWarnings(m[k], entryName, env, parse);
    }
  }

  lemma {:induction false} LoggedIsWarnedAt(m: map<string, Node>, prefix: string, env: Env, parse: IntParser, name: string)
    returns (path: seq<string>)
    requires name in InvalidIntegerNames(m, prefix, env, parse)
    ensures WarnedAt(m, prefix, env, parse, path, name)
    decreases Dict(m)
  {
    var k :| k in m && name in EntryWarnings(m[k], EntryName(prefix, k), env, parse);
    var entryName := EntryName(prefix, k);
    if m[k].Dict? {
      var child := m[k].entries;
      var inner := entryName + "_";
      assert name in InvalidIntegerNames(child, inner, env, parse);
      var rest := LoggedIsWarnedAt(child, inner, env, parse, name);
      path := [k] + rest;
      assert path[0] == k && path[1..] == rest;
      GetStep(m, path);
      EnvVarNameStep(path);
    } else {
      path := [k];
      GetStep(m, path);
      EnvVarNameSingle(k);
    }
  }

  /**
   * A warning names exactly the variables of integer-typed leaves (booleans
   * included) that are set to a string the parser rejects.
   */
  lemma WarningsExactly(cfg: map<string, Node>, env: Env, parse: IntParser, name: string)
    ensures name in InvalidIntegerNames(cfg, "", env, parse)
      <==> exists path :: WarnedAt(cfg, "", env, parse, path, name)
  {
    if name in InvalidIntegerNames(cfg, "", env, parse) {
      var path := LoggedIsWarnedAt(cfg, "", env, parse, name);
    }
    forall path | WarnedAt(cfg, "", env, parse, path, name)
      ensures name in InvalidIntegerNames(cfg, "", env, parse)
    {
      WarnedAtIsLogged(cfg, "", env, parse, path, name);
    }
  }

  // ----- The coercion of one leaf -----

  /** An integer leaf takes the parsed value, or keeps its value when the parser rejects the string. */
  lemma IntegerLeafCoercion(i: int, raw: string, parse: IntParser)
    ensures CoerceLeaf(IntLeaf(i), raw, parse)
      == if parse(raw).Some? then IntLeaf(parse(raw).value) else IntLeaf(i)
  {
  }

  /** Any leaf that is neither an integer nor a boolean is replaced by the raw string. */
  lemma OtherLeafCoercion(v: Node, raw: string, parse: IntParser)
    requires !v.Dict? && !IsPyInt(v)
    ensures CoerceLeaf(v, raw, parse) == StrLeaf(raw)
  {
  }

  /** As written: a boolean leaf goes through the integer branch, never the boolean one. */
  lemma BoolLeafTakesIntegerBranch(b: bool, raw: string, parse: IntParser)
    ensures IsPyBool(BoolLeaf(b)) && IsPyInt(BoolLeaf(b))
    ensures CoerceLeaf(BoolLeaf(b), raw, parse)
      == if parse(raw).Some? then IntLeaf(parse(raw).value) else BoolLeaf(b)
  {
  }

  /** As written: `False` with "YES" stays `False`, and with "1" becomes the integer 1. */
  lemma FalseLeafOverrides()
    ensures CoerceLeaf(BoolLeaf(false), "YES", ParseInt) == BoolLeaf(false)
    ensures CoerceLeaf(BoolLeaf(false), "1", ParseInt) == IntLeaf(1)
  {
    assert ParseDecimal("1") == Some(1);
  }

  /** The coercion with the boolean test placed before the integer test, as evidently intended. */
  function CoerceLeafIntended(value: Node, raw: string, parse: IntParser): (r: Node)
    requires !value.Dict?
    ensures !r.Dict?
  {
    if IsPyBool(value) then
      BoolLeaf(Lower(raw) in TruthyTokens)
    else if IsPyInt(value) then
      match parse(raw)
      case Some(n) => IntLeaf(n)
      case None => value
    else
      StrLeaf(raw)
  }

  /** Corrected: a boolean leaf reads the truthy tokens case-insensitively, so `False` with "YES" becomes `True`. */
  lemma IntendedBoolCoercion(b: bool, raw: string, parse: IntParser)
    ensures CoerceLeafIntended(BoolLeaf(b), raw, parse) == BoolLeaf(Lower(raw) in TruthyTokens)
    ensures CoerceLeafIntended(BoolLeaf(false), "YES", parse) == BoolLeaf(true)
    ensures CoerceLeafIntended(BoolLeaf(false), "no", parse) == BoolLeaf(false)
  {
    assert Lower("YES") == "yes";
    assert Lower("no") == "no";
  }

  /** The correction changes boolean leaves only. */
  lemma IntendedAgreesOnOtherLeaves(v: Node, raw: string, parse: IntParser)
    requires !v.Dict? && !v.BoolLeaf?
    ensures CoerceLeafIntended(v, raw, parse) == CoerceLeaf(v, raw, parse)
  {
  }
}
