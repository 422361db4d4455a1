/**
 * Layered settings: defaults, then the YAML file, then the environment, deep-merged in
 * that order, and a lookup of dotted keys with optional bool/list/int casts.
 */
module Config {
  import opened Wrappers
  import opened Strs
  import opened Values

  /** A settings dictionary. */
  type Tree = map<string, Value>

  /**
   * `_deep_merge(base, new)` on values, `upd` standing for `new`: keys only in `base`
   * stay, a key whose two values are both dicts is merged recursively, any other value
   * from `upd` overwrites.
   */
  function DeepMerge(base: Tree, upd: Tree): (r: Tree)
    ensures r.Keys == base.Keys + upd.Keys
    decreases Dict(upd)
  {
    map k | k in base.Keys + upd.Keys ::
      if k !in upd then base[k]
      else if k in base && base[k].Dict? && upd[k].Dict? then (assert upd[k] in upd.Values; Dict(DeepMerge(base[k].m, upd[k].m)))
      else upd[k]
  }

  /** `reduce(operator.getitem, path, v)`: None when a key is missing or a step meets a non-dict. */
  function Lookup(v: Value, path: seq<string>): Option<Value>
    decreases |path|
  {
    if |path| == 0 then Some(v)
    else if v.Dict? && path[0] in v.m then Lookup(v.m[path[0]], path[1..])
    else None
  }

  /** Merging into an empty dictionary yields the incoming dictionary. */
  lemma MergeIntoEmpty(upd: Tree)
    ensures DeepMerge(map[], upd) == upd
  {
  }

  /** A value that is not a dict in `upd` is what the merged dictionary holds at that path. */
  lemma {:induction false} MergeOverrides(base: Tree, upd: Tree, path: seq<string>, v: Value)
    requires Lookup(Dict(upd), path) == Some(v) && !v.Dict?
    ensures Lookup(Dict(DeepMerge(base, upd)), path) == Some(v)
    decreases |path|
  {
    var r := DeepMerge(base, upd);
    var k := path[0];
    if |path| > 1 && k in base && base[k].Dict? && upd[k].Dict? {
      MergeOverrides(base[k].m, upd[k].m, path[1..], v);
    }
  }

  /** Paths whose first key `upd` lacks are left as `base` has them. */
  lemma MergeKeepsBase(base: Tree, upd: Tree, path: seq<string>)
    requires |path| >= 1 && path[0] !in upd
    ensures Lookup(Dict(DeepMerge(base, upd)), path) == Lookup(Dict(base), path)
  {
  }

  /** Dictionaries present at the same path in both are merged: the result has the keys of both. */
  lemma {:induction false} MergeDictsAtPath(base: Tree, upd: Tree, path: seq<string>, b: Tree, n: Tree)
    requires Lookup(Dict(base), path) == Some(Dict(b)) && Lookup(Dict(upd), path) == Some(Dict(n))
    ensures Lookup(Dict(DeepMerge(base, upd)), path) == Some(Dict(DeepMerge(b, n)))
    decreases |path|
  {
    if |path| > 0 {
      MergeDictsAtPath(base[path[0]].m, upd[path[0]].m, path[1..], b, n);
    }
  }

  /** The final configuration: defaults (None standing for `defaults or {}`), then YAML, then environment. */
  function Layered(defaults: Option<Tree>, yaml: Tree, env: Tree): Tree
  {
    var d := if defaults.Some? then defaults.value else map[];
    DeepMerge(DeepMerge(DeepMerge(map[], d), yaml), env)
  }

  /**
   * Precedence of the sources for a setting that is not a dict: the environment wins,
   * then the YAML file, then the defaults.
   */
  lemma Precedence(defaults: Tree, yaml: Tree, env: Tree, path: seq<string>, v: Value)
    requires |path| >= 1 && !v.Dict?
    ensures Lookup(Dict(env), path) == Some(v) ==> Lookup(Dict(Layered(Some(defaults), yaml, env)), path) == Some(v)
    ensures path[0] !in env && Lookup(Dict(yaml), path) == Some(v) ==>
      Lookup(Dict(Layered(Some(defaults), yaml, env)), path) == Some(v)
    ensures path[0] !in env && path[0] !in yaml ==>
      Lookup(Dict(Layered(Some(defaults), yaml, env)), path) == Lookup(Dict(defaults), path)
  {
    MergeIntoEmpty(defaults);
    var m2 := DeepMerge(defaults, yaml);
    if Lookup(Dict(env), path) == Some(v) {
      MergeOverrides(m2, env, path, v);
    }
    if path[0] !in env && Lookup(Dict(yaml), path) == Some(v) {
      MergeOverrides(defaults, yaml, path, v);
      MergeKeepsBase(m2, env, path);
    }
    if path[0] !in env && path[0] !in yaml {
      MergeKeepsBase(m2, env, path);
      MergeKeepsBase(defaults, yaml, path);
    }
  }

  /**
   * The in-place merge loop of `_deep_merge`: every key of `upd` is visited once, nested
   * dicts are merged by a recursive call.
   */
  method MergeInto(base: Tree, upd: Tree) returns (r: Tree)
    ensures r == DeepMerge(base, upd)
    decreases Dict(upd)
  {
    r := base;
    var todo := upd.Keys;
    while todo != {}
      invariant todo <= upd.Keys
      invariant r.Keys == base.Keys + (upd.Keys - todo)
      invariant forall k :: k in r ==> r[k] == if k in upd.Keys - todo then DeepMerge(base, upd)[k] else base[k]
      decreases todo
    {
      KeyOrEmpty(todo);
      var k :| k in todo;
      if k in r && r[k].Dict? && upd[k].Dict? {
        assert upd[k] in upd.Values;
        var merged := MergeInto(r[k].m, upd[k].m);
        r := r[k := Dict(merged)];
      } else {
        r := r[k := upd[k]];
      }
      todo := todo - {k};
    }
  }

  /** A set of keys is empty or has a member (for picking the next key with `:|`). */
  lemma KeyOrEmpty(s: set<string>)
    ensures s == {} || exists k :: k in s
  {
    if forall k :: k !in s {
      assert s == {};
    }
  }

  /** The nested-path code meets a non-dict before the last key of `path`. */
  predicate ScalarOnPath(t: Tree, path: seq<string>)
    decreases |path|
  {
    |path| >= 2 && path[0] in t && (!t[path[0]].Dict? || ScalarOnPath(t[path[0]].m, path[1..]))
  }

  /**
   * One nested environment name: walk `path[..|path|-1]` with `setdefault(part, {})`,
   * failing on a non-dict, and store the string under the last part.
   */
  function SetPath(t: Tree, path: seq<string>, value: string): (r: Option<Tree>)
    requires |path| >= 1
    decreases |path|
  {
    if |path| == 1 then Some(t[path[0] := Str(value)])
    else
      var child := if path[0] in t then t[path[0]] else Dict(map[]);
      if !child.Dict? then None
      else match SetPath(child.m, path[1..], value)
        case None => None
        case Some(m) => Some(t[path[0] := Dict(m)])
  }

  /**
   * Storing fails exactly when a proper prefix of the path holds a non-dict; otherwise
   * the string sits at the path and the other top-level keys are untouched.
   */
  lemma {:induction false} SetPathSpec(t: Tree, path: seq<string>, value: string)
    requires |path| >= 1
    ensures SetPath(t, path, value).None? <==> ScalarOnPath(t, path)
    ensures SetPath(t, path, value).Some? ==>
      var t' := SetPath(t, path, value).value;
      Lookup(Dict(t'), path) == Some(Str(value))
      && t'.Keys == t.Keys + {path[0]}
      && forall k :: k in t && k != path[0] ==> t'[k] == t[k]
    decreases |path|
  {
    if |path| > 1 {
      var child := if path[0] in t then t[path[0]] else Dict(map[]);
      if child.Dict? {
        SetPathSpec(child.m, path[1..], value);
      }
    }
  }

  /** `_load_from_env` for one variable. */
  function StoreEnv(t: Tree, name: string, value: string): Option<Tree>
  {
    if !Contains(name, "__") then Some(t[name := Str(value)])
    else SetPath(t, SplitOn(name, "__"), value)
  }

  /** The top-level branch for names without "__" agrees with the nested-path code. */
  lemma TopLevelIsOnePartPath(t: Tree, name: string, value: string)
    ensures StoreEnv(t, name, value) == SetPath(t, SplitOn(name, "__"), value)
  {
    if !Contains(name, "__") {
      SplitAbsent(name, "__");
    }
  }

  datatype ConfigError =
    | EnvConflict(name: string)
    | MissingSetting(key: string)
    | CastFailed(key: string)
    | ListOfDictNotModelled(key: string)

  /** The environment dictionary built from the variables in order, or the first conflict. */
  function LoadEnv(environ: seq<(string, string)>): Result<Tree, ConfigError>
    decreases |environ|
  {
    if |environ| == 0 then Ok(map[])
    else match LoadEnv(environ[..|environ| - 1])
      case Err(e) => Err(e)
      case Ok(t) =>
        var (name, value) := environ[|environ| - 1];
        match StoreEnv(t, name, value)
        case None => Err(EnvConflict(name))
        case Some(t') => Ok(t')
  }

  /** The last variable decides its path: after a successful load it holds that variable's value. */
  lemma LastVariableWins(environ: seq<(string, string)>)
    requires |environ| >= 1 && LoadEnv(environ).Ok?
    ensures var (name, value) := environ[|environ| - 1];
      Lookup(Dict(LoadEnv(environ).value), SplitOn(name, "__")) == Some(Str(value))
  {
    var (name, value) := environ[|environ| - 1];
    var t := LoadEnv(environ[..|environ| - 1]).value;
    TopLevelIsOnePartPath(t, name, value);
    SetPathSpec(t, SplitOn(name, "__"), value);
  }

  /** `_load_from_env`: the loop over the environment variables. */
  method LoadFromEnv(environ: seq<(string, string)>) returns (r: Result<Tree, ConfigError>)
    ensures r == LoadEnv(environ)
  {
    var t: Tree := map[];
    var i := 0;
    while i < |environ|
      invariant 0 <= i <= |environ|
      invariant LoadEnv(environ[..i]) == Ok(t)
    {
      assert environ[..i + 1][..i] == environ[..i];
      var (name, value) := environ[i];
      var stored := StoreEnv(t, name, value);
      if stored.None? {
        LoadErrorSticks(environ, i + 1);
        return Err(EnvConflict(name));
      }
      t := stored.value;
      i := i + 1;
    }
    assert environ[..i] == environ;
    r := Ok(t);
  }

  /** Once a prefix of the environment fails to load, the whole environment fails the same way. */
  lemma {:induction false} LoadErrorSticks(environ: seq<(string, string)>, i: int)
    requires 0 <= i <= |environ| && LoadEnv(environ[..i]).Err?
    ensures LoadEnv(environ) == LoadEnv(environ[..i])
    decreases |environ| - i
  {
    if i < |environ| {
      assert environ[..i + 1][..i] == environ[..i];
      LoadErrorSticks(environ, i + 1);
    } else {
      assert environ[..i] == environ;
    }
  }

  /** The `cast` argument of `get`, for the casts the settings use. */
  datatype Cast = NoCast | BoolCast | ListCast | IntCast

  /** Strings that the bool cast reads as true, after lower-casing. */
  predicate TrueWord(s: string)
  {
    s == "true" || s == "1" || s == "yes"
  }

  function StripAll(items: seq<string>): (r: seq<Value>)
    ensures |r| == |items|
    ensures forall i :: 0 <= i < |items| ==> r[i] == Str(PyStrip(items[i]))
  {
    seq(|items|, i requires 0 <= i < |items| => Str(PyStrip(items[i])))
  }

  /** Applying `cast` to a found value; None when Python's cast raises ValueError or TypeError. */
  function CastValue(v: Value, cast: Cast): (r: Option<Value>)
  {
    match cast
    case NoCast => Some(v)
    case BoolCast => if v.Str? then Some(Bool(TrueWord(Lower(v.s)))) else Some(Bool(Truthy(v)))
    case ListCast =>
      if v.Str? then Some(List(StripAll(SplitOn(v.s, ","))))
      else if v.List? then Some(v)
      else None
    case IntCast =>
      match v
      case Int(i) => Some(v)
      case Bool(b) => Some(Int(if b then 1 else 0))
      case Str(s) => (match PyInt(s) case Some(i) => Some(Int(i)) case None => None)
      case _ => None
  }

  /** A bool setting written as `str(b)` reads back as `b` under the bool cast. */
  lemma BoolCastRoundTrip(b: bool)
    ensures CastValue(Str(PyStr(Bool(b))), BoolCast) == Some(Bool(b))
  {
    if b {
      assert Lower("True") == "true";
    } else {
      assert Lower("False") == "false";
    }
  }

  /** An int setting written as `str(i)` reads back as `i` under the int cast. */
  lemma IntCastRoundTrip(i: int)
    ensures CastValue(Str(IntToString(i)), IntCast) == Some(Int(i))
  {
    PyIntOfIntToString(i);
    IntCastOf(IntToString(i), i);
  }

  /** A string `int()` reads as `i` casts to `i`. */
  lemma IntCastOf(s: string, i: int)
    requires PyInt(s) == Some(i)
    ensures CastValue(Str(s), IntCast) == Some(Int(i))
  {
  }

  /** A comma-joined list of stripped, comma-free items reads back as those items. */
  lemma ListCastRoundTrip(items: seq<string>)
    requires |items| >= 1
    requires forall k :: 0 <= k < |items| ==> ',' !in items[k] && PyStrip(items[k]) == items[k]
    ensures CastValue(Str(Join(items, ",")), ListCast) == Some(List(StripAll(items)))
    ensures forall k :: 0 <= k < |items| ==> StripAll(items)[k] == Str(items[k])
  {
    SplitJoin(items, ',');
    assert SplitOn(Join(items, ","), ",") == items;
  }

  /** A configuration built from the three sources. */
  class Settings {
    var finalConfig: Tree

    /** `Config.__init__` with the environment already parsed: three in-place merges into `{}`. */
    constructor(defaults: Option<Tree>, yaml: Tree, env: Tree)
      ensures finalConfig == Layered(defaults, yaml, env)
    {
      var d := if defaults.Some? then defaults.value else map[];
      var merged := MergeInto(map[], d);
      merged := MergeInto(merged, yaml);
      merged := MergeInto(merged, env);
      finalConfig := merged;
    }

    /**
     * `get`: the dotted key's value, cast when asked; a missing key is an error only
     * when required, a failing cast always is.
     */
    function Get(key: string, cast: Cast, required: bool): (r: Result<Option<Value>, ConfigError>)
      reads this
      ensures Lookup(Dict(finalConfig), SplitOn(key, ".")).None? ==>
        r == if required then Err(MissingSetting(key)) else Ok(None)
      ensures r.Ok? && r.value.Some? ==>
        exists v :: Lookup(Dict(finalConfig), SplitOn(key, ".")) == Some(v) && CastValue(v, cast) == r.value
      ensures !required && cast == NoCast ==> r == Ok(Lookup(Dict(finalConfig), SplitOn(key, ".")))
      ensures Lookup(Dict(finalConfig), SplitOn(key, ".")).Some? ==>
        var v := Lookup(Dict(finalConfig), SplitOn(key, ".")).value;
        (cast == ListCast && v.Dict? ==> r == Err(ListOfDictNotModelled(key)))
        && (!(cast == ListCast && v.Dict?) && CastValue(v, cast).None? ==> r == Err(CastFailed(key)))
        && (!(cast == ListCast && v.Dict?) && CastValue(v, cast).Some? ==> r == Ok(CastValue(v, cast)))
    {
      match Lookup(Dict(finalConfig), SplitOn(key, "."))
      case None => if required then Err(MissingSetting(key)) else Ok(None)
      case Some(v) =>
        if cast == ListCast && v.Dict? then Err(ListOfDictNotModelled(key))
        else match CastValue(v, cast)
          case None => Err(CastFailed(key))
          case Some(c) => Ok(Some(c))
    }
  }

  /** Loading the sources: an environment conflict aborts, otherwise the layered settings. */
  method Load(defaults: Option<Tree>, yaml: Tree, environ: seq<(string, string)>) returns (r: Result<Settings, ConfigError>)
    ensures r.Err? <==> LoadEnv(environ).Err?
    ensures r.Ok? ==> fresh(r.value) && r.value.finalConfig == Layered(defaults, yaml, LoadEnv(environ).value)
  {
    var env := LoadFromEnv(environ);
    if env.Err? {
      return Err(env.error);
    }
    var s := new Settings(defaults, yaml, env.value);
    r := Ok(s);
  }
}
