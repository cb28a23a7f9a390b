/** The module record every stage shares (`BaseModule`), the closed set of
    module classes, and the four forms of a ForEach body spec. */
module Base {
  import opened Values

  /** The module classes of the engine; `BaseC` is the abstract base itself. */
  datatype Class = BaseC | IntSourceC | MultiplyC | ToStringC | FilterC | TransformC | ForEachC

  /** A configuration value. A `(ForEachModule, {"body": [...]})` spec puts
      a list of body specs into a config dict, so a config entry is either a
      payload value or such a list. */
  datatype Arg = AVal(v: Value) | ASpecs(specs: seq<Spec>)

  type Config = seq<(string, Arg)>

  /** What a fresh module instance is, apart from its diagnostic fields:
      its class, name, config and (for a ForEach) its body. */
  datatype Module = Module(cls: Class, name: string, config: Config, body: seq<Spec>)

  /** A ForEach body element. `ClassConfig(c, cfg)` is the tuple
      `(c, cfg)`; a `None` config behaves exactly like `{}` everywhere in the
      source, so it is written `[]`. `Factory` is a zero-argument callable
      named `fname` whose call yields `made`, or raises when `made` is
      `None`; `Unsupported` is any plain value, which is not callable. */
  datatype Spec =
    | Instance(m: Module)
    | ClassRef(c: Class)
    | ClassConfig(c: Class, cfg: Config)
    | Factory(fname: string, made: Option<Module>)
    | Unsupported(v: Value)

  /** What the engine cannot see inside: the sandboxed `eval` of an
      expression text with `x` bound (None when it raises), Python's `str()`
      of a payload, and `str()` of a module object. */
  datatype Host = Host(eval: (string, Value) -> Option<Value>, repr: Value -> string, objRepr: Module -> string)

  /** The class's `__name__`. */
  function ClassName(c: Class): string {
    match c
    case BaseC => "BaseModule"
    case IntSourceC => "IntSource"
    case MultiplyC => "MultiplyModule"
    case ToStringC => "ToStringModule"
    case FilterC => "FilterModule"
    case TransformC => "TransformModule"
    case ForEachC => "ForEachModule"
  }

  /** The default of the constructor's `name` parameter; `BaseModule` has none. */
  function DefaultName(c: Class): Option<string> {
    match c
    case BaseC => None
    case IntSourceC => Some("IntSource")
    case MultiplyC => Some("Multiply")
    case ToStringC => Some("ToString")
    case FilterC => Some("Filter")
    case TransformC => Some("Transform")
    case ForEachC => Some("ForEach")
  }

  /** The constructor's parameters after `self`. */
  function Params(c: Class): seq<string> {
    if c == ForEachC then ["name", "body", "config"] else ["name", "config"]
  }

  /** `{k: v for k, v in cfg.items() if k in ps}`: the entries of a config
      whose keys are among the names `ps`, in the config's order. */
  function Matching(cfg: Config, ps: seq<string>): (kw: Config)
    ensures ConfigSize(kw) <= ConfigSize(cfg)
    ensures forall k :: HasKey(kw, k) <==> HasKey(cfg, k) && k in ps
    ensures forall k :: HasKey(kw, k) ==> Get(kw, k) == Get(cfg, k)
  {
    if cfg == [] then []
    else
      var rest := Matching(cfg[1..], ps);
      assert cfg == [cfg[0]] + cfg[1..];
      assert forall k :: HasKey(cfg, k) <==> cfg[0].0 == k || HasKey(cfg[1..], k) by {
        forall k
          ensures HasKey(cfg, k) <==> cfg[0].0 == k || HasKey(cfg[1..], k)
        {
          HasKeyCons(cfg[0], cfg[1..], k);
        }
      }
      if cfg[0].0 in ps then
        var kw := [cfg[0]] + rest;
        assert forall k :: HasKey(kw, k) <==> cfg[0].0 == k || HasKey(rest, k) by {
          forall k
            ensures HasKey(kw, k) <==> cfg[0].0 == k || HasKey(rest, k)
          {
            HasKeyCons(cfg[0], rest, k);
          }
        }
        kw
      else rest
  }

  /** A name that is no key of the config does not change what matches. */
  lemma {:induction false} MatchingIgnoresAbsent(cfg: Config, ps: seq<string>, extra: string)
    requires !HasKey(cfg, extra)
    ensures Matching(cfg, ps + [extra]) == Matching(cfg, ps)
  {
    if cfg != [] {
      assert cfg[0].0 != extra;
      HasKeyCons(cfg[0], cfg[1..], extra);
      assert [cfg[0]] + cfg[1..] == cfg;
      MatchingIgnoresAbsent(cfg[1..], ps, extra);
    }
  }

  predicate ArgTruthy(a: Arg) {
    match a
    case AVal(v) => Truthy(v)
    case ASpecs(ss) => ss != []
  }

  /** `config.get(key, default)`. */
  function Lookup(config: Config, key: string, default: Arg): Arg {
    Get(config, key).GetOr(default)
  }

  /** A payload dict as a config dict. */
  function ToConfig(es: seq<(string, Value)>): (c: Config)
    ensures |c| == |es|
    ensures forall i :: 0 <= i < |es| ==> c[i] == (es[i].0, AVal(es[i].1))
  {
    if es == [] then [] else [(es[0].0, AVal(es[0].1))] + ToConfig(es[1..])
  }

  /** Calling the class's constructor with the given keyword arguments
      (`None` = not passed): `name` is required for `BaseModule` only,
      `config or {}` and `body or []` replace a missing or empty argument.
      Classes other than ForEach take no body. */
  function New(c: Class, name: Option<string>, config: Option<Config>, body: Option<seq<Spec>>): (r: Result<Module>)
    requires c != ForEachC ==> body.None?
    ensures r.Ok? <==> name.Some? || c != BaseC
    ensures r.Ok? ==> r.value.cls == c && r.value.config == config.GetOr([])
    ensures r.Ok? ==> r.value.name == if name.Some? then name.value else DefaultName(c).value
    ensures r.Ok? ==> r.value.body == body.GetOr([])
    ensures r.Err? ==> r.error == TypeError
  {
    var n := if name.Some? then name else DefaultName(c);
    if n.None? then Err(TypeError)
    else Ok(Module(c, n.value, config.GetOr([]), body.GetOr([])))
  }

  /** `BaseModule.process`: abstract. */
  function BaseProcess(x: Value): (r: Result<Value>)
    ensures r == Err(NotImplementedError)
  {
    Err(NotImplementedError)
  }

  // Sizes of the spec tree, used to show that nested ForEach runs terminate.

  function SpecSize(s: Spec): nat {
    match s
    case Instance(m) => 1 + ModuleSize(m)
    case ClassRef(_) => 1
    case ClassConfig(_, cfg) => 1 + ConfigSize(cfg)
    case Factory(_, None) => 1
    case Factory(_, Some(m)) => 1 + ModuleSize(m)
    case Unsupported(_) => 1
  }

  function SpecsSize(ss: seq<Spec>): nat {
    if ss == [] then 0 else SpecsSize(ss[..|ss| - 1]) + 1 + SpecSize(ss[|ss| - 1])
  }

  function ModuleSize(m: Module): nat {
    1 + ConfigSize(m.config) + SpecsSize(m.body)
  }

  function ConfigSize(cfg: Config): nat {
    if cfg == [] then 0
    else
      assert cfg[0].1 < cfg[0] && cfg[0] in cfg;
      1 + ArgSize(cfg[0].1) + ConfigSize(cfg[1..])
  }

  /** A plain list becomes one `Unsupported` spec per element when it is
      passed as a body, hence its weight. */
  function ArgSize(a: Arg): nat {
    match a
    case AVal(v) => if v.List? then 1 + 2 * |v.items| else 1
    case ASpecs(ss) => 1 + SpecsSize(ss)
  }

  /** Every element of a body is smaller than the body. */
  lemma {:induction false} SpecInBody(ss: seq<Spec>, i: nat)
    requires i < |ss|
    ensures SpecSize(ss[i]) < SpecsSize(ss)
    decreases |ss|
  {
    if i < |ss| - 1 {
      SpecInBody(ss[..|ss| - 1], i);
    }
  }

  /** A config entry is smaller than the config holding it. */
  lemma {:induction false} ArgInConfig(cfg: Config, k: string)
    requires HasKey(cfg, k)
    ensures ArgSize(Get(cfg, k).value) < ConfigSize(cfg)
    decreases |cfg|
  {
    if cfg[0].0 != k {
      assert HasKey(cfg[1..], k) by {
        var i :| 0 <= i < |cfg| && cfg[i].0 == k;
        assert cfg[1..][i - 1].0 == k;
      }
      ArgInConfig(cfg[1..], k);
    }
  }
}
