/** `ForEachModule`, stated as functions: how a body spec becomes a fresh
    module, how one item is threaded through the body, what the stage
    returns, and the per-step preview it leaves behind. The imperative
    object that runs these loops is `Stages.Stage`. */
module ForEach {
  import opened Values
  import opened Base
  import IntSource
  import Multiply
  import Filter
  import Transform

  datatype Status = Running | Done

  /** One slot of `_body_preview`: the step's display name, the value it
      last received and returned, its status, and, when the step is itself
      a ForEach, that inner stage's own preview. */
  datatype Entry = Entry(
    name: string,
    lastInput: Value,
    lastOutput: Value,
    status: Status,
    nested: Option<seq<Option<Entry>>>)

  /** The items ForEach iterates: a list as it is, anything else (None
      included) as a one-element list. */
  function ItemsOf(x: Value): (items: seq<Value>)
    ensures x.List? ==> items == x.items
    ensures !x.List? ==> items == [x]
  {
    if x.List? then x.items else [x]
  }

  // Spec resolution (`_instantiate_step`).

  /** The entries of a `(cls, cfg)` dict whose keys are parameters of
      `cls.__init__` (`self` included), in the dict's order. */
  function KwArgs(c: Class, cfg: Config): (kw: Config)
    ensures ConfigSize(kw) <= ConfigSize(cfg)
    ensures forall k :: HasKey(kw, k) <==> HasKey(cfg, k) && k in Params(c) + ["self"]
    ensures forall k :: HasKey(kw, k) ==> Get(kw, k) == Get(cfg, k)
  {
    Matching(cfg, Params(c) + ["self"])
  }

  /** The `name` keyword argument: a string. */
  function NameArg(a: Arg): Option<string> {
    if a.AVal? && a.v.Str? then Some(a.v.s) else None
  }

  /** The `config` keyword argument: a dict, or a falsy value that
      `config or {}` replaces. */
  function ConfigArg(a: Arg): (r: Option<Config>)
  {
    if !ArgTruthy(a) then Some([])
    else if a.AVal? && a.v.Dict? then Some(ToConfig(a.v.entries))
    else None
  }

  /** The `body` keyword argument: a list of specs, a list of plain values
      (each then an unsupported spec), or a falsy value that `body or []`
      replaces. */
  function BodyArg(a: Arg): (r: Option<seq<Spec>>)
    ensures r.Some? ==> SpecsSize(r.value) < ArgSize(a)
  {
    if !ArgTruthy(a) then Some([])
    else match a
      case ASpecs(ss) => Some(ss)
      case AVal(List(vs)) => UnsupportedSize(vs); Some(AsUnsupported(vs))
      case _ => None
  }

  function AsUnsupported(vs: seq<Value>): (ss: seq<Spec>)
    ensures |ss| == |vs| && forall i :: 0 <= i < |vs| ==> ss[i] == Unsupported(vs[i])
  {
    if vs == [] then [] else AsUnsupported(vs[..|vs| - 1]) + [Unsupported(vs[|vs| - 1])]
  }

  lemma {:induction false} UnsupportedSize(vs: seq<Value>)
    ensures SpecsSize(AsUnsupported(vs)) == 2 * |vs|
  {
    if vs != [] {
      UnsupportedSize(vs[..|vs| - 1]);
      assert AsUnsupported(vs)[..|vs| - 1] == AsUnsupported(vs[..|vs| - 1]);
    }
  }

  /** `cls(**kwargs)`: `self` cannot be passed twice, and each argument must
      have its annotated type; a missing `name` is the class default. */
  function Construct(c: Class, kw: Config): (r: Result<Module>)
    ensures HasKey(kw, "self") ==> r == Err(TypeError)
    ensures r.Err? ==> r.error == TypeError
    ensures r.Ok? ==> r.value.cls == c
    ensures r.Ok? && !HasKey(kw, "name") ==> DefaultName(c) == Some(r.value.name)
    ensures r.Ok? && !HasKey(kw, "config") ==> r.value.config == []
    ensures r.Ok? && (c != ForEachC || !HasKey(kw, "body")) ==> r.value.body == []
  {
    var name := Get(kw, "name");
    var config := Get(kw, "config");
    var body := if c == ForEachC then Get(kw, "body") else None;
    if HasKey(kw, "self") then Err(TypeError)
    else if name.Some? && NameArg(name.value).None? then Err(TypeError)
    else if config.Some? && ConfigArg(config.value).None? then Err(TypeError)
    else if body.Some? && BodyArg(body.value).None? then Err(TypeError)
    else New(c,
             if name.Some? then NameArg(name.value) else None,
             if config.Some? then ConfigArg(config.value) else None,
             if body.Some? then BodyArg(body.value) else None)
  }

  /** `_instantiate_step`: a fresh module for one body spec. An instance is
      rebuilt from its own constructor parameters; a `(cls, cfg)` pair is
      built from the keys of `cfg` that are parameters when there are any
      and that succeeds, and from `config=cfg` otherwise; a class or a
      factory is called with no arguments; anything else is a TypeError. */
  function Resolve(spec: Spec): (r: Result<Module>)
    ensures spec.Instance? ==>
      && r.Ok? && r.value.cls == spec.m.cls && r.value.name == spec.m.name
      && r.value.config == spec.m.config
      && r.value.body == (if spec.m.cls == ForEachC then spec.m.body else [])
    ensures spec.ClassRef? ==> r == New(spec.c, None, None, None)
    ensures spec.ClassConfig? && KwArgs(spec.c, spec.cfg) != [] && Construct(spec.c, KwArgs(spec.c, spec.cfg)).Ok? ==>
      r == Construct(spec.c, KwArgs(spec.c, spec.cfg))
    ensures spec.ClassConfig? && (KwArgs(spec.c, spec.cfg) == [] || Construct(spec.c, KwArgs(spec.c, spec.cfg)).Err?) ==>
      r == New(spec.c, None, Some(spec.cfg), None)
    ensures spec.Factory? ==> (r.Ok? <==> spec.made.Some?) && (r.Ok? ==> r.value == spec.made.value)
    ensures spec.Unsupported? ==> r == Err(TypeError)
    ensures r.Ok? ==> SpecsSize(r.value.body) < SpecSize(spec)
  {
    match spec
    case Instance(m) =>
      New(m.cls, Some(m.name), Some(m.config), if m.cls == ForEachC then Some(m.body) else None)
    case ClassRef(c) => New(c, None, None, None)
    case ClassConfig(c, cfg) =>
      var kw := KwArgs(c, cfg);
      var built := Construct(c, kw);
      if kw != [] && built.Ok? then
        assert SpecsSize(built.value.body) < SpecSize(spec) by {
          if c == ForEachC && HasKey(kw, "body") {
            ArgInConfig(kw, "body");
          }
        }
        built
      else New(c, None, Some(cfg), None)
    case Factory(_, made) =>
      if made.Some? then Ok(made.value) else Err(TypeError)
    case Unsupported(_) => Err(TypeError)
  }

  /** The preview name of a step: the module's own name when it has a
      non-empty one, otherwise the class name of a class or `(cls, cfg)`
      spec, the factory's `__name__`, or `str(spec)`. */
  function StepName(h: Host, spec: Spec, res: Result<Module>): (n: string)
    ensures res.Ok? && res.value.name != "" ==> n == res.value.name
  {
    if res.Ok? && res.value.name != "" then res.value.name
    else match spec
      case Instance(m) => h.objRepr(m)
      case ClassRef(c) => ClassName(c)
      case ClassConfig(c, _) => ClassName(c)
      case Factory(f, _) => f
      case Unsupported(v) => h.repr(v)
  }

  // Running a body.

  /** `module.process(x)` for a module of each class. */
  function Exec(h: Host, m: Module, x: Value): (r: Result<Value>)
    ensures m.cls == ForEachC ==> r == Ok(Process(h, m.body, x))
    ensures m.cls == BaseC ==> r == BaseProcess(x)
    ensures m.cls == ToStringC ==> r == Ok(Str(h.repr(x)))
    decreases SpecsSize(m.body), 3, 0
  {
    match m.cls
    case BaseC => BaseProcess(x)
    case IntSourceC => IntSource.Process(m.config, x)
    case MultiplyC => Multiply.Process(m.config, x)
    case ToStringC => Ok(Str(h.repr(x)))
    case FilterC => Filter.Process(h, m.config, x)
    case TransformC => Transform.Process(h, m.config, x)
    case ForEachC => Ok(Process(h, m.body, x))
  }

  /** One step on one value: the new `current` and the finished preview
      slot. A spec that does not resolve, or a module whose `process`
      raises, leaves the value as it was. */
  function StepOne(h: Host, spec: Spec, x: Value): (r: (Value, Entry))
    ensures r.1.lastInput == x && r.1.lastOutput == r.0 && r.1.status == Done
    ensures Resolve(spec).Err? ==> r.0 == x
    ensures Resolve(spec).Ok? ==> r.0 == (var out := Exec(h, Resolve(spec).value, x); if out.Ok? then out.value else x)
    ensures r.1.nested.Some? <==> Resolve(spec).Ok? && Resolve(spec).value.cls == ForEachC
    decreases SpecSize(spec), 4, 0
  {
    var res := Resolve(spec);
    var name := StepName(h, spec, res);
    if res.Err? then (x, Entry(name, x, x, Done, None))
    else
      var out := Exec(h, res.value, x);
      var y := if out.Ok? then out.value else x;
      var nested := if res.value.cls == ForEachC then Some(Preview(h, res.value.body, ItemsOf(x))) else None;
      (y, Entry(name, x, y, Done, nested))
  }

  /** One item threaded through the body in order: the final `current` and
      one preview slot per step. */
  function Steps(h: Host, body: seq<Spec>, x: Value): (r: (Value, seq<Entry>))
    ensures |r.1| == |body|
    decreases SpecsSize(body), 0, 0
  {
    if body == [] then (x, [])
    else
      var p := Steps(h, body[..|body| - 1], x);
      var s := StepOne(h, body[|body| - 1], p.0);
      (s.0, p.1 + [s.1])
  }

  /** The collected outputs, one per item. */
  function Outputs(h: Host, body: seq<Spec>, items: seq<Value>): (out: seq<Value>)
    ensures |out| == |items|
    ensures forall i :: 0 <= i < |items| ==> out[i] == Steps(h, body, items[i]).0
    decreases SpecsSize(body), 1, |items|
  {
    if items == [] then []
    else Outputs(h, body, items[..|items| - 1]) + [Steps(h, body, items[|items| - 1]).0]
  }

  /** `_body_preview` after a call: one slot per body step, all None when
      there were no items, otherwise the slots of the last item. */
  function Preview(h: Host, body: seq<Spec>, items: seq<Value>): (p: seq<Option<Entry>>)
    ensures |p| == |body|
    ensures items == [] ==> p == Nones(|body|)
    ensures items != [] ==> p == Somes(Steps(h, body, items[|items| - 1]).1)
    decreases SpecsSize(body), 1, 0
  {
    if items == [] then Nones(|body|)
    else Somes(Steps(h, body, items[|items| - 1]).1)
  }

  function Nones(n: nat): (p: seq<Option<Entry>>)
    ensures |p| == n && forall i :: 0 <= i < n ==> p[i].None?
  {
    if n == 0 then [] else Nones(n - 1) + [None]
  }

  function Somes(es: seq<Entry>): (p: seq<Option<Entry>>)
    ensures |p| == |es| && forall i :: 0 <= i < |es| ==> p[i] == Some(es[i])
  {
    if es == [] then [] else Somes(es[..|es| - 1]) + [Some(es[|es| - 1])]
  }

  /** `ForEachModule.process`: one output per item, in order, each the item
      threaded through the body; a payload that is not a list is iterated
      as a one-element list. It never raises. */
  function Process(h: Host, body: seq<Spec>, x: Value): (r: Value)
    ensures r.List? && |r.items| == |ItemsOf(x)|
    ensures forall i :: 0 <= i < |r.items| ==> r.items[i] == Steps(h, body, ItemsOf(x)[i]).0
    ensures !x.List? ==> r.items == [Steps(h, body, x).0]
    decreases SpecsSize(body), 2, 0
  {
    List(Outputs(h, body, ItemsOf(x)))
  }

  /** The body's first `j + 1` steps are its first `j` steps followed by
      step `j`. */
  lemma OneMoreStep(h: Host, body: seq<Spec>, j: nat, x: Value)
    requires j < |body|
    ensures var p := Steps(h, body[..j], x);
      Steps(h, body[..j + 1], x) == (StepOne(h, body[j], p.0).0, p.1 + [StepOne(h, body[j], p.0).1])
  {
    var next := body[..j + 1];
    assert next[..|next| - 1] == body[..j] && next[|next| - 1] == body[j];
  }

  lemma SomesSnoc(es: seq<Entry>, e: Entry)
    ensures Somes(es + [e]) == Somes(es) + [Some(e)]
  {
    assert (es + [e])[..|es|] == es;
  }

  /** A preview slot written as running and then as done extends the
      finished prefix by that step. */
  lemma SlotDone(p: seq<Option<Entry>>, j: nat, done: seq<Entry>, running: Option<Entry>, e: Entry)
    requires j < |p| && p[..j] == Somes(done)
    ensures p[j := running][j := Some(e)][..j + 1] == Somes(done + [e])
  {
    SomesSnoc(done, e);
    assert p[j := running][j := Some(e)][..j + 1] == p[..j] + [Some(e)];
  }

  lemma OneMoreItem(h: Host, body: seq<Spec>, items: seq<Value>, i: nat)
    requires i < |items|
    ensures Outputs(h, body, items[..i + 1]) == Outputs(h, body, items[..i]) + [Steps(h, body, items[i]).0]
    ensures Preview(h, body, items[..i + 1]) == Somes(Steps(h, body, items[i]).1)
  {
    var next := items[..i + 1];
    assert next[..|next| - 1] == items[..i] && next[|next| - 1] == items[i];
  }

  // Properties of a run.

  /** The slots of one item's run chain together: the first step saw the
      item, each step's output is the next step's input, and the last
      step's output is the final value. */
  lemma {:induction false} StepsChain(h: Host, body: seq<Spec>, x: Value)
    ensures body == [] ==> Steps(h, body, x).0 == x
    ensures body != [] ==> Steps(h, body, x).1[0].lastInput == x
    ensures body != [] ==> Steps(h, body, x).1[|body| - 1].lastOutput == Steps(h, body, x).0
    ensures forall i :: 0 <= i < |body| - 1 ==>
      Steps(h, body, x).1[i].lastOutput == Steps(h, body, x).1[i + 1].lastInput
    decreases |body|
  {
    if body != [] {
      var init := body[..|body| - 1];
      StepsChain(h, init, x);
      var p := Steps(h, init, x);
      var es := Steps(h, body, x).1;
      assert es == p.1 + [StepOne(h, body[|body| - 1], p.0).1];
      forall i | 0 <= i < |body| - 1
        ensures es[i] == p.1[i]
      {
      }
    }
  }

  /** Every slot of one item's run is done, and a slot carries a nested
      preview exactly when its step resolved to a ForEach. */
  lemma {:induction false} StepsSlots(h: Host, body: seq<Spec>, x: Value)
    ensures forall i :: 0 <= i < |body| ==> Steps(h, body, x).1[i].status == Done
    ensures forall i :: 0 <= i < |body| ==>
      (Steps(h, body, x).1[i].nested.Some? <==> Resolve(body[i]).Ok? && Resolve(body[i]).value.cls == ForEachC)
    decreases |body|
  {
    if body != [] {
      var init := body[..|body| - 1];
      StepsSlots(h, init, x);
      var p := Steps(h, init, x);
      var es := Steps(h, body, x).1;
      assert es == p.1 + [StepOne(h, body[|body| - 1], p.0).1];
    }
  }

  /** Running `a` then `b` is running `a + b`: the value threads through. */
  lemma {:induction false} StepsAppend(h: Host, a: seq<Spec>, b: seq<Spec>, x: Value)
    ensures Steps(h, a + b, x).0 == Steps(h, b, Steps(h, a, x).0).0
    decreases |b|
  {
    if b == [] {
      assert a + b == a;
    } else {
      var b' := b[..|b| - 1];
      StepsAppend(h, a, b', x);
      assert (a + b)[..|a + b| - 1] == a + b';
      assert (a + b)[|a + b| - 1] == b[|b| - 1];
    }
  }

  /** Running `a` then `b` is running `a + b`: the slots concatenate. */
  lemma {:induction false} StepsAppendSlots(h: Host, a: seq<Spec>, b: seq<Spec>, x: Value)
    ensures Steps(h, a + b, x).1 == Steps(h, a, x).1 + Steps(h, b, Steps(h, a, x).0).1
    decreases |b|
  {
    if b == [] {
      assert a + b == a;
    } else {
      var b' := b[..|b| - 1];
      StepsAppend(h, a, b', x);
      StepsAppendSlots(h, a, b', x);
      assert (a + b)[..|a + b| - 1] == a + b';
      assert (a + b)[|a + b| - 1] == b[|b| - 1];
    }
  }

  /** A step that cannot be resolved, or that resolves to the abstract
      `BaseModule`, changes nothing and the steps after it still run: the
      result is as if it were not in the body. */
  lemma SkippedStep(h: Host, a: seq<Spec>, spec: Spec, b: seq<Spec>, x: Value)
    requires Resolve(spec).Err? || Resolve(spec).value.cls == BaseC
    ensures Steps(h, a + [spec] + b, x).0 == Steps(h, a + b, x).0
  {
    StepsAppend(h, a + [spec], b, x);
    StepsAppend(h, a, [spec], x);
    StepsAppend(h, a, b, x);
    var y := Steps(h, a, x).0;
    assert Steps(h, [spec], y).0 == StepOne(h, spec, y).0 by {
      assert [spec][..0] == [];
    }
  }

  /** The collected outputs are the items threaded through the body one
      by one; the empty body leaves a list as it is. */
  lemma EmptyBodyIsIdentity(h: Host, xs: seq<Value>)
    ensures Process(h, [], List(xs)) == List(xs)
  {
    var r := Process(h, [], List(xs)).items;
    forall i | 0 <= i < |xs|
      ensures r[i] == xs[i]
    {
      StepsChain(h, [], xs[i]);
    }
  }

  /** After a run over at least one item every slot holds the last item's
      step, chained from that item to the last collected output. */
  lemma PreviewAfterRun(h: Host, body: seq<Spec>, items: seq<Value>)
    requires items != [] && body != []
    ensures var p := Preview(h, body, items);
      && (forall i :: 0 <= i < |body| ==> p[i].Some? && p[i].value.status == Done)
      && p[0].value.lastInput == items[|items| - 1]
      && (forall i :: 0 <= i < |body| - 1 ==> p[i].value.lastOutput == p[i + 1].value.lastInput)
      && p[|body| - 1].value.lastOutput == Outputs(h, body, items)[|items| - 1]
      && forall i :: 0 <= i < |body| ==>
           (p[i].value.nested.Some? <==> Resolve(body[i]).Ok? && Resolve(body[i]).value.cls == ForEachC)
  {
    StepsChain(h, body, items[|items| - 1]);
    StepsSlots(h, body, items[|items| - 1]);
  }

  /** `(ForEachModule, {"body": B})` gives a ForEach with body B and an
      empty config, the same module as rebuilding a default-named ForEach
      instance with body B. */
  lemma BodyTupleResolves(body: seq<Spec>)
    ensures Resolve(ClassConfig(ForEachC, [("body", ASpecs(body))])) == Ok(Module(ForEachC, "ForEach", [], body))
    ensures Resolve(Instance(Module(ForEachC, "ForEach", [], body))) == Resolve(ClassConfig(ForEachC, [("body", ASpecs(body))]))
  {
    var cfg: Config := [("body", ASpecs(body))];
    var kw := KwArgs(ForEachC, cfg);
    assert HasKey(cfg, "body") by { assert cfg[0].0 == "body"; }
    assert HasKey(kw, "body");
    assert !HasKey(kw, "self") && !HasKey(kw, "name") && !HasKey(kw, "config");
    assert Get(kw, "body") == Some(ASpecs(body));
  }

  /** A `(cls, cfg)` pair whose keys are no constructor parameter passes
      the whole dict as the config and takes the class's default name. */
  lemma ConfigTupleResolves(c: Class, cfg: Config)
    requires c != BaseC
    requires forall k :: HasKey(cfg, k) ==> k !in Params(c) + ["self"]
    ensures Resolve(ClassConfig(c, cfg)) == Ok(Module(c, DefaultName(c).value, cfg, []))
  {
    var kw := KwArgs(c, cfg);
    if kw != [] {
      assert HasKey(kw, kw[0].0);
    }
  }

  // Body edits.

  /** `body.pop(i)` for an index in range, otherwise the body as it was. */
  function Removed(body: seq<Spec>, i: int): (r: seq<Spec>)
    ensures 0 <= i < |body| ==> |r| == |body| - 1
    ensures 0 <= i < |body| ==> forall k :: 0 <= k < i ==> r[k] == body[k]
    ensures 0 <= i < |body| ==> forall k :: i <= k < |r| ==> r[k] == body[k + 1]
    ensures !(0 <= i < |body|) ==> r == body
  {
    if 0 <= i < |body| then body[..i] + body[i + 1..] else body
  }

  /** `body.insert(j, x)` for `0 <= j <= len(body)`. */
  function Inserted(body: seq<Spec>, j: nat, x: Spec): (r: seq<Spec>)
    requires j <= |body|
    ensures |r| == |body| + 1 && r[j] == x
    ensures forall k :: 0 <= k < j ==> r[k] == body[k]
    ensures forall k :: j < k < |r| ==> r[k] == body[k - 1]
  {
    body[..j] + [x] + body[j..]
  }

  /** `reorder_body_modules(i, j)`: the element at `i` taken out and put
      back at `j`, when both are indexes of the body. */
  function Moved(body: seq<Spec>, i: int, j: int): (r: seq<Spec>)
    ensures |r| == |body|
    ensures 0 <= i < |body| && 0 <= j < |body| ==> r[j] == body[i]
    ensures !(0 <= i < |body| && 0 <= j < |body|) ==> r == body
  {
    if 0 <= i < |body| && 0 <= j < |body| then Inserted(Removed(body, i), j, body[i]) else body
  }

  /** Removing an element leaves the others, once each. */
  lemma RemovedMultiset(body: seq<Spec>, i: nat)
    requires i < |body|
    ensures multiset(Removed(body, i)) + multiset{body[i]} == multiset(body)
  {
    assert body == body[..i] + [body[i]] + body[i + 1..];
  }

  /** Inserting at `j` and removing at `j` cancel. */
  lemma RemoveInserted(body: seq<Spec>, j: nat, x: Spec)
    requires j <= |body|
    ensures Removed(Inserted(body, j, x), j) == body
  {
  }

  /** Putting an element back where it was taken from restores the body. */
  lemma InsertRemoved(body: seq<Spec>, i: nat)
    requires i < |body|
    ensures Inserted(Removed(body, i), i, body[i]) == body
  {
  }

  /** A reorder is a permutation, the moved element's neighbours keep their
      relative order, and moving it back undoes the move. */
  lemma MovedProperties(body: seq<Spec>, i: nat, j: nat)
    requires i < |body| && j < |body|
    ensures multiset(Moved(body, i, j)) == multiset(body)
    ensures Removed(Moved(body, i, j), j) == Removed(body, i)
    ensures Moved(Moved(body, i, j), j, i) == body
  {
    var t := Removed(body, i);
    var m := Moved(body, i, j);
    RemovedMultiset(body, i);
    assert m == t[..j] + [body[i]] + t[j..];
    assert t == t[..j] + t[j..];
    RemoveInserted(t, j, body[i]);
    InsertRemoved(body, i);
  }
}
