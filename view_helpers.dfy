/** The widget-free helpers of the editor views: turning a body spec into a
    module for display, the module-name and view registries, the diff
    between a stage's propagated output and its input and the text spans
    that show it, the editable config fields of a module, and writing a
    child's edited config back into its parent ForEach's body. */
module ViewHelpers {
  import opened Values
  import opened Base
  import ForEach
  import Stages

  // Spec instantiation (`extract_module_from_spec`, `_instantiate_module`).

  /** `_instantiate_module(cls, cfg)`: the keys of `cfg` that name
      constructor parameters (`self` not among them) become keyword
      arguments when there are any and the call succeeds; otherwise the
      class is called with `config=cfg`, or with no arguments when `cfg` is
      empty, which gives the same module. A failure of that last call
      propagates. */
  function InstantiateModule(c: Class, cfg: Config): (r: Result<Module>)
    ensures r.Ok? ==> r.value.cls == c
    ensures r.Err? ==> c == BaseC && r.error == TypeError
  {
    var kw := Matching(cfg, Params(c));
    var built := ForEach.Construct(c, kw);
    if kw != [] && built.Ok? then built
    else New(c, None, Some(cfg), None)
  }

  /** A config with no key that names a parameter becomes the module's
      whole config, under the class's default name; only the abstract
      `BaseModule`, which has no default name, fails. */
  lemma PlainConfig(c: Class, cfg: Config)
    requires forall k :: k in Params(c) ==> !HasKey(cfg, k)
    ensures c == BaseC ==> InstantiateModule(c, cfg) == Err(TypeError)
    ensures c != BaseC ==> InstantiateModule(c, cfg) == Ok(Module(c, DefaultName(c).value, cfg, []))
  {
    var kw := Matching(cfg, Params(c));
    if kw != [] {
      assert HasKey(kw, kw[0].0);
    }
  }

  /** `extract_module_from_spec`: `Ok(None)` when the spec is neither a
      module, a `(class, config)` pair nor a class; an error when building
      the module raises. */
  function ExtractModule(spec: Spec): (r: Result<Option<Module>>)
    ensures spec.Instance? ==> r == Ok(Some(spec.m))
    ensures spec.Factory? || spec.Unsupported? ==> r == Ok(None)
    ensures spec.ClassRef? || spec.ClassConfig? ==>
      && (r.Ok? ==> r.value.Some? && r.value.value.cls == spec.c)
      && (r.Err? ==> spec.c == BaseC && r.error == TypeError)
  {
    match spec
    case Instance(m) => Ok(Some(m))
    case ClassConfig(c, cfg) =>
      var built := InstantiateModule(c, cfg);
      if built.Ok? then Ok(Some(built.value)) else Err(built.error)
    case ClassRef(c) =>
      var built := New(c, None, None, None);
      if built.Ok? then Ok(Some(built.value)) else Err(built.error)
    case Factory(_, _) => Ok(None)
    case Unsupported(_) => Ok(None)
  }

  /** How the view's module differs from the module a ForEach runs for the
      same spec: an instance is shown as it is while the ForEach rebuilds
      it (dropping the body of a class other than ForEach); a class or a
      `(class, config)` pair without a `self` key gives the same module; a
      factory is not shown at all although the ForEach calls it. */
  lemma ExtractVersusResolve(spec: Spec)
    ensures spec.Instance? ==>
      && ExtractModule(spec) == Ok(Some(spec.m))
      && ForEach.Resolve(spec) == Ok(if spec.m.cls == ForEachC then spec.m else spec.m.(body := []))
    ensures spec.ClassRef? || (spec.ClassConfig? && !HasKey(spec.cfg, "self")) ==>
      && (ExtractModule(spec).Ok? <==> ForEach.Resolve(spec).Ok?)
      && (ExtractModule(spec).Ok? ==> ExtractModule(spec).value == Some(ForEach.Resolve(spec).value))
      && (ExtractModule(spec).Err? ==> ExtractModule(spec).error == ForEach.Resolve(spec).error)
    ensures spec.Factory? ==> ExtractModule(spec) == Ok(None)
  {
    if spec.ClassConfig? && !HasKey(spec.cfg, "self") {
      MatchingIgnoresAbsent(spec.cfg, Params(spec.c), "self");
      assert ForEach.KwArgs(spec.c, spec.cfg) == Matching(spec.cfg, Params(spec.c));
    }
  }

  // The module-name registry (`register_modules`, `get_module_class`).

  /** The names `register_modules` fills the registry with. */
  function ModuleRegistry(): seq<(string, Class)> {
    [("IntSource", IntSourceC), ("MultiplyModule", MultiplyC), ("ToStringModule", ToStringC), ("ForEachModule", ForEachC)]
  }

  /** `get_module_class(name)`: `MODULE_REGISTRY.get(name)`. */
  function ModuleClass(name: string): (r: Option<Class>)
    ensures r.Some? ==> ClassName(r.value) == name
  {
    Get(ModuleRegistry(), name)
  }

  /** Exactly four names are known, and each gives back the class of that
      name; the class of any other name, Filter and Transform included, is
      not found. */
  lemma ModuleClassNames(name: string)
    ensures ModuleClass(name).Some? <==>
      name == "IntSource" || name == "MultiplyModule" || name == "ToStringModule" || name == "ForEachModule"
    ensures ModuleClass(name).Some? ==> ClassName(ModuleClass(name).value) == name
  {
    var reg := ModuleRegistry();
    assert reg[0].0 == "IntSource" && reg[1].0 == "MultiplyModule";
    assert reg[2].0 == "ToStringModule" && reg[3].0 == "ForEachModule";
  }

  /** Looking a class up by its own name finds it exactly when it is one of
      the four registered classes. */
  lemma ModuleClassOfName(c: Class)
    ensures ModuleClass(ClassName(c)) == (if c in {IntSourceC, MultiplyC, ToStringC, ForEachC} then Some(c) else None)
  {
    ModuleClassNames(ClassName(c));
  }

  // Views and the view registry.

  /** The parts of a `PipelineModuleView` the helpers use: the stage it
      shows, the views of a ForEach's body steps, and `str(id(view))`,
      which distinguishes live views. */
  class ModuleView {
    const key: string
    var stage: Stages.Stage
    var bodyViews: seq<ModuleView>

    constructor(key: string, stage: Stages.Stage)
      ensures this.key == key && this.stage == stage && bodyViews == []
    {
      this.key := key;
      this.stage := stage;
      bodyViews := [];
    }
  }

  /** `VIEW_REGISTRY`: views by their id string. */
  class ViewRegistry {
    var views: map<string, ModuleView>

    constructor()
      ensures views == map[]
    {
      views := map[];
    }

    /** `get_view_by_id`. */
    function Lookup(id: string): (r: Option<ModuleView>)
      reads this
      ensures r.Some? <==> id in views
      ensures r.Some? ==> r.value == views[id]
    {
      if id in views then Some(views[id]) else None
    }

    /** `register_view`: afterwards the view is found by its id, and every
        other id finds what it found before. */
    method Register(v: ModuleView)
      modifies this
      ensures views == old(views)[v.key := v]
      ensures Lookup(v.key) == Some(v)
      ensures forall id :: id != v.key ==> Lookup(id) == old(Lookup(id))
    {
      views := views[v.key := v];
    }

    /** `unregister_view`: afterwards nothing is found under the view's id,
        and every other id finds what it found before. */
    method Unregister(v: ModuleView)
      modifies this
      ensures views == old(views) - {v.key}
      ensures Lookup(v.key) == None
      ensures forall id :: id != v.key ==> Lookup(id) == old(Lookup(id))
    {
      views := views - {v.key};
    }
  }

  // Writing a child's config back into its parent's body
  // (`persist_config_to_parent_body`).

  /** The spec that replaces a body entry: the pair of a class and the
      child's config, the class being the one the old entry names (as a
      pair or as an instance) or else the child module's class. */
  function Rewritten(old_spec: Spec, childClass: Class, cfg: Config): (r: Spec)
    ensures r.ClassConfig? && r.cfg == cfg
    ensures old_spec.ClassConfig? ==> r.c == old_spec.c
    ensures old_spec.Instance? ==> r.c == old_spec.m.cls
    ensures !old_spec.ClassConfig? && !old_spec.Instance? ==> r.c == childClass
  {
    match old_spec
    case ClassConfig(c, _) => ClassConfig(c, cfg)
    case Instance(m) => ClassConfig(m.cls, cfg)
    case _ => ClassConfig(childClass, cfg)
  }

  /** Writing the same config back twice changes nothing the second time. */
  lemma RewrittenIdempotent(old_spec: Spec, childClass: Class, cfg: Config)
    ensures Rewritten(Rewritten(old_spec, childClass, cfg), childClass, cfg) == Rewritten(old_spec, childClass, cfg)
  {
  }

  /** `list.index`: the first position of `x`. */
  function IndexOf<T(==)>(xs: seq<T>, x: T): (i: nat)
    requires x in xs
    ensures i < |xs| && xs[i] == x && x !in xs[..i]
  {
    if xs[0] == x then 0
    else
      var j := IndexOf(xs[1..], x);
      assert xs[1..][..j] == xs[1..j + 1];
      1 + j
  }

  /** `persist_config_to_parent_body`: nothing happens unless there is a
      parent, it shows a ForEach, and the view is one of its body views;
      then the body entry at the view's position becomes the pair of its
      class and the child's config, and every other entry stays. A
      position past the end of the body raises an IndexError and changes
      nothing. */
  method PersistConfigToParentBody(view: ModuleView, parent: ModuleView?) returns (r: Result<()>)
    modifies (if parent == null then {} else {parent.stage})`body
    ensures parent != null ==> parent.stage.Snapshot() == old(parent.stage.Snapshot()).(body := parent.stage.body)
    ensures parent != null ==> parent.stage.Diagnostics() == old(parent.stage.Diagnostics())
    ensures parent == null || parent.stage.cls != ForEachC || view !in parent.bodyViews ==>
      r == Ok(()) && (parent != null ==> parent.stage.body == old(parent.stage.body))
    ensures parent != null && parent.stage.cls == ForEachC && view in parent.bodyViews ==>
      var idx := IndexOf(parent.bodyViews, view);
      var body := old(parent.stage.body);
      if idx < |body| then
        r == Ok(()) && parent.stage.body == body[idx := Rewritten(body[idx], old(view.stage.cls), old(view.stage.config))]
      else
        r == Err(IndexError) && parent.stage.body == body
  {
    if parent == null || parent.stage.cls != ForEachC || view !in parent.bodyViews {
      return Ok(());
    }
    var idx := IndexOf(parent.bodyViews, view);
    var target := parent.stage;
    if idx >= |target.body| {
      return Err(IndexError);
    }
    var spec := Rewritten(target.body[idx], view.stage.cls, view.stage.config);
    target.body := target.body[idx := spec];
    r := Ok(());
  }

  // The diff between a stage's propagated output and its input
  // (`calculate_output_diff`).

  /** `b` holds the elements of `a` in the same order, with others between. */
  predicate Subseq(a: seq<string>, b: seq<string>)
    decreases |b|
  {
    if a == [] then true
    else if b == [] then false
    else if a[|a| - 1] == b[|b| - 1] then Subseq(a[..|a| - 1], b[..|b| - 1])
    else Subseq(a, b[..|b| - 1])
  }

  lemma {:induction false} SubseqDropLast(a: seq<string>, b: seq<string>)
    requires a != [] && Subseq(a, b)
    ensures Subseq(a[..|a| - 1], b)
    decreases |b|, 0
  {
    var a' := a[..|a| - 1];
    if a' != [] {
      var b' := b[..|b| - 1];
      if a[|a| - 1] == b[|b| - 1] {
        SubseqGrow(a', b', b[|b| - 1]);
        assert b' + [b[|b| - 1]] == b;
      } else {
        SubseqDropLast(a, b');
        SubseqGrow(a', b', b[|b| - 1]);
        assert b' + [b[|b| - 1]] == b;
      }
    }
  }

  lemma {:induction false} SubseqGrow(a: seq<string>, b: seq<string>, x: string)
    requires Subseq(a, b)
    ensures Subseq(a, b + [x])
    decreases |b|, 1
  {
    if a != [] {
      assert (b + [x])[..|b|] == b;
      if a[|a| - 1] == x {
        SubseqDropLast(a, b);
      }
    }
  }

  /** Both growing by the same last element. */
  lemma SubseqBoth(a: seq<string>, b: seq<string>, x: string)
    requires Subseq(a, b)
    ensures Subseq(a + [x], b + [x])
  {
    assert (a + [x])[..|a|] == a && (b + [x])[..|b|] == b;
  }

  /** The keys of `es` that `inp` lacks, in `es`'s order. */
  function Added(es: seq<(string, Value)>, inp: seq<(string, Value)>): seq<string> {
    if es == [] then []
    else
      var k := es[|es| - 1].0;
      Added(es[..|es| - 1], inp) + (if HasKey(inp, k) then [] else [k])
  }

  /** The keys of `es` that `inp` has with a value `!=` to the one in `es`,
      in `es`'s order. */
  function Changed(es: seq<(string, Value)>, inp: seq<(string, Value)>): seq<string> {
    if es == [] then []
    else
      var e := es[|es| - 1];
      Changed(es[..|es| - 1], inp) + (if HasKey(inp, e.0) && !PyEq(Get(inp, e.0).value, e.1) then [e.0] else [])
  }

  /** `calculate_output_diff(prop, inp)`: (added, changed), both empty
      unless both payloads are dicts. */
  function OutputDiff(prop: Value, inp: Value): (r: (seq<string>, seq<string>))
    ensures |r.0| + |r.1| <= (if prop.Dict? then |prop.entries| else 0)
  {
    if prop.Dict? && inp.Dict? then
      DiffSize(prop.entries, inp.entries);
      (Added(prop.entries, inp.entries), Changed(prop.entries, inp.entries))
    else ([], [])
  }

  /** Each key of `es` is reported at most once, as added or as changed. */
  lemma {:induction false} DiffSize(es: seq<(string, Value)>, inp: seq<(string, Value)>)
    ensures |Added(es, inp)| + |Changed(es, inp)| <= |es|
  {
    if es != [] {
      DiffSize(es[..|es| - 1], inp);
    }
  }

  lemma HasKeySnoc<V>(es: seq<(string, V)>, e: (string, V), k: string)
    ensures HasKey(es + [e], k) <==> HasKey(es, k) || e.0 == k
  {
    if HasKey(es, k) {
      var i :| 0 <= i < |es| && es[i].0 == k;
      assert (es + [e])[i].0 == k;
    }
    assert (es + [e])[|es|] == e;
  }

  /** A key is added exactly when `prop` has it and `inp` does not. */
  lemma {:induction false} AddedMembers(es: seq<(string, Value)>, inp: seq<(string, Value)>, k: string)
    ensures k in Added(es, inp) <==> HasKey(es, k) && !HasKey(inp, k)
    decreases |es|
  {
    if es != [] {
      var init := es[..|es| - 1];
      AddedMembers(init, inp, k);
      HasKeySnoc(init, es[|es| - 1], k);
      assert init + [es[|es| - 1]] == es;
    }
  }

  /** A key is changed exactly when both have it and some entry of `prop`
      under it is `!=` to `inp`'s value. */
  lemma {:induction false} ChangedMembers(es: seq<(string, Value)>, inp: seq<(string, Value)>, k: string)
    ensures k in Changed(es, inp) <==>
      HasKey(inp, k) && exists i :: 0 <= i < |es| && es[i].0 == k && !PyEq(Get(inp, k).value, es[i].1)
    decreases |es|
  {
    if es != [] {
      var init := es[..|es| - 1];
      ChangedMembers(init, inp, k);
      if k in Changed(es, inp) && k !in Changed(init, inp) {
        assert es[|es| - 1].0 == k;
      }
      if HasKey(inp, k) && exists i :: 0 <= i < |es| && es[i].0 == k && !PyEq(Get(inp, k).value, es[i].1) {
        var i :| 0 <= i < |es| && es[i].0 == k && !PyEq(Get(inp, k).value, es[i].1);
        if i < |es| - 1 {
          assert init[i] == es[i];
        }
      }
    }
  }

  /** No key is both added and changed. */
  lemma DiffDisjoint(prop: Value, inp: Value, k: string)
    ensures !(k in OutputDiff(prop, inp).0 && k in OutputDiff(prop, inp).1)
  {
    if prop.Dict? && inp.Dict? {
      AddedMembers(prop.entries, inp.entries, k);
      ChangedMembers(prop.entries, inp.entries, k);
    }
  }

  lemma KeysSnoc<V>(es: seq<(string, V)>)
    requires es != []
    ensures Keys(es) == Keys(es[..|es| - 1]) + [es[|es| - 1].0]
  {
  }

  /** Both lists follow `prop`'s key order. */
  lemma {:induction false} DiffInOrder(es: seq<(string, Value)>, inp: seq<(string, Value)>)
    ensures Subseq(Added(es, inp), Keys(es))
    ensures Subseq(Changed(es, inp), Keys(es))
    decreases |es|
  {
    if es != [] {
      var init := es[..|es| - 1];
      var k := es[|es| - 1].0;
      DiffInOrder(init, inp);
      KeysSnoc(es);
      var keys := Keys(init) + [k];
      if HasKey(inp, k) {
        assert Added(es, inp) == Added(init, inp);
        SubseqGrow(Added(init, inp), Keys(init), k);
      } else {
        assert Added(es, inp) == Added(init, inp) + [k];
        SubseqBoth(Added(init, inp), Keys(init), k);
      }
      if HasKey(inp, k) && !PyEq(Get(inp, k).value, es[|es| - 1].1) {
        assert Changed(es, inp) == Changed(init, inp) + [k];
        SubseqBoth(Changed(init, inp), Keys(init), k);
      } else {
        assert Changed(es, inp) == Changed(init, inp);
        SubseqGrow(Changed(init, inp), Keys(init), k);
      }
    }
  }

  /** `calculate_output_diff`'s loop over `prop.items()`. */
  method CalculateOutputDiff(prop: Value, inp: Value) returns (added: seq<string>, changed: seq<string>)
    ensures (added, changed) == OutputDiff(prop, inp)
  {
    added, changed := [], [];
    if prop.Dict? && inp.Dict? {
      var es := prop.entries;
      for i := 0 to |es|
        invariant added == Added(es[..i], inp.entries)
        invariant changed == Changed(es[..i], inp.entries)
      {
        var (k, v) := es[i];
        assert es[..i + 1][..i] == es[..i];
        if !HasKey(inp.entries, k) {
          added := added + [k];
        } else if !PyEq(Get(inp.entries, k).value, v) {
          changed := changed + [k];
        }
      }
      assert es[..|es|] == es;
    }
  }

  // The spans that show the diff (`build_diff_spans`).

  /** Key spans are coloured; headers and separators are not. */
  datatype Color = Plain | Green | Orange

  datatype Span = Span(text: string, color: Color)

  const HeaderText := "Propagated output:"
  const AddedText := "  Added: "
  const ChangedText := "  Changed: "
  const Separator := ", "

  /** The keys in one colour with a plain separator between neighbours. */
  function Joined(ks: seq<string>, col: Color): (spans: seq<Span>)
  {
    if ks == [] then []
    else if |ks| == 1 then [Span(ks[0], col)]
    else Joined(ks[..|ks| - 1], col) + [Span(Separator, Plain), Span(ks[|ks| - 1], col)]
  }

  /** A key and a separator per key, but one separator fewer. */
  lemma {:induction false} JoinedLength(ks: seq<string>, col: Color)
    ensures |Joined(ks, col)| == if ks == [] then 0 else 2 * |ks| - 1
    decreases |ks|
  {
    if |ks| > 1 {
      JoinedLength(ks[..|ks| - 1], col);
    }
  }

  lemma JoinedSnoc(ks: seq<string>, k: string, col: Color)
    ensures Joined(ks + [k], col) == if ks == [] then [Span(k, col)] else Joined(ks, col) + [Span(Separator, Plain), Span(k, col)]
  {
    assert (ks + [k])[..|ks|] == ks;
  }

  /** A labelled section, present only when there are keys. */
  function Section(heading: string, ks: seq<string>, col: Color): seq<Span> {
    if ks == [] then [] else [Span(heading, Plain)] + Joined(ks, col)
  }

  /** `build_diff_spans(added, changed)`. */
  function DiffSpans(added: seq<string>, changed: seq<string>): (spans: seq<Span>)
    ensures |spans| == 1 + 2 * |added| + 2 * |changed|
    ensures spans[0] == Span(HeaderText, Plain)
  {
    JoinedLength(added, Green);
    JoinedLength(changed, Orange);
    [Span(HeaderText, Plain)] + Section(AddedText, added, Green) + Section(ChangedText, changed, Orange)
  }

  /** The texts of the spans of one colour, in order: what a reader of
      that colour sees. */
  function Colored(spans: seq<Span>, col: Color): seq<string> {
    if spans == [] then []
    else
      var s := spans[|spans| - 1];
      Colored(spans[..|spans| - 1], col) + (if s.color == col then [s.text] else [])
  }

  lemma {:induction false} ColoredAppend(a: seq<Span>, b: seq<Span>, col: Color)
    ensures Colored(a + b, col) == Colored(a, col) + Colored(b, col)
    decreases |b|
  {
    if b != [] {
      var b', s := b[..|b| - 1], b[|b| - 1];
      ColoredAppend(a, b', col);
      assert (a + b)[..|a + b| - 1] == a + b';
      assert (a + b)[|a + b| - 1] == s;
      assert Colored(b, col) == Colored(b', col) + (if s.color == col then [s.text] else []);
      assert Colored(a + b, col) == Colored(a + b', col) + (if s.color == col then [s.text] else []);
    } else {
      assert a + b == a;
    }
  }

  lemma ColoredOne(s: Span, col: Color)
    ensures Colored([s], col) == if s.color == col then [s.text] else []
  {
    assert [s][..0] == [];
  }

  /** `n` keys are separated by `n - 1` separators. */
  function Separators(n: nat): seq<string> {
    if n <= 1 then [] else Separators(n - 1) + [Separator]
  }

  /** The keys of a joined list, read back in its colour. */
  lemma {:induction false} JoinedKeys(ks: seq<string>, col: Color)
    requires col != Plain
    ensures Colored(Joined(ks, col), col) == ks
    decreases |ks|
  {
    if |ks| > 1 {
      var init, k := ks[..|ks| - 1], ks[|ks| - 1];
      JoinedKeys(init, col);
      assert ks == init + [k];
      JoinedSnoc(init, k, col);
      ColoredTwo(Joined(init, col), Span(Separator, Plain), Span(k, col), col);
    } else if |ks| == 1 {
      ColoredOne(Span(ks[0], col), col);
    }
  }

  /** The plain spans of a joined list are its separators. */
  lemma {:induction false} JoinedSeparators(ks: seq<string>, col: Color)
    requires col != Plain
    ensures Colored(Joined(ks, col), Plain) == Separators(|ks|)
    decreases |ks|
  {
    if |ks| > 1 {
      var init, k := ks[..|ks| - 1], ks[|ks| - 1];
      JoinedSeparators(init, col);
      assert ks == init + [k];
      JoinedSnoc(init, k, col);
      ColoredTwo(Joined(init, col), Span(Separator, Plain), Span(k, col), Plain);
    } else if |ks| == 1 {
      ColoredOne(Span(ks[0], col), Plain);
    }
  }

  /** A joined list has nothing in a third colour. */
  lemma {:induction false} JoinedOther(ks: seq<string>, col: Color, q: Color)
    requires q != col && q != Plain
    ensures Colored(Joined(ks, col), q) == []
    decreases |ks|
  {
    if |ks| > 1 {
      var init, k := ks[..|ks| - 1], ks[|ks| - 1];
      JoinedOther(init, col, q);
      assert ks == init + [k];
      JoinedSnoc(init, k, col);
      ColoredTwo(Joined(init, col), Span(Separator, Plain), Span(k, col), q);
    } else if |ks| == 1 {
      ColoredOne(Span(ks[0], col), q);
    }
  }

  lemma ColoredTwo(a: seq<Span>, s: Span, t: Span, q: Color)
    ensures Colored(a + [s, t], q) ==
      Colored(a, q) + (if s.color == q then [s.text] else []) + (if t.color == q then [t.text] else [])
  {
    assert (a + [s, t])[..|a| + 1] == a + [s];
    assert (a + [s])[..|a|] == a;
  }

  /** What the header and labels read: one heading per non-empty list. */
  function Labels(heading: string, n: nat): seq<string> {
    if n == 0 then [] else [heading] + Separators(n)
  }

  lemma SectionColors(heading: string, ks: seq<string>, col: Color, q: Color)
    requires col != Plain
    ensures Colored(Section(heading, ks, col), q) == if q == col then ks else if q == Plain then Labels(heading, |ks|) else []
  {
    if ks != [] {
      ColoredAppend([Span(heading, Plain)], Joined(ks, col), q);
      if q == col {
        JoinedKeys(ks, col);
      } else if q == Plain {
        JoinedSeparators(ks, col);
      } else {
        JoinedOther(ks, col, q);
      }
      ColoredOne(Span(heading, Plain), q);
    }
  }

  lemma DiffSpansColors(added: seq<string>, changed: seq<string>, q: Color)
    ensures Colored(DiffSpans(added, changed), q) ==
      Colored([Span(HeaderText, Plain)], q) + Colored(Section(AddedText, added, Green), q) + Colored(Section(ChangedText, changed, Orange), q)
  {
    var h := [Span(HeaderText, Plain)];
    var a := Section(AddedText, added, Green);
    var c := Section(ChangedText, changed, Orange);
    ColoredAppend(h + a, c, q);
    ColoredAppend(h, a, q);
  }

  /** Reading the spans back: the green texts are the added keys, the
      orange ones the changed keys, and the plain ones are the header, then
      for each non-empty list its heading and one separator fewer than it has
      keys. */
  lemma DiffSpansRead(added: seq<string>, changed: seq<string>)
    ensures DiffSpans(added, changed)[0] == Span(HeaderText, Plain)
    ensures Colored(DiffSpans(added, changed), Green) == added
    ensures Colored(DiffSpans(added, changed), Orange) == changed
    ensures Colored(DiffSpans(added, changed), Plain) ==
      [HeaderText] + Labels(AddedText, |added|) + Labels(ChangedText, |changed|)
  {
    assert Colored(DiffSpans(added, changed), Green) == added by {
      DiffSpansColors(added, changed, Green);
      ColoredOne(Span(HeaderText, Plain), Green);
      SectionColors(AddedText, added, Green, Green);
      SectionColors(ChangedText, changed, Orange, Green);
    }
    assert Colored(DiffSpans(added, changed), Orange) == changed by {
      DiffSpansColors(added, changed, Orange);
      ColoredOne(Span(HeaderText, Plain), Orange);
      SectionColors(AddedText, added, Green, Orange);
      SectionColors(ChangedText, changed, Orange, Orange);
    }
    assert Colored(DiffSpans(added, changed), Plain) ==
      [HeaderText] + Labels(AddedText, |added|) + Labels(ChangedText, |changed|) by {
      DiffSpansColors(added, changed, Plain);
      ColoredOne(Span(HeaderText, Plain), Plain);
      SectionColors(AddedText, added, Green, Plain);
      SectionColors(ChangedText, changed, Orange, Plain);
    }
  }

  /** One `if keys:` block of `build_diff_spans`: the heading, then each key
      with a separator before every key but the first. */
  method AppendSection(spans: seq<Span>, heading: string, ks: seq<string>, col: Color) returns (out: seq<Span>)
    ensures out == spans + Section(heading, ks, col)
  {
    out := spans;
    if ks != [] {
      out := out + [Span(heading, Plain)];
      ghost var prefix := out;
      for i := 0 to |ks|
        invariant out == prefix + Joined(ks[..i], col)
      {
        SectionStep(prefix, ks, i, col);
        if i > 0 {
          out := out + [Span(Separator, Plain)];
        }
        out := out + [Span(ks[i], col)];
      }
      assert ks[..|ks|] == ks;
    }
  }

  /** One more key of a section: a separator unless it is the first, then
      the key. */
  lemma SectionStep(prefix: seq<Span>, ks: seq<string>, i: nat, col: Color)
    requires i < |ks|
    ensures i == 0 ==> prefix + Joined(ks[..i + 1], col) == prefix + Joined(ks[..i], col) + [Span(ks[i], col)]
    ensures i > 0 ==>
      prefix + Joined(ks[..i + 1], col) == prefix + Joined(ks[..i], col) + [Span(Separator, Plain)] + [Span(ks[i], col)]
  {
    assert ks[..i + 1] == ks[..i] + [ks[i]];
    JoinedSnoc(ks[..i], ks[i], col);
  }

  /** `build_diff_spans`. */
  method BuildDiffSpans(added: seq<string>, changed: seq<string>) returns (spans: seq<Span>)
    ensures spans == DiffSpans(added, changed)
  {
    spans := [Span(HeaderText, Plain)];
    spans := AppendSection(spans, AddedText, added, Green);
    spans := AppendSection(spans, ChangedText, changed, Orange);
  }

  // Editable config fields (`get_config_fields`).

  /** `type(v)` of a config value. Python's `int` and `float` are one
      number kind here, as payload numbers are. */
  datatype PyType = NoneType | BoolType | NumberType | StrType | ListType | DictType

  /** `type(v)`: a list of body specs is a list. */
  function TypeOf(a: Arg): PyType {
    match a
    case ASpecs(_) => ListType
    case AVal(v) =>
      match v
      case Null => NoneType
      case Bool(_) => BoolType
      case Num(_) => NumberType
      case Str(_) => StrType
      case List(_) => ListType
      case Dict(_) => DictType
  }

  /** The type shown beside a field: the schema's declared `int` or
      `float`, or `type(v)` of a config value. */
  datatype FieldType = IntField | FloatField | Runtime(t: PyType)

  type Field = (string, FieldType, Arg)

  /** `CONFIG_SCHEMAS`, by class name: name, declared type and default. */
  function Schemas(): seq<(string, seq<Field>)> {
    [("MultiplyModule", [("factor", FloatField, AVal(Num(1.0)))]),
     ("IntSource", [("start", IntField, AVal(Num(1.0))), ("count", IntField, AVal(Num(5.0)))])]
  }

  function Schema(c: Class): seq<Field> {
    Get(Schemas(), ClassName(c)).GetOr([])
  }

  predicate Named(fields: seq<Field>, k: string) {
    exists i :: 0 <= i < |fields| && fields[i].0 == k
  }

  predicate DistinctNames(fields: seq<Field>) {
    forall i, j :: 0 <= i < j < |fields| ==> fields[i].0 != fields[j].0
  }

  /** The schema's fields valued from the config, or else the default. */
  function SchemaFields(schema: seq<Field>, cfg: Config): (fields: seq<Field>)
    ensures |fields| == |schema|
  {
    if schema == [] then []
    else
      var f := schema[|schema| - 1];
      SchemaFields(schema[..|schema| - 1], cfg) + [(f.0, f.1, Lookup(cfg, f.0, f.2))]
  }

  /** The config entries, in order, whose key no field already has. */
  function AddExtras(fields: seq<Field>, es: Config): (r: seq<Field>)
    ensures |fields| <= |r| <= |fields| + |es| && r[..|fields|] == fields
  {
    if es == [] then fields
    else
      var f := AddExtras(fields, es[..|es| - 1]);
      var e := es[|es| - 1];
      if Named(f, e.0) then f else f + [(e.0, Runtime(TypeOf(e.1)), e.1)]
  }

  /** `get_config_fields(module)`. */
  function ConfigFields(c: Class, cfg: Config): (fields: seq<Field>)
    ensures |Schema(c)| <= |fields| <= |Schema(c)| + |cfg|
  {
    AddExtras(SchemaFields(Schema(c), cfg), cfg)
  }

  lemma {:induction false} SchemaFieldsAt(schema: seq<Field>, cfg: Config, i: nat)
    requires i < |schema|
    ensures SchemaFields(schema, cfg)[i] == (schema[i].0, schema[i].1, Lookup(cfg, schema[i].0, schema[i].2))
    decreases |schema|
  {
    if i < |schema| - 1 {
      SchemaFieldsAt(schema[..|schema| - 1], cfg, i);
    }
  }

  lemma GetSnoc<V>(es: seq<(string, V)>, e: (string, V), k: string)
    ensures Get(es + [e], k) == if HasKey(es, k) then Get(es, k) else if e.0 == k then Some(e.1) else None
    decreases |es|
  {
    if es != [] {
      assert (es + [e])[1..] == es[1..] + [e];
      GetSnoc(es[1..], e, k);
      HasKeyCons(es[0], es[1..], k);
      assert [es[0]] + es[1..] == es;
    }
  }

  /** Every config key ends up named, and every name is an earlier field's
      or a config key. */
  lemma {:induction false} ExtrasCover(fields: seq<Field>, es: Config)
    ensures forall k :: HasKey(es, k) ==> Named(AddExtras(fields, es), k)
    ensures forall k :: Named(AddExtras(fields, es), k) ==> Named(fields, k) || HasKey(es, k)
    decreases |es|
  {
    if es != [] {
      var init, e := es[..|es| - 1], es[|es| - 1];
      var f := AddExtras(fields, init);
      var r := AddExtras(fields, es);
      ExtrasCover(fields, init);
      assert init + [e] == es;
      forall k
        ensures HasKey(es, k) <==> HasKey(init, k) || e.0 == k
      {
        HasKeySnoc(init, e, k);
      }
      if !Named(f, e.0) {
        assert r == f + [(e.0, Runtime(TypeOf(e.1)), e.1)];
        assert r[|f|].0 == e.0;
        forall k | Named(r, k)
          ensures Named(f, k) || k == e.0
        {
          var i :| 0 <= i < |r| && r[i].0 == k;
          if i < |f| {
            assert f[i].0 == k;
          }
        }
        forall k | Named(f, k)
          ensures Named(r, k)
        {
          var i :| 0 <= i < |f| && f[i].0 == k;
          assert r[i].0 == k;
        }
      }
    }
  }

  /** Names stay distinct. */
  lemma {:induction false} ExtrasDistinct(fields: seq<Field>, es: Config)
    requires DistinctNames(fields)
    ensures DistinctNames(AddExtras(fields, es))
    decreases |es|
  {
    if es != [] {
      ExtrasDistinct(fields, es[..|es| - 1]);
    }
  }

  /** Every added field is a config entry under a key no earlier field
      had, valued as the config's `get` gives it. */
  lemma {:induction false} ExtrasValues(fields: seq<Field>, es: Config)
    ensures FromConfig(fields, AddExtras(fields, es), es)
    decreases |es|
  {
    if es != [] {
      var init, e := es[..|es| - 1], es[|es| - 1];
      var f := AddExtras(fields, init);
      var r := AddExtras(fields, es);
      ExtrasValues(fields, init);
      ExtrasCover(fields, init);
      assert init + [e] == es;
      forall i | |fields| <= i < |f|
        ensures Get(es, f[i].0) == Some(f[i].2)
      {
        assert Get(init, f[i].0) == Some(f[i].2);
        HasKeyOfGet(init, f[i].0);
        GetSnoc(init, e, f[i].0);
      }
      if !Named(f, e.0) {
        assert r == f + [(e.0, Runtime(TypeOf(e.1)), e.1)];
        assert !HasKey(init, e.0);
        GetSnoc(init, e, e.0);
      }
    }
  }

  /** The fields after the first `|fields|` come from the config `es`:
      each under a key no earlier field had, valued as the config's `get`
      gives it, with that value's type. */
  predicate FromConfig(fields: seq<Field>, r: seq<Field>, es: Config) {
    forall i :: |fields| <= i < |r| ==>
      !Named(fields, r[i].0) && Get(es, r[i].0) == Some(r[i].2) && r[i].1 == Runtime(TypeOf(r[i].2))
  }

  lemma HasKeyOfGet<V>(es: seq<(string, V)>, k: string)
    requires Get(es, k).Some?
    ensures HasKey(es, k)
  {
  }

  /** The added names follow the config's order. */
  lemma {:induction false} ExtrasOrder(fields: seq<Field>, es: Config)
    ensures Subseq(Names(AddExtras(fields, es)[|fields|..]), Keys(es))
    decreases |es|
  {
    var r := AddExtras(fields, es);
    if es == [] {
      assert r[|fields|..] == [];
    } else {
      var init, e := es[..|es| - 1], es[|es| - 1];
      var f := AddExtras(fields, init);
      ExtrasOrder(fields, init);
      KeysSnoc(es);
      if Named(f, e.0) {
        SubseqGrow(Names(f[|fields|..]), Keys(init), e.0);
      } else {
        assert r[|fields|..] == f[|fields|..] + [(e.0, Runtime(TypeOf(e.1)), e.1)];
        NamesSnoc(f[|fields|..], (e.0, Runtime(TypeOf(e.1)), e.1));
        SubseqBoth(Names(f[|fields|..]), Keys(init), e.0);
      }
    }
  }

  function Names(fields: seq<Field>): (ns: seq<string>)
    ensures |ns| == |fields| && forall i :: 0 <= i < |fields| ==> ns[i] == fields[i].0
  {
    if fields == [] then [] else Names(fields[..|fields| - 1]) + [fields[|fields| - 1].0]
  }

  lemma NamesSnoc(fields: seq<Field>, f: Field)
    ensures Names(fields + [f]) == Names(fields) + [f.0]
  {
    assert (fields + [f])[..|fields|] == fields;
  }

  /** The schema of each class: MultiplyModule's factor, IntSource's start
      and count, nothing for the others. */
  lemma SchemaByClass(c: Class)
    ensures Schema(c) == if c == MultiplyC then [("factor", FloatField, AVal(Num(1.0)))]
      else if c == IntSourceC then [("start", IntField, AVal(Num(1.0))), ("count", IntField, AVal(Num(5.0)))]
      else []
  {
    var s := Schemas();
    assert s[0].0 == "MultiplyModule" && s[1].0 == "IntSource";
    assert s[1..][0] == s[1] && s[1..][1..] == [];
  }

  lemma SchemaDistinct(c: Class)
    ensures DistinctNames(Schema(c))
  {
    SchemaByClass(c);
  }

  /** The schema fields carry the schema's names, types and the config's
      values or the defaults, in schema order. */
  lemma {:induction false} SchemaFieldsAll(schema: seq<Field>, cfg: Config)
    ensures forall i :: 0 <= i < |schema| ==>
      SchemaFields(schema, cfg)[i] == (schema[i].0, schema[i].1, Lookup(cfg, schema[i].0, schema[i].2))
    ensures forall k :: Named(SchemaFields(schema, cfg), k) <==> Named(schema, k)
    ensures DistinctNames(schema) ==> DistinctNames(SchemaFields(schema, cfg))
  {
    var sf := SchemaFields(schema, cfg);
    forall i | 0 <= i < |schema|
      ensures sf[i] == (schema[i].0, schema[i].1, Lookup(cfg, schema[i].0, schema[i].2))
    {
      SchemaFieldsAt(schema, cfg, i);
    }
    forall k | Named(schema, k)
      ensures Named(sf, k)
    {
      var i :| 0 <= i < |schema| && schema[i].0 == k;
      assert sf[i].0 == k;
    }
  }

  /** `get_config_fields`, first part: the schema fields come first, in
      schema order, each valued from the config or else by its default,
      and no name is listed twice. */
  lemma ConfigFieldsSchemaFirst(c: Class, cfg: Config)
    ensures var fs := ConfigFields(c, cfg); var schema := Schema(c);
      && |schema| <= |fs|
      && (forall i :: 0 <= i < |schema| ==> fs[i] == (schema[i].0, schema[i].1, Lookup(cfg, schema[i].0, schema[i].2)))
      && DistinctNames(fs)
  {
    var sf := SchemaFields(Schema(c), cfg);
    SchemaDistinct(c);
    SchemaFieldsAll(Schema(c), cfg);
    ExtrasDistinct(sf, cfg);
  }

  /** `get_config_fields`, second part: after the schema fields come the
      config keys the schema lacks, in config order, each with its value
      and its type; every config key is listed, and nothing else. */
  lemma ConfigFieldsExtras(c: Class, cfg: Config)
    ensures var fs := ConfigFields(c, cfg); var schema := Schema(c);
      && (forall i :: |schema| <= i < |fs| ==>
            !Named(schema, fs[i].0) && Get(cfg, fs[i].0) == Some(fs[i].2) && fs[i].1 == Runtime(TypeOf(fs[i].2)))
      && Subseq(Names(fs[|schema|..]), Keys(cfg))
      && (forall k :: HasKey(cfg, k) ==> Named(fs, k))
      && (forall k :: Named(fs, k) ==> Named(schema, k) || HasKey(cfg, k))
  {
    var sf := SchemaFields(Schema(c), cfg);
    var fs, schema := ConfigFields(c, cfg), Schema(c);
    assert |sf| == |schema|;
    assert forall i :: |schema| <= i < |fs| ==>
      !Named(schema, fs[i].0) && Get(cfg, fs[i].0) == Some(fs[i].2) && fs[i].1 == Runtime(TypeOf(fs[i].2)) by {
      SchemaFieldsAll(Schema(c), cfg);
      ExtrasValues(sf, cfg);
    }
    assert Subseq(Names(fs[|schema|..]), Keys(cfg)) by {
      ExtrasOrder(sf, cfg);
    }
    assert forall k :: HasKey(cfg, k) ==> Named(fs, k) by {
      ExtrasCover(sf, cfg);
    }
    assert forall k :: Named(fs, k) ==> Named(schema, k) || HasKey(cfg, k) by {
      SchemaFieldsAll(Schema(c), cfg);
      ExtrasCover(sf, cfg);
    }
  }

  /** `get_config_fields`' two loops over the schema and the config. */
  method GetConfigFields(m: Stages.Stage) returns (fields: seq<Field>)
    ensures fields == ConfigFields(m.cls, m.config)
  {
    var schema := Schema(m.cls);
    fields := [];
    for i := 0 to |schema|
      invariant fields == SchemaFields(schema[..i], m.config)
    {
      var (name, typ, default) := schema[i];
      assert schema[..i + 1][..i] == schema[..i];
      fields := fields + [(name, typ, Lookup(m.config, name, default))];
    }
    assert schema[..|schema|] == schema;
    ghost var base := fields;
    var es := m.config;
    for i := 0 to |es|
      invariant fields == AddExtras(base, es[..i])
    {
      var (k, v) := es[i];
      assert es[..i + 1][..i] == es[..i];
      if !Named(fields, k) {
        fields := fields + [(k, Runtime(TypeOf(v)), v)];
      }
    }
    assert es[..|es|] == es;
  }
}
