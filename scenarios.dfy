/** The repository's test cases, replayed on the model. Expression texts
    are opaque to the engine, so each case that evaluates one states what
    the sandboxed `eval` returns for the values it meets. */
module Scenarios {
  import opened Values
  import opened Base
  import ForEach
  import IntSource
  import Filter
  import Transform
  import Pipelines

  // Steps the cases are made of.

  /** A two-stage pipeline returns what its second stage returns. */
  lemma FoldTwo(step: (Module, Value) -> Result<Value>, a: Module, b: Module, x: Value, y: Value, z: Value)
    requires step(a, x) == Ok(y) && step(b, y) == Ok(z)
    ensures Pipelines.Fold(step, [a, b], x, 2) == Ok(z)
  {
    assert Pipelines.Fold(step, [a, b], x, 1) == Ok(y);
  }

  /** `IntSource(config={"start": 1, "count": n})`. */
  function Source(n: nat): Module {
    Module(IntSourceC, "IntSource", [("start", AVal(Num(1.0))), ("count", AVal(Num(n as real)))], [])
  }

  lemma SourceRuns(h: Host, n: nat, x: Value)
    ensures ForEach.Exec(h, Source(n), x) == Ok(List(IntSource.Range(1, n)))
  {
    var cfg := Source(n).config;
    assert Get(cfg, "start") == Some(AVal(Num(1.0)));
    assert Get(cfg, "count") == Some(AVal(Num(n as real))) by {
      assert cfg[0].0 != "count";
      assert cfg[1..] == [("count", AVal(Num(n as real)))];
    }
    assert (n as real).Floor == n;
    assert IntSource.Start(cfg) == Ok(1);
    assert IntSource.Count(cfg) == Ok(n);
  }

  lemma RangeThree()
    ensures IntSource.Range(1, 3) == [Num(1.0), Num(2.0), Num(3.0)]
  {
    var r := IntSource.Range(1, 3);
    assert r[0] == Num(1.0) && r[1] == Num(2.0) && r[2] == Num(3.0);
  }

  lemma RangeFive()
    ensures IntSource.Range(1, 5) == [Num(1.0), Num(2.0), Num(3.0), Num(4.0), Num(5.0)]
  {
    var r := IntSource.Range(1, 5);
    assert r[0] == Num(1.0) && r[1] == Num(2.0) && r[2] == Num(3.0) && r[3] == Num(4.0) && r[4] == Num(5.0);
  }

  /** A one-step body whose spec resolves to `m` returns what `m` returns. */
  lemma OneStep(h: Host, spec: Spec, m: Module, x: Value, y: Value)
    requires ForEach.Resolve(spec) == Ok(m) && ForEach.Exec(h, m, x) == Ok(y)
    ensures ForEach.Steps(h, [spec], x).0 == y
  {
    assert [spec][..0] == [];
  }

  /** A ForEach over a payload that is not a list returns a one-element
      list. */
  lemma OneItem(h: Host, m: Module, x: Value, y: Value)
    requires m.cls == ForEachC && !x.List? && ForEach.Steps(h, m.body, x).0 == y
    ensures ForEach.Exec(h, m, x) == Ok(List([y]))
  {
  }

  /** A ForEach over three items. */
  lemma ThreeItems(h: Host, m: Module, a: Value, b: Value, c: Value, a': Value, b': Value, c': Value)
    requires m.cls == ForEachC
    requires ForEach.Steps(h, m.body, a).0 == a'
    requires ForEach.Steps(h, m.body, b).0 == b'
    requires ForEach.Steps(h, m.body, c).0 == c'
    ensures ForEach.Exec(h, m, List([a, b, c])) == Ok(List([a', b', c']))
  {
    var out := ForEach.Process(h, m.body, List([a, b, c]));
    assert out.items == [a', b', c'];
  }

  /** One more item through a filter. */
  lemma SelectStep(h: Host, e: Arg, m: Arg, f: Arg, xs: seq<Value>, x: Value, out: seq<Value>, keep: bool)
    requires Filter.Select(h, e, m, f, xs) == Ok(out) && Filter.Keeps(h, e, m, f, x) == Ok(keep)
    ensures Filter.Select(h, e, m, f, xs + [x]) == Ok(if keep then out + [x] else out)
  {
    Filter.SelectSnoc(h, e, m, f, xs, x);
  }

  /** In "keep" mode with no field, an item is kept when the expression
      evaluates to True on it. */
  lemma KeepPlain(h: Host, s: string, x: Value, b: bool)
    requires s != "" && h.eval(s, x) == Some(Bool(b))
    ensures Filter.Keeps(h, AVal(Str(s)), AVal(Str("keep")), AVal(Null), x) == Ok(b)
  {
  }

  /** In "keep" mode with field `k`, a dict item is kept when the expression
      evaluates to True on its `k` entry. */
  lemma KeepField(h: Host, s: string, k: string, v: Value, b: bool)
    requires s != "" && k != "" && h.eval(s, v) == Some(Bool(b))
    ensures Filter.Keeps(h, AVal(Str(s)), AVal(Str("keep")), AVal(Str(k)), Dict([(k, v)])) == Ok(b)
  {
    assert Get([(k, v)], k) == Some(v);
  }

  /** `(c, {"expr": s})` with no other key resolves to a default-named
      module of class `c` holding that config. */
  lemma ExprTupleResolves(c: Class, s: string)
    requires c != BaseC
    ensures ForEach.Resolve(ClassConfig(c, [("expr", AVal(Str(s)))])) == Ok(Module(c, DefaultName(c).value, [("expr", AVal(Str(s)))], []))
  {
    var cfg := [("expr", AVal(Str(s)))];
    forall k | HasKey(cfg, k)
      ensures k !in Params(c) + ["self"]
    {
      assert k == "expr";
    }
    ForEach.ConfigTupleResolves(c, cfg);
  }

  /** Looking up a two-entry config. */
  lemma GetTwo(k1: string, v1: Arg, k2: string, v2: Arg, k: string)
    requires k1 != k2
    ensures Get([(k1, v1), (k2, v2)], k) == if k == k1 then Some(v1) else if k == k2 then Some(v2) else None
  {
    assert [(k1, v1), (k2, v2)][1..] == [(k2, v2)];
    assert [(k2, v2)][1..] == [];
  }

  /** `{"expr": s, "mode": "keep"}` seen by the filter. */
  lemma FilterKeepConfig(s: string)
    ensures var cfg := [("expr", AVal(Str(s))), ("mode", AVal(Str("keep")))];
      Filter.ExprOf(cfg) == AVal(Str(s))
    ensures var cfg := [("expr", AVal(Str(s))), ("mode", AVal(Str("keep")))];
      Filter.ModeOf(cfg) == AVal(Str("keep")) && Filter.FieldOf(cfg) == AVal(Null)
  {
    var cfg := [("expr", AVal(Str(s))), ("mode", AVal(Str("keep")))];
    assert "expr"[0] != "mode"[0] && "field"[0] != "expr"[0] && "field"[0] != "mode"[0];
    GetTwo("expr", AVal(Str(s)), "mode", AVal(Str("keep")), "expr");
    GetTwo("expr", AVal(Str(s)), "mode", AVal(Str("keep")), "mode");
    GetTwo("expr", AVal(Str(s)), "mode", AVal(Str("keep")), "field");
  }

  /** `{"expr": s, "field": k}` seen by the filter and the transform. */
  lemma FieldConfig(s: string, k: string)
    ensures var cfg := [("expr", AVal(Str(s))), ("field", AVal(Str(k)))];
      Get(cfg, "expr") == Some(AVal(Str(s))) && Get(cfg, "field") == Some(AVal(Str(k))) && !HasKey(cfg, "mode")
  {
    assert "expr"[0] != "field"[0] && "mode"[0] != "expr"[0] && "mode"[0] != "field"[0];
    GetTwo("expr", AVal(Str(s)), "field", AVal(Str(k)), "expr");
    GetTwo("expr", AVal(Str(s)), "field", AVal(Str(k)), "field");
    GetTwo("expr", AVal(Str(s)), "field", AVal(Str(k)), "mode");
  }

  // Nested ForEach (`test_foreach_nested.py`).

  /** `(MultiplyModule, {"factor": 10})`. */
  function TimesTen(): Spec {
    ClassConfig(MultiplyC, [("factor", AVal(Num(10.0)))])
  }

  /** `ForEachModule(body=[(MultiplyModule, {"factor": 10})])`. */
  function Inner(): Module {
    Module(ForEachC, "ForEach", [], [TimesTen()])
  }

  lemma TimesTenStep(h: Host, r: real)
    ensures ForEach.Steps(h, [TimesTen()], Num(r)).0 == Num(r * 10.0)
  {
    var cfg := [("factor", AVal(Num(10.0)))];
    var m := Module(MultiplyC, "Multiply", cfg, []);
    ForEach.ConfigTupleResolves(MultiplyC, cfg);
    assert Get(cfg, "factor") == Some(AVal(Num(10.0)));
    assert ForEach.Exec(h, m, Num(r)) == Ok(Num(r * 10.0));
    OneStep(h, TimesTen(), m, Num(r), Num(r * 10.0));
  }

  /** A body step resolving to the inner ForEach turns a number into the
      one-element list of ten times it. */
  lemma NestedStep(h: Host, spec: Spec, r: real)
    requires ForEach.Resolve(spec) == Ok(Inner())
    ensures ForEach.Steps(h, [spec], Num(r)).0 == List([Num(r * 10.0)])
  {
    TimesTenStep(h, r);
    OneItem(h, Inner(), Num(r), Num(r * 10.0));
    OneStep(h, spec, Inner(), Num(r), List([Num(r * 10.0)]));
  }

  /** IntSource(start=1, count=3) and then a ForEach whose one body step
      resolves to the inner ForEach. */
  lemma NestedPipeline(h: Host, spec: Spec)
    requires ForEach.Resolve(spec) == Ok(Inner())
    ensures Pipelines.Fold(Pipelines.Processes(h), [Source(3), Module(ForEachC, "ForEach", [], [spec])], Pipelines.Initial(Null), 2)
      == Ok(List([List([Num(10.0)]), List([Num(20.0)]), List([Num(30.0)])]))
  {
    var outer := Module(ForEachC, "ForEach", [], [spec]);
    var x1 := List([Num(1.0), Num(2.0), Num(3.0)]);
    var x2 := List([List([Num(10.0)]), List([Num(20.0)]), List([Num(30.0)])]);
    SourceRuns(h, 3, List([]));
    RangeThree();
    NestedStep(h, spec, 1.0);
    NestedStep(h, spec, 2.0);
    NestedStep(h, spec, 3.0);
    ThreeItems(h, outer, Num(1.0), Num(2.0), Num(3.0), List([Num(10.0)]), List([Num(20.0)]), List([Num(30.0)]));
    FoldTwo(Pipelines.Processes(h), Source(3), outer, List([]), x1, x2);
  }

  /** `test_nested_foreach_with_instance`: the body holds the inner ForEach
      instance itself. */
  lemma NestedForEachWithInstance(h: Host)
    ensures Pipelines.Fold(Pipelines.Processes(h), [Source(3), Module(ForEachC, "ForEach", [], [Instance(Inner())])], Pipelines.Initial(Null), 2)
      == Ok(List([List([Num(10.0)]), List([Num(20.0)]), List([Num(30.0)])]))
  {
    NestedPipeline(h, Instance(Inner()));
  }

  /** `test_nested_foreach_with_tuple_spec`: the body holds
      `(ForEachModule, {"body": [...]})`. */
  lemma NestedForEachWithTupleSpec(h: Host)
    ensures Pipelines.Fold(Pipelines.Processes(h), [Source(3), Module(ForEachC, "ForEach", [], [ClassConfig(ForEachC, [("body", ASpecs([TimesTen()]))])])], Pipelines.Initial(Null), 2)
      == Ok(List([List([Num(10.0)]), List([Num(20.0)]), List([Num(30.0)])]))
  {
    ForEach.BodyTupleResolves([TimesTen()]);
    NestedPipeline(h, ClassConfig(ForEachC, [("body", ASpecs([TimesTen()]))]));
  }

  // Filter (`test_filter_module.py`).

  /** A keep-filter on `expr` alone selects from the list exactly as
      `Filter.Select` does. */
  lemma KeepProcess(h: Host, s: string, xs: seq<Value>, out: seq<Value>)
    requires Filter.Select(h, AVal(Str(s)), AVal(Str("keep")), AVal(Null), xs) == Ok(out)
    ensures Filter.Process(h, [("expr", AVal(Str(s))), ("mode", AVal(Str("keep")))], List(xs)) == Ok(List(out))
  {
    FilterKeepConfig(s);
  }

  /** The first three items of `test_filter_even_numbers`: only 2 is kept. */
  lemma EvenPrefix(h: Host)
    requires h.eval("x % 2 == 0", Num(1.0)) == Some(Bool(false))
    requires h.eval("x % 2 == 0", Num(2.0)) == Some(Bool(true))
    requires h.eval("x % 2 == 0", Num(3.0)) == Some(Bool(false))
    ensures Filter.Select(h, AVal(Str("x % 2 == 0")), AVal(Str("keep")), AVal(Null), [Num(1.0), Num(2.0), Num(3.0)]) == Ok([Num(2.0)])
  {
    var s := "x % 2 == 0";
    var e, m, f := AVal(Str(s)), AVal(Str("keep")), AVal(Null);
    var x1, x2, x3 := Num(1.0), Num(2.0), Num(3.0);
    KeepPlain(h, s, x1, false);
    KeepPlain(h, s, x2, true);
    KeepPlain(h, s, x3, false);
    SelectStep(h, e, m, f, [], x1, [], false);
    assert [] + [x1] == [x1];
    SelectStep(h, e, m, f, [x1], x2, [], true);
    assert [x1] + [x2] == [x1, x2] && [] + [x2] == [x2];
    SelectStep(h, e, m, f, [x1, x2], x3, [x2], false);
    assert [x1, x2] + [x3] == [x1, x2, x3];
  }

  /** `test_filter_even_numbers`. */
  lemma FilterEvenNumbers(h: Host)
    requires h.eval("x % 2 == 0", Num(1.0)) == Some(Bool(false))
    requires h.eval("x % 2 == 0", Num(2.0)) == Some(Bool(true))
    requires h.eval("x % 2 == 0", Num(3.0)) == Some(Bool(false))
    requires h.eval("x % 2 == 0", Num(4.0)) == Some(Bool(true))
    requires h.eval("x % 2 == 0", Num(5.0)) == Some(Bool(false))
    ensures Filter.Process(h, [("expr", AVal(Str("x % 2 == 0"))), ("mode", AVal(Str("keep")))],
                           List([Num(1.0), Num(2.0), Num(3.0), Num(4.0), Num(5.0)]))
      == Ok(List([Num(2.0), Num(4.0)]))
  {
    var s := "x % 2 == 0";
    var e, m, f := AVal(Str(s)), AVal(Str("keep")), AVal(Null);
    var x1, x2, x3, x4, x5 := Num(1.0), Num(2.0), Num(3.0), Num(4.0), Num(5.0);
    EvenPrefix(h);
    KeepPlain(h, s, x4, true);
    KeepPlain(h, s, x5, false);
    SelectStep(h, e, m, f, [x1, x2, x3], x4, [x2], true);
    assert [x1, x2, x3] + [x4] == [x1, x2, x3, x4] && [x2] + [x4] == [x2, x4];
    SelectStep(h, e, m, f, [x1, x2, x3, x4], x5, [x2, x4], false);
    assert [x1, x2, x3, x4] + [x5] == [x1, x2, x3, x4, x5];
    KeepProcess(h, s, [x1, x2, x3, x4, x5], [x2, x4]);
  }

  /** Short lists built one element at a time. */
  lemma Literals<T>(a: T, b: T, c: T)
    ensures [] + [a] == [a] && [a] + [b] == [a, b] && [a, b] + [c] == [a, b, c]
  {
  }

  /** A filter configured with an expression and a field keeps by default,
      so its `process` on a list is the selection on that field. */
  lemma FieldProcess(h: Host, s: string, k: string, xs: seq<Value>, out: seq<Value>)
    requires Filter.Select(h, AVal(Str(s)), AVal(Str("keep")), AVal(Str(k)), xs) == Ok(out)
    ensures Filter.Process(h, [("expr", AVal(Str(s))), ("field", AVal(Str(k)))], List(xs)) == Ok(List(out))
  {
    var cfg := [("expr", AVal(Str(s))), ("field", AVal(Str(k)))];
    FieldConfig(s, k);
    assert Filter.ExprOf(cfg) == AVal(Str(s)) && Filter.ModeOf(cfg) == AVal(Str("keep")) && Filter.FieldOf(cfg) == AVal(Str(k));
  }

  /** `test_filter_by_field`: the predicate sees field `a`, the output keeps
      the whole dict. */
  lemma FilterByField(h: Host)
    requires h.eval("x >= 10", Num(5.0)) == Some(Bool(false))
    requires h.eval("x >= 10", Num(12.0)) == Some(Bool(true))
    requires h.eval("x >= 10", Num(9.0)) == Some(Bool(false))
    ensures Filter.Process(h, [("expr", AVal(Str("x >= 10"))), ("field", AVal(Str("a")))],
                           List([Dict([("a", Num(5.0))]), Dict([("a", Num(12.0))]), Dict([("a", Num(9.0))])]))
      == Ok(List([Dict([("a", Num(12.0))])]))
  {
    var s := "x >= 10";
    var e, m, f := AVal(Str(s)), AVal(Str("keep")), AVal(Str("a"));
    var d1, d2, d3 := Dict([("a", Num(5.0))]), Dict([("a", Num(12.0))]), Dict([("a", Num(9.0))]);
    KeepField(h, s, "a", Num(5.0), false);
    KeepField(h, s, "a", Num(12.0), true);
    KeepField(h, s, "a", Num(9.0), false);
    Literals(d1, d2, d3);
    Literals(d2, d2, d2);
    SelectStep(h, e, m, f, [], d1, [], false);
    SelectStep(h, e, m, f, [d1], d2, [], true);
    SelectStep(h, e, m, f, [d1, d2], d3, [d2], false);
    FieldProcess(h, s, "a", [d1, d2, d3], [d2]);
  }

  /** The first three items through the filter of
      `test_filter_in_pipeline_after_intsource`: only 3 is kept. */
  lemma GreaterThanTwoPrefix(h: Host)
    requires h.eval("x > 2", Num(1.0)) == Some(Bool(false))
    requires h.eval("x > 2", Num(2.0)) == Some(Bool(false))
    requires h.eval("x > 2", Num(3.0)) == Some(Bool(true))
    ensures Filter.Select(h, AVal(Str("x > 2")), AVal(Str("keep")), AVal(Null), [Num(1.0), Num(2.0), Num(3.0)]) == Ok([Num(3.0)])
  {
    var s := "x > 2";
    var e, m, f := AVal(Str(s)), AVal(Str("keep")), AVal(Null);
    var x1, x2, x3 := Num(1.0), Num(2.0), Num(3.0);
    KeepPlain(h, s, x1, false);
    KeepPlain(h, s, x2, false);
    KeepPlain(h, s, x3, true);
    SelectStep(h, e, m, f, [], x1, [], false);
    assert [] + [x1] == [x1];
    SelectStep(h, e, m, f, [x1], x2, [], false);
    assert [x1] + [x2] == [x1, x2];
    SelectStep(h, e, m, f, [x1, x2], x3, [], true);
    assert [x1, x2] + [x3] == [x1, x2, x3] && [] + [x3] == [x3];
  }

  /** The filter stage of `test_filter_in_pipeline_after_intsource`. */
  lemma GreaterThanTwo(h: Host)
    requires h.eval("x > 2", Num(1.0)) == Some(Bool(false))
    requires h.eval("x > 2", Num(2.0)) == Some(Bool(false))
    requires h.eval("x > 2", Num(3.0)) == Some(Bool(true))
    requires h.eval("x > 2", Num(4.0)) == Some(Bool(true))
    requires h.eval("x > 2", Num(5.0)) == Some(Bool(true))
    ensures Filter.Process(h, [("expr", AVal(Str("x > 2"))), ("mode", AVal(Str("keep")))],
                           List([Num(1.0), Num(2.0), Num(3.0), Num(4.0), Num(5.0)]))
      == Ok(List([Num(3.0), Num(4.0), Num(5.0)]))
  {
    var s := "x > 2";
    var e, m, f := AVal(Str(s)), AVal(Str("keep")), AVal(Null);
    var x1, x2, x3, x4, x5 := Num(1.0), Num(2.0), Num(3.0), Num(4.0), Num(5.0);
    GreaterThanTwoPrefix(h);
    KeepPlain(h, s, x4, true);
    KeepPlain(h, s, x5, true);
    SelectStep(h, e, m, f, [x1, x2, x3], x4, [x3], true);
    assert [x1, x2, x3] + [x4] == [x1, x2, x3, x4] && [x3] + [x4] == [x3, x4];
    SelectStep(h, e, m, f, [x1, x2, x3, x4], x5, [x3, x4], true);
    assert [x1, x2, x3, x4] + [x5] == [x1, x2, x3, x4, x5] && [x3, x4] + [x5] == [x3, x4, x5];
    KeepProcess(h, s, [x1, x2, x3, x4, x5], [x3, x4, x5]);
  }

  /** `test_filter_in_pipeline_after_intsource`. */
  lemma FilterAfterIntSource(h: Host)
    requires h.eval("x > 2", Num(1.0)) == Some(Bool(false))
    requires h.eval("x > 2", Num(2.0)) == Some(Bool(false))
    requires h.eval("x > 2", Num(3.0)) == Some(Bool(true))
    requires h.eval("x > 2", Num(4.0)) == Some(Bool(true))
    requires h.eval("x > 2", Num(5.0)) == Some(Bool(true))
    ensures Pipelines.Fold(Pipelines.Processes(h),
                           [Source(5), Module(FilterC, "Filter", [("expr", AVal(Str("x > 2"))), ("mode", AVal(Str("keep")))], [])],
                           Pipelines.Initial(Null), 2)
      == Ok(List([Num(3.0), Num(4.0), Num(5.0)]))
  {
    var flt := Module(FilterC, "Filter", [("expr", AVal(Str("x > 2"))), ("mode", AVal(Str("keep")))], []);
    var xs := List([Num(1.0), Num(2.0), Num(3.0), Num(4.0), Num(5.0)]);
    GreaterThanTwo(h);
    assert ForEach.Exec(h, flt, xs) == Ok(List([Num(3.0), Num(4.0), Num(5.0)]));
    SourceRuns(h, 5, List([]));
    RangeFive();
    FoldTwo(Pipelines.Processes(h), Source(5), flt, List([]), xs, List([Num(3.0), Num(4.0), Num(5.0)]));
  }

  /** `test_filter_bad_expr_is_safe`: a statement is no expression, so
      evaluation always fails and nothing is kept. */
  lemma FilterBadExprIsSafe(h: Host)
    requires forall v :: h.eval("import os; os.system('echo hi')", v).None?
    ensures Filter.Process(h, [("expr", AVal(Str("import os; os.system('echo hi')")))], List([Num(1.0), Num(2.0), Num(3.0)])) == Ok(List([]))
  {
    var s := "import os; os.system('echo hi')";
    var cfg := [("expr", AVal(Str(s)))];
    assert Filter.ExprOf(cfg) == AVal(Str(s));
    assert Filter.ModeOf(cfg) == AVal(Str("keep"));
    assert Filter.FieldOf(cfg) == AVal(Null);
    Filter.FailingExprKeepsNothing(h, s, AVal(Null), [Num(1.0), Num(2.0), Num(3.0)]);
  }

  // Transform (`test_transform_module.py`).

  /** `test_transform_square_list`. */
  lemma TransformSquareList(h: Host)
    requires h.eval("x * x", Num(1.0)) == Some(Num(1.0))
    requires h.eval("x * x", Num(2.0)) == Some(Num(4.0))
    requires h.eval("x * x", Num(3.0)) == Some(Num(9.0))
    ensures Transform.Process(h, [("expr", AVal(Str("x * x")))], List([Num(1.0), Num(2.0), Num(3.0)]))
      == Ok(List([Num(1.0), Num(4.0), Num(9.0)]))
  {
    var cfg := [("expr", AVal(Str("x * x")))];
    assert Transform.ExprOf(cfg) == AVal(Str("x * x"));
    assert Transform.FieldOf(cfg) == AVal(Null);
    var r := Transform.Process(h, cfg, List([Num(1.0), Num(2.0), Num(3.0)])).value.items;
    assert r == [Num(1.0), Num(4.0), Num(9.0)];
  }

  /** Rewriting field `k` of a one-entry dict. */
  lemma FieldOne(h: Host, s: string, k: string, v: Value, w: Value)
    requires s != "" && k != "" && h.eval(s, v) == Some(w)
    ensures Transform.ApplyOne(h, AVal(Str(s)), AVal(Str(k)), Dict([(k, v)])) == Ok(Dict([(k, w)]))
  {
    assert Get([(k, v)], k) == Some(v);
    assert [(k, v)][1..] == [];
    assert Transform.Eval(h, AVal(Str(s)), v) == w;
    assert Set([(k, v)], k, w) == [(k, w)];
  }

  /** `test_transform_dict_field`: only field `name` is rewritten. */
  lemma TransformDictField(h: Host)
    requires h.eval("x.upper()", Str("a")) == Some(Str("A"))
    requires h.eval("x.upper()", Str("bb")) == Some(Str("BB"))
    ensures Transform.Process(h, [("expr", AVal(Str("x.upper()"))), ("field", AVal(Str("name")))],
                              List([Dict([("name", Str("a"))]), Dict([("name", Str("bb"))])]))
      == Ok(List([Dict([("name", Str("A"))]), Dict([("name", Str("BB"))])]))
  {
    var s := "x.upper()";
    var e, f := AVal(Str(s)), AVal(Str("name"));
    var cfg := [("expr", e), ("field", f)];
    FieldConfig(s, "name");
    assert Transform.ExprOf(cfg) == e && Transform.FieldOf(cfg) == f;
    FieldOne(h, s, "name", Str("a"), Str("A"));
    FieldOne(h, s, "name", Str("bb"), Str("BB"));
    var r := Transform.Process(h, cfg, List([Dict([("name", Str("a"))]), Dict([("name", Str("bb"))])])).value.items;
    assert r == [Dict([("name", Str("A"))]), Dict([("name", Str("BB"))])];
  }

  /** A body step `(TransformModule, {"expr": s})` applied to a number. */
  lemma TransformStep(h: Host, s: string, x: Value, w: Value)
    requires s != "" && x.Num? && h.eval(s, x) == Some(w)
    ensures ForEach.Steps(h, [ClassConfig(TransformC, [("expr", AVal(Str(s)))])], x).0 == w
  {
    var cfg := [("expr", AVal(Str(s)))];
    var t := Module(TransformC, "Transform", cfg, []);
    ExprTupleResolves(TransformC, s);
    assert Transform.ExprOf(cfg) == AVal(Str(s)) && Transform.FieldOf(cfg) == AVal(Null);
    assert ForEach.Exec(h, t, x) == Ok(w);
    OneStep(h, ClassConfig(TransformC, cfg), t, x, w);
  }

  /** `test_transform_in_foreach_pipeline`: IntSource then a ForEach whose
      body is `(TransformModule, {"expr": "x * 10"})`. */
  lemma TransformInForEach(h: Host)
    requires h.eval("x * 10", Num(1.0)) == Some(Num(10.0))
    requires h.eval("x * 10", Num(2.0)) == Some(Num(20.0))
    requires h.eval("x * 10", Num(3.0)) == Some(Num(30.0))
    ensures Pipelines.Fold(Pipelines.Processes(h),
                           [Source(3), Module(ForEachC, "ForEach", [], [ClassConfig(TransformC, [("expr", AVal(Str("x * 10")))])])],
                           Pipelines.Initial(Null), 2)
      == Ok(List([Num(10.0), Num(20.0), Num(30.0)]))
  {
    var s := "x * 10";
    var outer := Module(ForEachC, "ForEach", [], [ClassConfig(TransformC, [("expr", AVal(Str(s)))])]);
    TransformStep(h, s, Num(1.0), Num(10.0));
    TransformStep(h, s, Num(2.0), Num(20.0));
    TransformStep(h, s, Num(3.0), Num(30.0));
    ThreeItems(h, outer, Num(1.0), Num(2.0), Num(3.0), Num(10.0), Num(20.0), Num(30.0));
    SourceRuns(h, 3, List([]));
    RangeThree();
    FoldTwo(Pipelines.Processes(h), Source(3), outer, List([]), List([Num(1.0), Num(2.0), Num(3.0)]), List([Num(10.0), Num(20.0), Num(30.0)]));
  }

  /** `test_transform_safe_eval_no_builtins`. */
  lemma TransformSafeEval(h: Host)
    requires forall v :: h.eval("__import__('os').system('echo hi')", v).None?
    ensures Transform.Process(h, [("expr", AVal(Str("__import__('os').system('echo hi')")))], List([Num(1.0), Num(2.0)]))
      == Ok(List([Num(1.0), Num(2.0)]))
  {
    Transform.FailingExprIsIdentity(h, "__import__('os').system('echo hi')", [Num(1.0), Num(2.0)]);
  }
}
