/** `Pipeline`: an ordered list of stages that a payload passes through,
    each stage receiving the previous stage's result. */
module Pipelines {
  import opened Values
  import opened Base
  import ForEach
  import Stages

  /** `initial_input if initial_input is not None else []`. */
  function Initial(x: Value): (d: Value)
    ensures x.Null? ==> d == List([])
    ensures !x.Null? ==> d == x
  {
    if x.Null? then List([]) else x
  }

  /** The payload after the first `k` stages of a run whose stages compute
      `step`: the left fold of `step` over them; the first stage that
      raises ends the fold with its error. */
  function Fold(step: (Module, Value) -> Result<Value>, ms: seq<Module>, x: Value, k: nat): (r: Result<Value>)
    requires k <= |ms|
    ensures r.Err? ==> exists i, v :: 0 <= i < k && step(ms[i], v) == r
  {
    if k == 0 then Ok(x)
    else
      var p := Fold(step, ms, x, k - 1);
      if p.Err? then p else step(ms[k - 1], p.value)
  }

  /** The stages' own `process`. */
  function Processes(h: Host): (Module, Value) -> Result<Value> {
    (m, v) => ForEach.Exec(h, m, v)
  }

  /** Once a stage has raised, no later stage runs and the error stays. */
  lemma {:induction false} ErrorSticks(step: (Module, Value) -> Result<Value>, ms: seq<Module>, x: Value, j: nat, k: nat)
    requires j <= k <= |ms| && Fold(step, ms, x, j).Err?
    ensures Fold(step, ms, x, k) == Fold(step, ms, x, j)
    decreases k - j
  {
    if j < k {
      ErrorSticks(step, ms, x, j, k - 1);
    }
  }

  /** A pipeline whose stage `i` raises ends with that error. */
  lemma StopsAt(step: (Module, Value) -> Result<Value>, ms: seq<Module>, x: Value, i: nat, e: Result<Value>)
    requires i < |ms| && Fold(step, ms, x, i + 1) == e && e.Err?
    ensures Fold(step, ms, x, |ms|) == e
  {
    ErrorSticks(step, ms, x, i + 1, |ms|);
  }

  /** A stage runs only when every stage before it has completed. */
  lemma {:induction false} OkBefore(step: (Module, Value) -> Result<Value>, ms: seq<Module>, x: Value, j: nat, k: nat)
    requires j <= k <= |ms| && Fold(step, ms, x, k).Ok?
    ensures Fold(step, ms, x, j).Ok?
  {
    if Fold(step, ms, x, j).Err? {
      ErrorSticks(step, ms, x, j, k);
    }
  }

  /** The fold over the first `k` stages ignores the stages after them. */
  lemma {:induction false} FoldPrefix(step: (Module, Value) -> Result<Value>, a: seq<Module>, b: seq<Module>, x: Value, k: nat)
    requires k <= |a|
    ensures Fold(step, a + b, x, k) == Fold(step, a, x, k)
    decreases k
  {
    if k > 0 {
      FoldPrefix(step, a, b, x, k - 1);
      assert (a + b)[k - 1] == a[k - 1];
    }
  }

  /** Running two pipelines one after the other is running their
      concatenation. */
  lemma {:induction false} FoldAppend(step: (Module, Value) -> Result<Value>, a: seq<Module>, b: seq<Module>, x: Value)
    requires Fold(step, a, x, |a|).Ok?
    ensures Fold(step, a + b, x, |a| + |b|) == Fold(step, b, Fold(step, a, x, |a|).value, |b|)
    decreases |b|
  {
    if b == [] {
      assert a + b == a;
    } else {
      var b' := b[..|b| - 1];
      var y := Fold(step, a, x, |a|).value;
      FoldAppend(step, a, b', x);
      assert a + b == (a + b') + [b[|b| - 1]];
      FoldPrefix(step, a + b', [b[|b| - 1]], x, |a| + |b'|);
      FoldPrefix(step, b', [b[|b| - 1]], y, |b'|);
      assert b == b' + [b[|b| - 1]];
    }
  }

  /** What stage `k` received and returned, when it completed. */
  function Trace(step: (Module, Value) -> Result<Value>, ms: seq<Module>, x: Value, k: nat): (t: Option<(Value, Value)>)
    requires k < |ms|
    ensures t.Some? <==> Fold(step, ms, x, k + 1).Ok?
    ensures t.Some? ==> Fold(step, ms, x, k) == Ok(t.value.0) && Fold(step, ms, x, k + 1) == Ok(t.value.1)
  {
    var before := Fold(step, ms, x, k);
    var after := Fold(step, ms, x, k + 1);
    if after.Ok? then
      OkBefore(step, ms, x, k, k + 1);
      Some((before.value, after.value))
    else None
  }

  /** Stage `k + 1` receives what stage `k` returned. */
  lemma TraceChains(step: (Module, Value) -> Result<Value>, ms: seq<Module>, x: Value, k: nat)
    requires k + 1 < |ms| && Trace(step, ms, x, k + 1).Some?
    ensures Trace(step, ms, x, k).Some? && Trace(step, ms, x, k).value.1 == Trace(step, ms, x, k + 1).value.0
  {
    OkBefore(step, ms, x, k + 1, k + 2);
  }

  /** What each of the first `n` stages received and returned, in order,
      when all of them completed. */
  function Traces(step: (Module, Value) -> Result<Value>, ms: seq<Module>, x: Value, n: nat): (t: seq<(Value, Value)>)
    requires n <= |ms| && Fold(step, ms, x, n).Ok?
    ensures |t| == n
  {
    if n == 0 then []
    else
      OkBefore(step, ms, x, n - 1, n);
      Traces(step, ms, x, n - 1) + [(Fold(step, ms, x, n - 1).value, Fold(step, ms, x, n).value)]
  }

  /** Entry `k` of the trace is what stage `k` received and returned. */
  lemma {:induction false} TracesAt(step: (Module, Value) -> Result<Value>, ms: seq<Module>, x: Value, n: nat, k: nat)
    requires n <= |ms| && Fold(step, ms, x, n).Ok? && k < n
    ensures Trace(step, ms, x, k) == Some(Traces(step, ms, x, n)[k])
    decreases n
  {
    OkBefore(step, ms, x, n - 1, n);
    if k < n - 1 {
      TracesAt(step, ms, x, n - 1, k);
    }
  }

  /** An empty pipeline returns the (defaulted) initial payload. */
  lemma EmptyPipeline(h: Host, x: Value)
    ensures Fold(Processes(h), [], Initial(x), 0) == Ok(Initial(x))
    ensures x.Null? ==> Fold(Processes(h), [], Initial(x), 0) == Ok(List([]))
  {
  }

  /** The stages as values, in order. */
  function Snapshots(ss: seq<Stages.Stage>): (ms: seq<Module>)
    reads set s | s in ss
    decreases |ss|
    ensures |ms| == |ss| && forall k :: 0 <= k < |ss| ==> ms[k] == ss[k].Snapshot()
  {
    if ss == [] then [] else Snapshots(ss[..|ss| - 1]) + [ss[|ss| - 1].Snapshot()]
  }

  /** The diagnostics of the stages, in order. */
  function Diagnostics(ss: seq<Stages.Stage>): (ds: seq<(Value, Value, Value, seq<Option<ForEach.Entry>>)>)
    reads set s | s in ss
    decreases |ss|
    ensures |ds| == |ss| && forall k :: 0 <= k < |ss| ==> ds[k] == ss[k].Diagnostics()
  {
    if ss == [] then [] else Diagnostics(ss[..|ss| - 1]) + [ss[|ss| - 1].Diagnostics()]
  }

  /** A stage's diagnostics: `last_input`, `last_output`,
      `propagated_output` and (for a ForEach) its body preview. */
  type Diag = (Value, Value, Value, seq<Option<ForEach.Entry>>)

  /** The preview a stage `m` leaves when it processes `v`, given the
      preview `p` it held before. */
  type Show = (Module, Value, seq<Option<ForEach.Entry>>) -> seq<Option<ForEach.Entry>>

  /** The stages' own `process`: a ForEach rebuilds its preview for the
      items of its input, every other class leaves it alone. */
  function Previews(h: Host): Show {
    (m: Module, v: Value, p: seq<Option<ForEach.Entry>>) =>
      if m.cls == ForEachC then ForEach.Preview(h, m.body, ForEach.ItemsOf(v)) else p
  }

  /** The first `|trail|` stages (modules `ms`, diagnostics `before` at the
      start) have run: each holds the input it received and the output it
      returned, which it also propagated, and the preview that processing
      its input leaves. */
  predicate Recorded(show: Show, ms: seq<Module>, before: seq<Diag>, ds: seq<Diag>, trail: seq<(Value, Value)>) {
    |trail| <= |ds| == |ms| == |before| &&
    forall k :: 0 <= k < |trail| ==>
      && ds[k].0 == trail[k].0
      && ds[k].1 == trail[k].1
      && ds[k].2 == trail[k].1
      && ds[k].3 == show(ms[k], trail[k].0, before[k].3)
  }

  /** The callback was called once for each of the first `|trail|`
      stages, in order, with the stage and its output. */
  predicate Reported(ss: seq<Stages.Stage>, trail: seq<(Value, Value)>, reported: seq<(Stages.Stage, Value)>) {
    |reported| == |trail| <= |ss| && forall k :: 0 <= k < |trail| ==> reported[k] == (ss[k], trail[k].1)
  }

  /** The stages from `from` on still hold the diagnostics `before`. */
  predicate Untouched(ds: seq<Diag>, before: seq<Diag>, from: nat) {
    |before| == |ds| && forall k :: from <= k < |ds| ==> ds[k] == before[k]
  }

  /** The state of `run` after the stages before `|trail|` have succeeded,
      over the stages' snapshots `snaps` and diagnostics `ds`: `data` is
      the fold so far, `trail` and `reported` list what each of those
      stages received and returned (the stages hold those values and the
      previews `show` gives), every stage is still the module it was
      (`ms`), and the stages from `|trail|` on still hold `before`. */
  predicate Running(step: (Module, Value) -> Result<Value>, show: Show, ss: seq<Stages.Stage>, snaps: seq<Module>, ds: seq<Diag>,
                    ms: seq<Module>, before: seq<Diag>, x: Value, data: Value,
                    trail: seq<(Value, Value)>, reported: seq<(Stages.Stage, Value)>)
  {
    && |trail| <= |ss| == |snaps| == |ds| == |ms| == |before|
    && Fold(step, ms, x, |trail|) == Ok(data)
    && trail == Traces(step, ms, x, |trail|)
    && Reported(ss, trail, reported)
    && snaps == ms
    && Recorded(show, ms, before, ds, trail) && Untouched(ds, before, |trail|)
  }

  /** How `run` ends, over the stages' final snapshots `snaps` and
      diagnostics `ds`, given their snapshots `ms` and diagnostics `before`
      at the start, the initial payload `x`, the result `r` and the
      callback's calls `reported`:
      - the result is the fold of `step` over `x`;
      - no stage's name, class, config or body changed;
      - the callback was called once per completed stage, in order, with
        the stage and its `last_output`, and on success for every stage;
      - each completed stage holds what it received and returned (the
        trace), propagated its output, and holds the preview `show` gives
        for its input;
      - when stage `n = |reported|` raised, the error is the result, the
        stage holds its input and the preview for it but its old output,
        and the stages after it are untouched. */
  predicate Finished(step: (Module, Value) -> Result<Value>, show: Show, ss: seq<Stages.Stage>, snaps: seq<Module>, ds: seq<Diag>,
                     ms: seq<Module>, before: seq<Diag>, x: Value, r: Result<Value>, reported: seq<(Stages.Stage, Value)>)
  {
    && |ss| == |snaps| == |ds| == |ms| == |before|
    && r == Fold(step, ms, x, |ms|)
    && snaps == ms
    && |reported| <= |ss| && (r.Ok? <==> |reported| == |ss|)
    && (forall k :: 0 <= k < |reported| ==> reported[k] == (ss[k], ds[k].1))
    && Fold(step, ms, x, |reported|).Ok?
    && Recorded(show, ms, before, ds, Traces(step, ms, x, |reported|))
    && (r.Err? ==>
      && r == Fold(step, ms, x, |reported| + 1)
      && ds[|reported|].0 == Fold(step, ms, x, |reported|).value
      && ds[|reported|].1 == before[|reported|].1
      && ds[|reported|].2 == before[|reported|].2
      && ds[|reported|].3 == show(ms[|reported|], ds[|reported|].0, before[|reported|].3)
      && Untouched(ds, before, |reported| + 1))
  }

  /** What `run` promises about the stages `ss` as they are now. */
  ghost predicate Outcome(h: Host, ss: seq<Stages.Stage>, ms: seq<Module>, before: seq<Diag>,
                          x: Value, r: Result<Value>, reported: seq<(Stages.Stage, Value)>)
    reads set s | s in ss
  {
    Finished(Processes(h), Previews(h), ss, Snapshots(ss), Diagnostics(ss), ms, before, x, r, reported)
  }

  /** Stage `i = |trail|` ran on `data` with result `result`, recording its
      input and the preview `show` gives for it and, on success only, its
      output (`ds'` is `ds` with slot `i` so updated). On success the state is `Running`
      one stage further; on failure the run has `Finished` with that error. */
  lemma StageDone(step: (Module, Value) -> Result<Value>, show: Show, ss: seq<Stages.Stage>, ms: seq<Module>, ds: seq<Diag>, ds': seq<Diag>,
                  before: seq<Diag>, x: Value, data: Value, trail: seq<(Value, Value)>, reported: seq<(Stages.Stage, Value)>,
                  result: Result<Value>)
    requires Running(step, show, ss, ms, ds, ms, before, x, data, trail, reported) && |trail| < |ss|
    requires result == step(ms[|trail|], data)
    requires |ds'| == |ds| && forall k :: 0 <= k < |ds| && k != |trail| ==> ds'[k] == ds[k]
    requires ds'[|trail|].0 == data && ds'[|trail|].3 == show(ms[|trail|], data, ds[|trail|].3)
    requires result.Ok? ==> ds'[|trail|].1 == result.value && ds'[|trail|].2 == result.value
    requires result.Err? ==> ds'[|trail|].1 == ds[|trail|].1 && ds'[|trail|].2 == ds[|trail|].2
    ensures result.Ok? ==>
      Running(step, show, ss, ms, ds', ms, before, x, result.value, trail + [(data, result.value)], reported + [(ss[|trail|], result.value)])
    ensures result.Err? ==> Finished(step, show, ss, ms, ds', ms, before, x, result, reported)
  {
    if result.Ok? {
      StageOk(step, show, ss, ms, ds, ds', before, x, data, trail, reported, result.value);
    } else {
      StageFailed(step, show, ss, ms, ds, ds', before, x, data, trail, reported, result);
    }
  }

  /** `StageDone` when the stage succeeded with `out`. */
  lemma StageOk(step: (Module, Value) -> Result<Value>, show: Show, ss: seq<Stages.Stage>, ms: seq<Module>, ds: seq<Diag>, ds': seq<Diag>,
                before: seq<Diag>, x: Value, data: Value, trail: seq<(Value, Value)>, reported: seq<(Stages.Stage, Value)>,
                out: Value)
    requires Running(step, show, ss, ms, ds, ms, before, x, data, trail, reported) && |trail| < |ss|
    requires step(ms[|trail|], data) == Ok(out)
    requires |ds'| == |ds| && forall k :: 0 <= k < |ds| && k != |trail| ==> ds'[k] == ds[k]
    requires ds'[|trail|] == (data, out, out, show(ms[|trail|], data, ds[|trail|].3))
    ensures Running(step, show, ss, ms, ds', ms, before, x, out, trail + [(data, out)], reported + [(ss[|trail|], out)])
  {
    var i := |trail|;
    assert Fold(step, ms, x, i + 1) == Ok(out);
    assert Traces(step, ms, x, i + 1) == trail + [(data, out)];
    RecordedSnoc(show, ms, before, ds, ds', trail, data, out);
  }

  /** Stage `|trail|` recorded its input, output and preview: the record
      grows by that stage and the stages after it are untouched. */
  lemma RecordedSnoc(show: Show, ms: seq<Module>, before: seq<Diag>, ds: seq<Diag>, ds': seq<Diag>,
                     trail: seq<(Value, Value)>, data: Value, out: Value)
    requires Recorded(show, ms, before, ds, trail) && Untouched(ds, before, |trail|) && |trail| < |ds|
    requires |ds'| == |ds| && forall k :: 0 <= k < |ds| && k != |trail| ==> ds'[k] == ds[k]
    requires ds'[|trail|] == (data, out, out, show(ms[|trail|], data, before[|trail|].3))
    ensures Recorded(show, ms, before, ds', trail + [(data, out)]) && Untouched(ds', before, |trail| + 1)
  {
  }

  /** `StageDone` when the stage raised. */
  lemma StageFailed(step: (Module, Value) -> Result<Value>, show: Show, ss: seq<Stages.Stage>, ms: seq<Module>, ds: seq<Diag>, ds': seq<Diag>,
                    before: seq<Diag>, x: Value, data: Value, trail: seq<(Value, Value)>, reported: seq<(Stages.Stage, Value)>,
                    result: Result<Value>)
    requires Running(step, show, ss, ms, ds, ms, before, x, data, trail, reported) && |trail| < |ss|
    requires result == step(ms[|trail|], data) && result.Err?
    requires |ds'| == |ds| && forall k :: 0 <= k < |ds| && k != |trail| ==> ds'[k] == ds[k]
    requires ds'[|trail|] == (data, ds[|trail|].1, ds[|trail|].2, show(ms[|trail|], data, ds[|trail|].3))
    ensures Finished(step, show, ss, ms, ds', ms, before, x, result, reported)
  {
    var i := |trail|;
    assert Fold(step, ms, x, i + 1) == result;
    StopsAt(step, ms, x, i, result);
  }

  /** A run that completed every stage has `Finished` with the fold. */
  lemma Concluded(step: (Module, Value) -> Result<Value>, show: Show, ss: seq<Stages.Stage>, ms: seq<Module>, ds: seq<Diag>,
                  before: seq<Diag>, x: Value, data: Value, trail: seq<(Value, Value)>, reported: seq<(Stages.Stage, Value)>)
    requires Running(step, show, ss, ms, ds, ms, before, x, data, trail, reported) && |trail| == |ss|
    ensures Finished(step, show, ss, ms, ds, ms, before, x, Ok(data), reported)
  {
  }

  /** The body of `run`'s loop for stage `i`: record the input, process
      (a ForEach rebuilding its preview), and on success record the output
      as both `last_output` and `propagated_output`. No stage's snapshot
      changes and only stage `i`'s diagnostics do. */
  method RunStage(h: Host, ss: seq<Stages.Stage>, i: nat, data: Value, ghost ms: seq<Module>)
      returns (result: Result<Value>)
    requires i < |ss| == |ms|
    requires forall a, b :: 0 <= a < b < |ss| ==> ss[a] != ss[b]
    requires Snapshots(ss) == ms
    modifies {ss[i]}`lastInput, {ss[i]}`lastOutput, {ss[i]}`propagated, {ss[i]}`preview
    ensures result == ForEach.Exec(h, ms[i], data)
    ensures Snapshots(ss) == ms
    ensures forall k :: 0 <= k < |ss| ==> ss[k].Labels() == old(ss[k].Labels())
    ensures var ds, ds' := old(Diagnostics(ss)), Diagnostics(ss);
      && (forall k :: 0 <= k < |ss| && k != i ==> ds'[k] == ds[k])
      && ds'[i].0 == data
      && ds'[i].3 == Previews(h)(ms[i], data, ds[i].3)
      && (result.Ok? ==> ds'[i].1 == result.value && ds'[i].2 == result.value)
      && (result.Err? ==> ds'[i].1 == ds[i].1 && ds'[i].2 == ds[i].2)
  {
    result := Execute(h, ss[i], data);
  }

  /** One stage on one payload: record the input, process (a ForEach
      rebuilding its preview for the items of the payload), and on success
      record the output as both `last_output` and `propagated_output`. */
  method Execute(h: Host, m: Stages.Stage, data: Value) returns (result: Result<Value>)
    modifies m`lastInput, m`lastOutput, m`propagated, m`preview
    ensures result == ForEach.Exec(h, m.Snapshot(), data)
    ensures m.lastInput == data
    ensures m.cls == ForEachC ==> m.preview == ForEach.Preview(h, m.body, ForEach.ItemsOf(data))
    ensures m.cls != ForEachC ==> m.preview == old(m.preview)
    ensures result.Ok? ==> m.lastOutput == result.value && m.propagated == result.value
    ensures result.Err? ==> m.lastOutput == old(m.lastOutput) && m.propagated == old(m.propagated)
  {
    m.lastInput := data;
    result := m.Process(h, data);
    if result.Ok? {
      m.lastOutput := result.value;
      m.propagated := result.value;
    }
  }

  /** The loop of `run` over the stages `ss`, from payload `x`; `ms` and
      `before` are the stages' snapshots and diagnostics on entry. */
  method RunStages(h: Host, ss: seq<Stages.Stage>, x: Value, ghost ms: seq<Module>, ghost before: seq<Diag>)
      returns (r: Result<Value>, reported: seq<(Stages.Stage, Value)>)
    requires forall i, j :: 0 <= i < j < |ss| ==> ss[i] != ss[j]
    requires ms == Snapshots(ss) && before == Diagnostics(ss)
    modifies ss`lastInput, ss`lastOutput, ss`propagated, ss`preview
    ensures Outcome(h, ss, ms, before, x, r, reported)
    ensures forall k :: 0 <= k < |ss| ==> ss[k].Labels() == old(ss[k].Labels())
  {
    ghost var trail: seq<(Value, Value)> := [];
    var data := x;
    reported := [];
    var i := 0;
    while i < |ss|
      invariant i == |trail|
      invariant Running(Processes(h), Previews(h), ss, Snapshots(ss), Diagnostics(ss), ms, before, x, data, trail, reported)
      invariant forall k :: 0 <= k < |ss| ==> ss[k].Labels() == old(ss[k].Labels())
    {
      ghost var ds := Diagnostics(ss);
      var result := RunStage(h, ss, i, data, ms);
      StageDone(Processes(h), Previews(h), ss, ms, ds, Diagnostics(ss), before, x, data, trail, reported, result);
      if result.Err? {
        return result, reported;
      }
      reported := reported + [(ss[i], result.value)];
      trail := trail + [(data, result.value)];
      data := result.value;
      i := i + 1;
    }
    r := Ok(data);
    Concluded(Processes(h), Previews(h), ss, ms, Diagnostics(ss), before, x, data, trail, reported);
  }

  class Pipeline {
    var modules: seq<Stages.Stage>

    /** `modules or []`. */
    constructor(ms: Option<seq<Stages.Stage>>)
      ensures modules == ms.GetOr([])
    {
      modules := ms.GetOr([]);
    }

    /** `add`: the stage goes at the end. */
    method Add(m: Stages.Stage)
      modifies this
      ensures modules == old(modules) + [m]
    {
      modules := modules + [m];
    }

    /** `run`: the result is the left fold of the stages' `process` over
        the (defaulted) initial payload. Every completed stage records what
        it received and returned and is reported to the callback, in order;
        a ForEach stage also holds the preview of its last call. A stage
        that raises has recorded its input but not an output, the error is
        re-raised, and the stages after it are left untouched. No stage's
        type labels or counts change. */
    method Run(h: Host, initial: Value) returns (r: Result<Value>, reported: seq<(Stages.Stage, Value)>)
      requires forall i, j :: 0 <= i < j < |modules| ==> modules[i] != modules[j]
      modifies modules`lastInput, modules`lastOutput, modules`propagated, modules`preview
      ensures Outcome(h, modules, old(Snapshots(modules)), old(Diagnostics(modules)), Initial(initial), r, reported)
      ensures forall k :: 0 <= k < |modules| ==> modules[k].Labels() == old(modules[k].Labels())
    {
      r, reported := RunStages(h, modules, Initial(initial), Snapshots(modules), Diagnostics(modules));
    }
  }
}
