/** A module object as the engine holds it (`BaseModule` and its
    subclasses): its name, config and body, the UI metadata the constructor
    sets, the runtime fields a Pipeline overwrites, and the preview a
    ForEach rebuilds on every call. */
module Stages {
  import opened Values
  import opened Base
  import ForEach
  import IntSource
  import Multiply
  import Filter
  import Transform

  /** The `input_type` a class's constructor leaves behind. */
  function InputType(c: Class): string {
    match c
    case IntSourceC => "None"
    case MultiplyC => "int|float"
    case FilterC => "list"
    case TransformC => "list"
    case _ => "Any"
  }

  /** The `output_type` a class's constructor leaves behind. */
  function OutputType(c: Class): string {
    match c
    case IntSourceC => "list[int]"
    case MultiplyC => "int|float"
    case ToStringC => "str"
    case FilterC => "list"
    case TransformC => "list"
    case _ => "Any"
  }

  class Stage {
    var cls: Class
    var name: string
    var config: Config
    var body: seq<Spec>                         // ForEach only
    var preview: seq<Option<ForEach.Entry>>     // ForEach `_body_preview`
    var inputType: string
    var outputType: string
    var inputCount: int
    var outputCount: int
    var inputTypes: seq<string>
    var outputTypes: seq<string>
    var lastInput: Value
    var lastOutput: Value
    var propagated: Value

    /** What the stage is, apart from its diagnostic fields. */
    function Snapshot(): Module
      reads this`cls, this`name, this`config, this`body
    {
      Module(cls, name, config, body)
    }

    /** What a pipeline run leaves on the stage: `last_input`,
        `last_output`, `propagated_output`, and the preview. */
    function Diagnostics(): (Value, Value, Value, seq<Option<ForEach.Entry>>)
      reads this`lastInput, this`lastOutput, this`propagated, this`preview
    {
      (lastInput, lastOutput, propagated, preview)
    }

    /** The type labels and port counts the constructor sets. */
    function Labels(): (string, string, int, int, seq<string>, seq<string>)
      reads this`inputType, this`outputType, this`inputCount, this`outputCount, this`inputTypes, this`outputTypes
    {
      (inputType, outputType, inputCount, outputCount, inputTypes, outputTypes)
    }

    /** `BaseModule.__init__` followed by the subclass's own `__init__`: the
        base sets the defaults and copies the then-current type labels into
        the one-element lists, then the subclass overrides the labels (so
        the lists keep "Any"). */
    constructor(c: Class, n: Option<string>, cfg: Option<Config>, b: Option<seq<Spec>>)
      requires c != ForEachC ==> b.None?
      requires n.Some? || c != BaseC
      ensures Snapshot() == New(c, n, cfg, b).value
      ensures inputType == InputType(c) && outputType == OutputType(c)
      ensures inputCount == (if c == IntSourceC then 0 else 1) && outputCount == 1
      ensures inputTypes == ["Any"] && outputTypes == ["Any"]
      ensures lastInput == Null && lastOutput == Null && propagated == Null
      ensures preview == []
    {
      cls := c;
      name := if n.Some? then n.value else DefaultName(c).value;
      config := cfg.GetOr([]);
      inputType := "Any";
      outputType := "Any";
      inputCount := 1;
      inputTypes := [inputType];
      outputCount := 1;
      outputTypes := [outputType];
      lastInput := Null;
      lastOutput := Null;
      propagated := Null;
      body := b.GetOr([]);
      preview := [];
      new;
      match c {
        case IntSourceC =>
          inputType := "None";
          inputCount := 0;
          outputType := "list[int]";
        case MultiplyC =>
          inputType := "int|float";
          outputType := "int|float";
        case ToStringC =>
          inputType := "Any";
          outputType := "str";
        case FilterC =>
          inputType := "list";
          outputType := "list";
        case TransformC =>
          inputType := "list";
          outputType := "list";
        case _ =>
      }
    }

    /** `process(x)`: the class's own behaviour; a ForEach also rebuilds
        its preview, every other class leaves it alone. */
    method Process(h: Host, x: Value) returns (r: Result<Value>)
      modifies this`preview
      ensures r == ForEach.Exec(h, Snapshot(), x)
      ensures cls == ForEachC ==> preview == ForEach.Preview(h, body, ForEach.ItemsOf(x))
      ensures cls != ForEachC ==> preview == old(preview)
      decreases SpecsSize(body), 3
    {
      match cls {
        case BaseC => r := BaseProcess(x);
        case IntSourceC => r := IntSource.Process(config, x);
        case MultiplyC => r := Multiply.Process(config, x);
        case ToStringC => r := Ok(Str(h.repr(x)));
        case FilterC => r := Filter.RunFilter(h, config, x);
        case TransformC => r := Transform.Process(h, config, x);
        case ForEachC =>
          var out := RunItems(h, x);
          r := Ok(out);
      }
    }

    /** `ForEachModule.process`: resets the preview to one empty slot per
        step, then threads each item through the body and collects the
        results. */
    method RunItems(h: Host, x: Value) returns (v: Value)
      modifies this`preview
      ensures v == ForEach.Process(h, body, x)
      ensures preview == ForEach.Preview(h, body, ForEach.ItemsOf(x))
      decreases SpecsSize(body), 2
    {
      var items := ForEach.ItemsOf(x);
      preview := ForEach.Nones(|body|);
      var out: seq<Value> := [];
      var i := 0;
      while i < |items|
        invariant 0 <= i <= |items|
        invariant out == ForEach.Outputs(h, body, items[..i])
        invariant preview == ForEach.Preview(h, body, items[..i])
      {
        var cur := RunBody(h, items[i]);
        ForEach.OneMoreItem(h, body, items, i);
        out := out + [cur];
        i := i + 1;
      }
      assert items[..i] == items;
      v := List(out);
    }

    /** One item through every body step, writing each step's slot first as
        running and then as done. */
    method RunBody(h: Host, item: Value) returns (cur: Value)
      requires |preview| == |body|
      modifies this`preview
      ensures cur == ForEach.Steps(h, body, item).0
      ensures preview == ForEach.Somes(ForEach.Steps(h, body, item).1)
      decreases SpecsSize(body), 1
    {
      cur := item;
      var j := 0;
      while j < |body|
        invariant 0 <= j <= |body| && |preview| == |body|
        invariant cur == ForEach.Steps(h, body[..j], item).0
        invariant preview[..j] == ForEach.Somes(ForEach.Steps(h, body[..j], item).1)
      {
        cur := RunBodyStep(h, item, j, cur);
        j := j + 1;
      }
      assert body[..j] == body;
    }

    /** Step `j` of the body on the current value: its slot shows the step
        as running, then as done. */
    method RunBodyStep(h: Host, item: Value, j: nat, cur: Value) returns (next: Value)
      requires j < |body| == |preview|
      requires cur == ForEach.Steps(h, body[..j], item).0
      requires preview[..j] == ForEach.Somes(ForEach.Steps(h, body[..j], item).1)
      modifies this`preview
      ensures |preview| == |body|
      ensures next == ForEach.Steps(h, body[..j + 1], item).0
      ensures preview[..j + 1] == ForEach.Somes(ForEach.Steps(h, body[..j + 1], item).1)
      decreases SpecsSize(body), 0
    {
      ghost var done := ForEach.Steps(h, body[..j], item).1;
      var spec := body[j];
      var res := ForEach.Resolve(spec);
      var stepName := ForEach.StepName(h, spec, res);
      var running := Some(ForEach.Entry(stepName, cur, Null, ForEach.Running, None));
      ghost var start := preview;
      preview := preview[j := running];
      SpecInBody(body, j);
      var nested;
      next, nested := RunStep(h, spec, res, cur);
      var entry := ForEach.Entry(stepName, cur, next, ForEach.Done, nested);
      preview := preview[j := Some(entry)];
      ForEach.OneMoreStep(h, body, j, item);
      ForEach.SlotDone(start, j, done, running, entry);
    }

    /** `add_body_module`: appends `(cls, config)`. */
    method AddBodyModule(c: Class, cfg: Config)
      modifies this`body
      ensures body == old(body) + [ClassConfig(c, cfg)]
    {
      body := body + [ClassConfig(c, cfg)];
    }

    /** `remove_body_module`: deletes that index, or does nothing when it is
        out of range. */
    method RemoveBodyModule(i: int)
      modifies this`body
      ensures body == ForEach.Removed(old(body), i)
    {
      if 0 <= i < |body| {
        body := body[..i] + body[i + 1..];
      }
    }

    /** `reorder_body_modules`: pops the old index and inserts at the new
        one, or does nothing when either is out of range. */
    method ReorderBodyModules(i: int, j: int)
      modifies this`body
      ensures body == ForEach.Moved(old(body), i, j)
    {
      if 0 <= i < |body| && 0 <= j < |body| {
        var item := body[i];
        body := body[..i] + body[i + 1..];
        body := body[..j] + [item] + body[j..];
      }
    }
  }

  /** The part of a step that runs the resolved module: the value and the
      finished slot are those of `StepOne`. */
  method RunStep(h: Host, spec: Spec, res: Result<Module>, x: Value) returns (y: Value, nested: Option<seq<Option<ForEach.Entry>>>)
    requires res == ForEach.Resolve(spec)
    ensures ForEach.StepOne(h, spec, x) == (y, ForEach.Entry(ForEach.StepName(h, spec, res), x, y, ForEach.Done, nested))
    decreases if res.Ok? then SpecsSize(res.value.body) else 0, 5
  {
    if res.Err? {
      return x, None;
    }
    var out;
    out, nested := RunResolved(h, res.value, x);
    y := if out.Ok? then out.value else x;
  }

  /** A fresh object built from the resolved module, and its `process`;
      a ForEach also leaves its preview behind. */
  method RunResolved(h: Host, m: Module, x: Value) returns (out: Result<Value>, nested: Option<seq<Option<ForEach.Entry>>>)
    ensures out == ForEach.Exec(h, m, x)
    ensures nested == if m.cls == ForEachC then Some(ForEach.Preview(h, m.body, ForEach.ItemsOf(x))) else None
    decreases SpecsSize(m.body), 4
  {
    var mod := new Stage(m.cls, Some(m.name), Some(m.config), if m.cls == ForEachC then Some(m.body) else None);
    Rebuilt(m);
    out := mod.Process(h, x);
    if m.cls != ForEachC {
      ExecIgnoresBody(h, m, x);
    }
    nested := if m.cls == ForEachC then Some(mod.preview) else None;
  }

  /** Rebuilding a resolved module from its own fields gives it back, less
      the body when it is not a ForEach. */
  lemma Rebuilt(m: Module)
    ensures New(m.cls, Some(m.name), Some(m.config), if m.cls == ForEachC then Some(m.body) else None)
      == Ok(if m.cls == ForEachC then m else m.(body := []))
  {
  }

  /** Only a ForEach looks at its body. */
  lemma ExecIgnoresBody(h: Host, m: Module, x: Value)
    requires m.cls != ForEachC
    ensures ForEach.Exec(h, m, x) == ForEach.Exec(h, m.(body := []), x)
  {
  }
}
