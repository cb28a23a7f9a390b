# Flet Module Algorithm: the pipeline engine in Dafny

This project models the engine behind a small visual pipeline editor.

A **Pipeline** is an ordered list of modules. A payload passes through them: each module receives the previous module's result, and the first one receives `[]` when no input is given. The modules are:

- **IntSource** emits `count` consecutive integers from `start`.
- **Multiply** scales one number by `factor`.
- **Filter** keeps or drops list items by an expression, optionally evaluated on one field of dict items.
- **Transform** maps an expression over a list, optionally rewriting one field of dict items.
- **ForEach** threads every item of a list through a *body* of module specs.
  - It builds a fresh module for each step and each item.
  - It records a per-step *preview* of the last item's input and output.
- **ToString** is a context module, included so that bodies can name it.

The model also covers the widget-free helpers of the editor views:

- turning a body spec into a module;
- the module-name registry and the view registry;
- the diff between a stage's propagated output and its input, and the text spans that show it;
- the editable config fields of a module;
- writing a child's edited config back into its parent ForEach body.

Layout, one Dafny module per file:

| file | module | what it holds |
|---|---|---|
| `values.dfy` | `Values` | payloads (`Null`, `Bool`, `Num`, `Str`, `List`, `Dict` with string keys in insertion order), the errors, truthiness, `dict.get`, item assignment, `==` |
| `base.dfy` | `Base` | `BaseModule`'s record and constructor, the module classes, the body spec forms, the `Host` (the sandboxed `eval` and `str()`) |
| `conversions.dfy` | `Conversions` | `int(v)` and `float(v)` on config values |
| `int_source.dfy`, `multiply.dfy`, `filter.dfy`, `transform.dfy` | `IntSource`, `Multiply`, `Filter`, `Transform` | the leaf modules' `process` |
| `for_each.dfy` | `ForEach` | spec resolution, the body run, the result, the preview, body editing |
| `stages.dfy` | `Stages` | class `Stage`, a module object with its in-place fields; its methods run the ForEach loops and edit the body |
| `pipeline.dfy` | `Pipelines` | class `Pipeline` with `add` and `run`, specified by a fold over the stages |
| `view_helpers.dfy` | `ViewHelpers` | the editor helpers, with classes for the view registry |
| `scenarios.dfy` | `Scenarios` | the repository's test cases replayed on the model |

Three things are outside the engine and become parameters of the model, grouped in `Base.Host`: the sandboxed `eval` of an expression text, Python's `str()` of a payload, and the `repr` of a module object. A test that evaluates an expression states, as a precondition, what `eval` returns for the values it meets.

## Model

| member | source | states |
|---|---|---|
| Values.Truthy | src/modules/filter.py:20-24 | `bool(v)` is false exactly for None and for the zero or empty value of the payload's own kind |
| Values.Get | src/modules/filter.py:49 | `d.get(k)` finds a value iff `k` is a key of `d` |
| Values.GetUnique | src/modules/filter.py:49 | in a dict, whose keys are unique, `d.get(k)` is the value stored next to `k` |
| Values.PyEq | src/view_helpers.py:196 | payloads that compare equal under `==` have the same truthiness |
| Values.Set | src/modules/transform.py:32-33 | `d[k] = v` keeps the key order and appends `k` when it is absent; `k` then maps to `v` and every other key keeps its value |
| Values.SetAbsentAppends | src/modules/transform.py:32-33 | assigning an absent key appends it at the end of the dict |
| Base.New | src/modules/base.py:10-12 | a constructor call succeeds iff a name is given or the class has a default name (every class but `BaseModule`), else TypeError; config defaults to `{}`, body to `[]`, name to the class default |
| Base.BaseProcess | src/modules/base.py:25-26 | the abstract `process` always raises NotImplementedError |
| Base.Matching | src/modules/for_each.py:74 | the kwargs comprehension keeps exactly the config keys that are constructor parameters, with their values |
| Base.MatchingIgnoresAbsent | src/view_helpers.py:110-115 | filtering by the parameter list with or without `self` gives the same kwargs when the config has no `self` key, so the two instantiation paths agree |
| Base.ToConfig | src/modules/for_each.py:74-77 | a dict passed as the `config` keyword becomes a config with the same entries in the same order |
| Conversions.IntOf | src/modules/int_source.py:21-22 | `int()` truncates numbers toward zero, maps booleans to 0/1, parses strings (ValueError when malformed) and raises TypeError for every other value |
| Conversions.FloatOf | src/modules/multiply.py:18 | `float()` keeps numbers, maps booleans to 0.0/1.0, parses strings (ValueError when malformed) and raises TypeError otherwise |
| Conversions.ParseInt | src/modules/int_source.py:21-22 | a string parses as an integer iff it is an optional sign followed by at least one digit |
| Conversions.Truncate | src/modules/int_source.py:21 | truncation toward zero: the result is within one of the real, on its side of zero |
| IntSource.Range | src/modules/int_source.py:23 | `[start + i for i in range(n)]`: `max(n, 0)` items, the i-th being `start + i` |
| IntSource.Process | src/modules/int_source.py:20-26 | fails exactly when `start` (read first) or `count` is rejected by `int()`; otherwise `max(count, 0)` consecutive integers from `start` |
| IntSource.ConsecutiveStep | src/modules/int_source.py:23 | neighbouring outputs differ by exactly one |
| IntSource.DefaultsGiveOneToFive | src/modules/int_source.py:21-23 | with an empty config the output is `[1, 2, 3, 4, 5]` |
| IntSource.NonPositiveCountIsEmpty | src/modules/int_source.py:23 | a count of zero or less gives the empty list |
| IntSource.IgnoresInput | src/modules/int_source.py:20-26 | the output does not depend on the input payload |
| Multiply.Process | src/modules/multiply.py:17-27 | fails iff the factor is rejected by `float()`; a number or boolean is multiplied by the factor; any other payload, lists included, comes back unchanged |
| Multiply.DefaultFactorIsOne | src/modules/multiply.py:18-21 | without a factor a number passes through unchanged |
| Filter.Pred | src/modules/filter.py:19-27 | an empty expression keeps; otherwise keep iff `eval` succeeds with a truthy result; a failing or non-string expression drops |
| Filter.Projection | src/modules/filter.py:47-49 | with a truthy `field` a dict item is seen through `item.get(field)`, None when absent; an unhashable field on a dict raises TypeError; other items are seen whole |
| Filter.Keeps | src/modules/filter.py:47-54 | an item is kept iff the mode is `"keep"` and the predicate holds, or the mode is `"drop"` and it does not; errors come only from the projection |
| Filter.Items | src/modules/filter.py:37-43 | a list is taken as is, a string as its characters, a dict as its keys, a number or boolean (not iterable) as a one-item list |
| Filter.Process | src/modules/filter.py:29-58 | `None` gives `[]`; every successful result is a list |
| Filter.RunFilter | src/modules/filter.py:29-58 | the imperative `process` returns what the specification function `Filter.Process` returns |
| Filter.Select | src/modules/filter.py:45-54 | the selection is never longer than the items, and every item it returns passes the keep/drop test |
| Filter.SelectLoop | src/modules/filter.py:45-54 | the loop over the items computes the specification `Filter.Select` |
| Filter.SelectSnoc | src/modules/filter.py:46-54 | one more item appends it to the result iff it is kept; an earlier error sticks |
| Filter.SelectErrorPropagates | src/modules/filter.py:45-54 | once a prefix fails the whole selection fails with that error |
| Filter.SelectIsSubsequence | src/modules/filter.py:45-54 | the output is a subsequence of the input: order kept, nothing invented |
| Filter.SubseqOfExtend | src/modules/filter.py:45-54 | a subsequence stays one when the input grows |
| Filter.SelectFailsExactly | src/modules/filter.py:48-49 | the selection raises iff the field is truthy but unhashable and some item is a dict, and then raises TypeError |
| Filter.KeepAndDropPartition | src/modules/filter.py:51-54 | `keep` and `drop` over the same items succeed together and split the items between them as multisets |
| Filter.UnknownModeKeepsNothing | src/modules/filter.py:51-54 | a mode other than `keep` and `drop` keeps nothing |
| Filter.EmptyExprKeepsAll | src/modules/filter.py:20-21 | an empty expression keeps every item under `keep` and none under `drop` |
| Filter.FailingExprKeepsNothing | src/modules/filter.py:23-27 | an expression whose evaluation always fails keeps nothing |
| Filter.DefaultModeIsKeep | src/modules/filter.py:31 | a missing or falsy mode means `keep` |
| Transform.Eval | src/modules/transform.py:18-26 | an empty or non-string expression is the identity; otherwise the `eval` result, or the original value when `eval` raises |
| Transform.ApplyOne | src/modules/transform.py:28-36 | with a truthy string field a dict item has that field set to the evaluated old value (None when absent); other items are evaluated whole; a non-string field on a dict is an error |
| Transform.FieldUpdate | src/modules/transform.py:29-34 | a field update changes only that key, keeps the key order and appends the key when it was absent |
| Transform.ApplyAll | src/modules/transform.py:46 | the comprehension succeeds iff every item does, keeps the length and the i-th output is the i-th item transformed |
| Transform.Process | src/modules/transform.py:38-55 | `None` gives `[]`; a list is mapped item by item to a list of the same length; any other payload is transformed alone |
| Transform.EmptyExprIsIdentity | src/modules/transform.py:19-20 | without an expression and a field every list comes back unchanged |
| Transform.FailingExprIsIdentity | src/modules/transform.py:24-26 | an expression whose evaluation always fails leaves every list unchanged |
| Transform.EmptyExprKeepsKeys | src/modules/transform.py:29-34 | with an empty expression an existing field is rewritten to itself and the keys are unchanged |
| Transform.EmptyExprAddsField | src/modules/transform.py:29-34 | with an empty expression an absent field is appended with value None |
| ForEach.ItemsOf | src/modules/for_each.py:101-104 | a list is iterated as is; any other payload as a one-item list |
| ForEach.KwArgs | src/modules/for_each.py:74 | the kwargs of a `(cls, cfg)` spec are the config entries whose keys are parameters of `cls.__init__` (with `self`) |
| ForEach.BodyArg | src/modules/for_each.py:23 | a body passed as a keyword is smaller than the config that carries it |
| ForEach.Construct | src/modules/for_each.py:76-77 | `cls(**kwargs)` builds a module of class `cls`; a `self` keyword, or one whose value contradicts the parameter's type, is a TypeError; a keyword not passed takes its default (the class's name, `{}`, `[]`), and only a ForEach keeps a body |
| ForEach.Resolve | src/modules/for_each.py:43-98 | an instance is rebuilt from its name, config and (for a ForEach) body; a class is called bare; `(cls, cfg)` is called with matching kwargs when there are any and the call succeeds, else with `config=cfg`; a factory yields its module or fails; any other value is a TypeError |
| ForEach.StepName | src/modules/for_each.py:122 | a step is named by its module's name when that is non-empty |
| ForEach.Exec | src/modules/for_each.py:129 | a ForEach runs its body over the items and never fails; `BaseModule` raises NotImplementedError; ToString gives `str(x)` |
| ForEach.StepOne | src/modules/for_each.py:112-150 | one body step leaves a done entry whose input is the current value and whose output is the step's result; a spec that fails to resolve, or a step that raises, leaves the value unchanged; the entry nests a preview iff the step is a ForEach |
| ForEach.Steps | src/modules/for_each.py:111-150 | running a body leaves one preview entry per body spec |
| ForEach.Outputs | src/modules/for_each.py:110-152 | one output per item, the item threaded through the whole body |
| ForEach.Preview | src/modules/for_each.py:107-150 | after a run the preview holds the last item's entries, or one None per step when there were no items |
| ForEach.Process | src/modules/for_each.py:100-156 | the result is a list with one element per item (a non-list payload is one item), each the item threaded through the body |
| ForEach.OneMoreStep | src/modules/for_each.py:112-150 | one more body step extends the run by that step's result and entry |
| ForEach.SlotDone | src/modules/for_each.py:123-150 | marking slot j running and then done extends the finished preview prefix by that entry |
| ForEach.OneMoreItem | src/modules/for_each.py:110-152 | one more item appends its result and replaces the preview with its entries |
| ForEach.StepsChain | src/modules/for_each.py:111-152 | each step's recorded output is the next step's recorded input; the first input is the item and the last output is the result |
| ForEach.StepsSlots | src/modules/for_each.py:140-150 | after a run every entry is done and nests a preview exactly for the ForEach steps |
| ForEach.StepsAppend | src/modules/for_each.py:112-138 | running body `a + b` is running `a` and then `b` on its result |
| ForEach.StepsAppendSlots | src/modules/for_each.py:112-150 | the preview of `a + b` is the preview of `a` followed by that of `b` |
| ForEach.SkippedStep | src/modules/for_each.py:114-138 | a step that cannot be built, or a bare `BaseModule`, is skipped: removing it from the body does not change the result |
| ForEach.EmptyBodyIsIdentity | src/modules/for_each.py:100-156 | an empty body returns the list unchanged |
| ForEach.PreviewAfterRun | src/modules/for_each.py:106-150 | after a run over a non-empty list every step is done; the entries chain from the last item to its output |
| ForEach.BodyTupleResolves | src/modules/for_each.py:70-79 | `(ForEachModule, {"body": b})` builds the same ForEach as an instance with body `b` |
| ForEach.ConfigTupleResolves | src/modules/for_each.py:70-87 | `(cls, cfg)` without parameter keys builds `cls(config=cfg)` with the default name |
| ForEach.Removed | src/modules/for_each.py:32-35 | an in-range index removes that element and shifts the rest; an out-of-range one changes nothing |
| ForEach.Inserted | src/modules/for_each.py:41 | `insert(j, x)` puts `x` at `j` and shifts the rest |
| ForEach.Moved | src/modules/for_each.py:37-41 | when both indices are in range the element moves from `i` to `j`; otherwise nothing changes |
| ForEach.RemovedMultiset | src/modules/for_each.py:32-35 | removal takes out exactly that one element |
| ForEach.RemoveInserted | src/modules/for_each.py:37-41 | removing what was inserted restores the body |
| ForEach.InsertRemoved | src/modules/for_each.py:37-41 | inserting what was removed at the same place restores the body |
| ForEach.MovedProperties | src/modules/for_each.py:37-41 | a move is a permutation, is undone by the reverse move, and removing the moved element gives the same list as removing it before the move |
| Stages.Stage.constructor | src/modules/base.py:10-23 | a new module has the name, config and body of `Base.New`, its class's type labels and counts, and null runtime fields |
| Stages.Stage.Process | src/modules/for_each.py:100-107 | calling `process` returns the specified result; a ForEach rebuilds its preview for the items; other classes keep theirs |
| Stages.Stage.RunItems | src/modules/for_each.py:100-156 | the item loop returns the specified ForEach result and leaves the specified preview |
| Stages.Stage.RunBody | src/modules/for_each.py:111-152 | the body loop for one item returns the threaded value and fills every preview slot |
| Stages.Stage.RunBodyStep | src/modules/for_each.py:112-150 | one body step advances the value and fills preview slot `j`, keeping the earlier slots |
| Stages.Stage.AddBodyModule | src/modules/for_each.py:28-30 | the body gains `(cls, config)` at the end |
| Stages.Stage.RemoveBodyModule | src/modules/for_each.py:32-35 | the body becomes `ForEach.Removed` of the old body |
| Stages.Stage.ReorderBodyModules | src/modules/for_each.py:37-41 | the body becomes `ForEach.Moved` of the old body |
| Stages.RunStep | src/modules/for_each.py:114-150 | the imperative step returns the specified value and preview entry |
| Stages.RunResolved | src/modules/for_each.py:127-150 | running a resolved module gives the specified result, and for a ForEach the preview it leaves |
| Stages.Rebuilt | src/modules/for_each.py:51-59 | rebuilding an instance from its constructor parameters reproduces it; only a ForEach keeps a body |
| Stages.ExecIgnoresBody | src/modules/for_each.py:51-59 | the body of a module that is not a ForEach plays no part in its run |
| Pipelines.Initial | src/modules/pipeline.py:20 | a missing input becomes `[]`; any other input is kept |
| Pipelines.Fold | src/modules/pipeline.py:23-43 | the data after the first k stages; when it is an error, it is the error some stage among them raised |
| Pipelines.ErrorSticks | src/modules/pipeline.py:32-40 | once a stage raises, no later stage runs and the run ends with that error |
| Pipelines.StopsAt | src/modules/pipeline.py:37-40 | a stage that raises decides the outcome of the whole run |
| Pipelines.OkBefore | src/modules/pipeline.py:23-43 | a successful run succeeded at every earlier stage |
| Pipelines.FoldPrefix | src/modules/pipeline.py:23-43 | stages appended later do not change the data seen by the earlier ones |
| Pipelines.FoldAppend | src/modules/pipeline.py:23-62 | running `a + b` is running `b` on the result of `a` |
| Pipelines.Trace | src/modules/pipeline.py:26-45 | stage k records an input and output iff the run gets past it; they are the data before and after it |
| Pipelines.TraceChains | src/modules/pipeline.py:42-44 | each stage's output is the next stage's input |
| Pipelines.Traces | src/modules/pipeline.py:23-47 | the trail has one pair per stage run |
| Pipelines.TracesAt | src/modules/pipeline.py:23-47 | the k-th pair of the trail is stage k's recorded input and output |
| Pipelines.EmptyPipeline | src/modules/pipeline.py:20-62 | with no stages the run returns its initial data, `[]` when none is given |
| Pipelines.StageDone | src/modules/pipeline.py:26-47 | after stage i ran: on success the loop state moves one stage on (the fold, the trail and the callback list each grow by that stage, which holds its input, output and the preview for that input); on failure the run ends with that error, the stage keeps its old output and the later stages are untouched |
| Pipelines.Concluded | src/modules/pipeline.py:23-62 | a run that completed every stage ends with the fold as its result and every stage reported |
| Pipelines.RunStage | src/modules/pipeline.py:26-47 | running stage i gives that stage's `process` result and sets its `last_input`; a ForEach stage's preview becomes the one for that input, any other stage's stays; its output and propagated output are set on success only; no module, type label or count changes and no other stage's diagnostics change |
| Pipelines.RunStages | src/modules/pipeline.py:23-59 | the stage loop ends with the outcome `run` promises, and no stage's type labels or counts change |
| Pipelines.Execute | src/modules/pipeline.py:26-47 | one stage's call records `last_input`, rebuilds a ForEach's preview for the items of its input (src/modules/for_each.py:106-150) and leaves any other class's preview, then records `last_output` and `propagated_output` on success only |
| Pipelines.Pipeline.constructor | src/modules/pipeline.py:13-14 | a pipeline starts with the given modules, or none |
| Pipelines.Pipeline.Add | src/modules/pipeline.py:16-17 | `add` appends the module |
| Pipelines.Pipeline.Run | src/modules/pipeline.py:19-62 | the run returns the fold of the stages over the initial data, or the first stage error; every stage reached records its input and, on success, its output, and a ForEach stage reached holds the preview of its run on that input; stages after a failure are untouched; the callback sees each successful stage with its output, in order; no stage's type labels or counts change |
| ViewHelpers.InstantiateModule | src/view_helpers.py:102-125 | `_instantiate_module(cls, cfg)` builds a module of class `cls`; only `BaseModule` can fail, with TypeError |
| ViewHelpers.PlainConfig | src/view_helpers.py:102-131 | a config without constructor parameters builds the class with that config (a `BaseModule` fails) |
| ViewHelpers.ExtractModule | src/view_helpers.py:75-99 | a module instance comes back as is; a class or `(cls, cfg)` spec gives a module of that class, failing only for `BaseModule`; any other spec gives None |
| ViewHelpers.ExtractVersusResolve | src/view_helpers.py:75-99 | the view's extraction returns an instance as is; for class and `(cls, cfg)` specs it builds the module that ForEach's resolution builds, failing alike; a factory gives None |
| ViewHelpers.ModuleClass | src/view_helpers.py:52-54 | a class found by name has that name |
| ViewHelpers.ModuleClassNames | src/view_helpers.py:17-28 | the registry knows exactly IntSource, MultiplyModule, ToStringModule and ForEachModule, each under its class name |
| ViewHelpers.ModuleClassOfName | src/view_helpers.py:52-54 | looking up a class's name gives that class iff it is registered |
| ViewHelpers.ViewRegistry.constructor | src/view_helpers.py:14 | the view registry starts empty |
| ViewHelpers.ViewRegistry.Lookup | src/view_helpers.py:47-49 | a lookup finds a view iff its id is registered |
| ViewHelpers.ViewRegistry.Register | src/view_helpers.py:31-36 | registering makes the view findable by its id and changes no other id |
| ViewHelpers.ViewRegistry.Unregister | src/view_helpers.py:39-44 | unregistering removes that id, absent or not, and changes no other id |
| ViewHelpers.Rewritten | src/view_helpers.py:237-243 | a rewritten body spec is `(cls, config copy)`, with the tuple's class, else the instance's class, else the child view's class |
| ViewHelpers.RewrittenIdempotent | src/view_helpers.py:237-243 | rewriting twice with the same config is rewriting once |
| ViewHelpers.IndexOf | src/view_helpers.py:231 | `list.index` gives the first position holding the element |
| ViewHelpers.PersistConfigToParentBody | src/view_helpers.py:223-243 | when the parent is a ForEach holding the view, body slot `idx` becomes the rewritten spec, or IndexError when the body is shorter; otherwise nothing changes |
| ViewHelpers.OutputDiff | src/view_helpers.py:183-199 | the added and changed lists together report no more keys than the propagated dict has, and nothing when it is not a dict |
| ViewHelpers.DiffSize | src/view_helpers.py:193-197 | each key of the propagated dict is reported at most once, as added or as changed |
| ViewHelpers.AddedMembers | src/view_helpers.py:193-195 | a key is reported added iff it is in the output and not in the input |
| ViewHelpers.ChangedMembers | src/view_helpers.py:196-197 | a key is reported changed iff it is in both and its values differ under `==` |
| ViewHelpers.DiffDisjoint | src/view_helpers.py:192-197 | no key is both added and changed |
| ViewHelpers.DiffInOrder | src/view_helpers.py:193-197 | both key lists follow the output's key order |
| ViewHelpers.CalculateOutputDiff | src/view_helpers.py:183-199 | the loop computes the specified added and changed keys, both empty unless both payloads are dicts |
| ViewHelpers.DiffSpans | src/view_helpers.py:202-220 | the spans start with the header and hold two spans per key (the key and a separator or heading) plus the header |
| ViewHelpers.DiffSpansRead | src/view_helpers.py:202-220 | the spans start with the header; the green spans are exactly the added keys, the orange ones exactly the changed keys, the plain ones the headings and separators |
| ViewHelpers.SectionColors | src/view_helpers.py:206-218 | a section's spans in its colour are its keys; its plain spans are the heading and one separator between each pair of keys |
| ViewHelpers.JoinedKeys | src/view_helpers.py:208-211 | the coloured spans of a joined list are the keys in order |
| ViewHelpers.JoinedSeparators | src/view_helpers.py:208-211 | a list of n keys is joined with n - 1 separators |
| ViewHelpers.AppendSection | src/view_helpers.py:206-211 | the section loop appends the heading and the joined keys, or nothing when there are no keys |
| ViewHelpers.BuildDiffSpans | src/view_helpers.py:202-220 | the span builder returns the specified spans |
| ViewHelpers.ConfigFields | src/view_helpers.py:253-273 | the field list holds at least the schema's fields and at most one more field per config key |
| ViewHelpers.SchemaByClass | src/view_helpers.py:247-250 | Multiply has the field `factor` (float, 1); IntSource has `start` and `count` (int, 1 and 5); other classes have no schema |
| ViewHelpers.SchemaFieldsAll | src/view_helpers.py:263-266 | schema fields come in schema order, each with the config's value or its default |
| ViewHelpers.ExtrasCover | src/view_helpers.py:269-271 | every config key ends up among the field names, and no name comes from anywhere else |
| ViewHelpers.ExtrasDistinct | src/view_helpers.py:269-271 | the extra keys never repeat a field name |
| ViewHelpers.ExtrasValues | src/view_helpers.py:269-271 | each extra field carries the config's value and `type()` of that value (None, bool, number, str, list or dict) |
| ViewHelpers.ExtrasOrder | src/view_helpers.py:269-271 | extra fields follow the config's key order |
| ViewHelpers.ConfigFieldsSchemaFirst | src/view_helpers.py:253-266 | the schema fields come first, with config values or defaults, and the names are distinct |
| ViewHelpers.ConfigFieldsExtras | src/view_helpers.py:253-273 | after the schema come the remaining config keys, in config order, each with its value and `type()` of it; every config key appears |
| ViewHelpers.GetConfigFields | src/view_helpers.py:253-273 | the loop returns the specified field list |
| Scenarios.NestedForEachWithInstance | tests/test_foreach_nested.py:10-21 | IntSource(1, 3) then a ForEach whose body holds an inner ForEach instance gives `[[10], [20], [30]]` |
| Scenarios.NestedForEachWithTupleSpec | tests/test_foreach_nested.py:24-33 | the same run with `(ForEachModule, {"body": [...]})` gives `[[10], [20], [30]]` |
| Scenarios.FilterEvenNumbers | tests/test_filter_module.py:9-13 | keeping `x % 2 == 0` over 1..5 gives `[2, 4]` |
| Scenarios.FilterByField | tests/test_filter_module.py:16-20 | filtering dicts on field `a` with `x >= 10` keeps only `{"a": 12}` |
| Scenarios.FilterAfterIntSource | tests/test_filter_module.py:23-29 | IntSource(1, 5) then keep `x > 2` gives `[3, 4, 5]` |
| Scenarios.FilterBadExprIsSafe | tests/test_filter_module.py:32-34 | an expression that can never be evaluated keeps nothing |
| Scenarios.TransformSquareList | tests/test_transform_module.py:9-11 | `x * x` over `[1, 2, 3]` gives `[1, 4, 9]` |
| Scenarios.TransformDictField | tests/test_transform_module.py:14-18 | `x.upper()` on field `name` rewrites only that field |
| Scenarios.TransformInForEach | tests/test_transform_module.py:21-29 | IntSource(1, 3) then ForEach over `(TransformModule, {"expr": "x * 10"})` gives `[10, 20, 30]` |
| Scenarios.TransformSafeEval | tests/test_transform_module.py:32-35 | an expression whose evaluation fails leaves `[1, 2]` unchanged |

## Left out

- Logging. Every `logger(...)` call is left out; it has no effect on results.
- Threads and coroutines. `asyncio.to_thread`, `await`, and the coroutine fallback in a ForEach step (src/modules/for_each.py:139-144) are left out. The model runs each `process` synchronously, which gives the same sequential results.
- The sandboxed `eval`, `str()` of a payload and the `repr` of a module object are parameters of the model (`Base.Host`), not modelled.
- Numbers. Python's `int` and `float` are both `Num(real)`, so `1` and `1.0` are one value, as Python's `==` treats them, and `type()` of either is one number type (`ViewHelpers.TypeOf`). Float rounding, overflow and NaN are not modelled.
- Parsing. `int("…")` accepts an optional sign and decimal digits only. `float("…")` accepts an optional sign, digits and one decimal point. Python's other spellings are not modelled: surrounding whitespace, underscores, exponents, `inf` and `nan`.
- Dict keys. Payload and config dicts have string keys. Where Python would store a non-string key, the model reports `UnrepresentableKey` instead: Transform with a number or boolean `field` on a dict item.
- Constructor argument types. Keyword arguments whose values contradict the constructors' type hints are modelled as a failed construction, for example a non-dict `config` or a non-list `body`. Python would store such values.
- `(BaseModule, cfg)` with no `name` key is modelled as a failed resolution. Python builds `BaseModule(cfg)` with the dict as its name. The step is skipped either way, since `BaseModule.process` raises; only the preview name differs.
- A `(cls, cfg)` body spec whose `cfg` is not a dict cannot be written: `Base.Spec.ClassConfig` holds a config dict. With a truthy non-dict `cfg`, the source calls `cls(config=cfg)` (src/modules/for_each.py:81-82) and stores that value as the config.
- Identity and aliasing. Modules are compared as values and rebuilt per step. The model does not show an instance in a body being shared with the stage it came from.
- The `except` fallbacks that set `last_input` and `propagated_output` to None (src/modules/pipeline.py:29-30, 46-47) are left out. Assigning a field cannot fail in the model.
- The `on_module_output` callback is an output sequence of `(stage, output)` pairs, in stage order. Its side effects and the exceptions it raises are left out; the source catches and logs them.
- The `"running"` preview status is left out. It can only be seen while a step is in progress; the model states the preview after each call.
- `get_input_data`, `get_propagated_data`, `safe_json_serialize` and `safe_update` (src/view_helpers.py:57-72, 140-180) are left out. They read widget state or produce JSON text for display.
- The view id. The model keys a view by a fixed `key` string, where the source uses `str(id(view))`.
- The module registry is a constant, where the source fills it lazily on first use. The tests in src/views.py and src/view_handlers.py that drag views between ForEach bodies (tests/test_foreach_nested.py:36-97) exercise the UI and are not part of this model.
- ViewHelpers.InstantiateModule: `_instantiate_module` is modelled for dict configs only. Its branches for a constructor without a `config` parameter (src/view_helpers.py:127-137) cannot occur with the module classes here.
- ViewHelpers.ExtractVersusResolve: compares the two instantiation paths only for instances, classes and `(cls, cfg)` specs without a `self` key. With a `self` key they differ: ForEach's keyword call fails on the duplicate `self` and falls back to `config=cfg`, while the view's call leaves `self` out. A factory is not called for display; the source returns None for it.
- Stages.Stage.constructor: requires a name for `BaseModule` and no body for other classes. The failing calls are modelled, with their TypeError, by `Base.New`.
- Pipelines.Pipeline.Run: requires the stage objects in the list to be distinct. The source allows the same object twice; its diagnostic fields would then show only the later occurrence's values.
- Failed body steps. A failed body step is silently kept as the previous value. A spec that cannot be built is not an error either. `_instantiate_step`'s exception is caught (src/modules/for_each.py:114-118) and the raw spec's missing `process` is swallowed (src/modules/for_each.py:127-144). So a ForEach `process` never raises because of a body step, in the source and in the model (`ForEach.Exec`, `ForEach.SkippedStep`).
