/** `TransformModule`: maps an expression over a list (or applies it to a
    single payload), optionally rewriting only one field of dict items. */
module Transform {
  import opened Values
  import opened Base

  /** `config.get("expr", "")`. */
  function ExprOf(config: Config): Arg {
    Lookup(config, "expr", AVal(Str("")))
  }

  /** `config.get("field")`. */
  function FieldOf(config: Config): Arg {
    Lookup(config, "field", AVal(Null))
  }

  /** `_eval`: an empty or missing expression is the identity; an
      evaluation error (including `eval` of a non-string) returns the
      original value. */
  function Eval(h: Host, expr: Arg, x: Value): (r: Value)
    ensures !ArgTruthy(expr) ==> r == x
    ensures !(expr.AVal? && expr.v.Str?) ==> r == x
    ensures ArgTruthy(expr) && expr.AVal? && expr.v.Str? ==> r == h.eval(expr.v.s, x).GetOr(x)
  {
    if !ArgTruthy(expr) then x
    else match expr
      case AVal(Str(s)) => h.eval(s, x).GetOr(x)
      case _ => x
  }

  /** `_apply_one`: with `field` set and a dict item, a copy of the dict
      whose `field` entry (added at the end if absent) holds the evaluated
      old value; otherwise the evaluated item. `dict.get` rejects a list or
      dict as key, and a number or boolean key could not be stored in a
      string-keyed dict. */
  function ApplyOne(h: Host, expr: Arg, field: Arg, item: Value): (r: Result<Value>)
    ensures !(ArgTruthy(field) && item.Dict?) ==> r == Ok(Eval(h, expr, item))
    ensures ArgTruthy(field) && item.Dict? && field.AVal? && field.v.Str? ==>
      r == Ok(Dict(Set(item.entries, field.v.s, Eval(h, expr, Get(item.entries, field.v.s).GetOr(Null)))))
    ensures r.Err? <==> ArgTruthy(field) && item.Dict? && !(field.AVal? && field.v.Str?)
  {
    if ArgTruthy(field) && item.Dict? then
      match field
      case AVal(Str(k)) =>
        var es := item.entries;
        Ok(Dict(Set(es, k, Eval(h, expr, Get(es, k).GetOr(Null)))))
      case AVal(Num(_)) => Err(UnrepresentableKey)
      case AVal(Bool(_)) => Err(UnrepresentableKey)
      case _ => Err(TypeError)
    else Ok(Eval(h, expr, item))
  }

  /** Rewriting one field of a dict item: the field holds the evaluated old
      value (None when absent), every other key keeps its value, and the key
      order is the old one, with the field appended when it was missing. */
  lemma FieldUpdate(h: Host, expr: Arg, k: string, es: seq<(string, Value)>)
    requires k != ""
    ensures var r := ApplyOne(h, expr, AVal(Str(k)), Dict(es));
      && r.Ok? && r.value.Dict?
      && Get(r.value.entries, k) == Some(Eval(h, expr, Get(es, k).GetOr(Null)))
      && (forall k' :: k' != k ==> Get(r.value.entries, k') == Get(es, k'))
      && Keys(r.value.entries) == if HasKey(es, k) then Keys(es) else Keys(es) + [k]
  {
  }

  /** `[_apply_one(i) for i in input]`: the first failing item raises. */
  function ApplyAll(h: Host, expr: Arg, field: Arg, items: seq<Value>): (r: Result<seq<Value>>)
    ensures r.Ok? <==> forall i :: 0 <= i < |items| ==> ApplyOne(h, expr, field, items[i]).Ok?
    ensures r.Ok? ==> |r.value| == |items|
    ensures r.Ok? ==> forall i :: 0 <= i < |items| ==> r.value[i] == ApplyOne(h, expr, field, items[i]).value
  {
    if items == [] then Ok([])
    else
      var first := ApplyOne(h, expr, field, items[0]);
      if first.Err? then Err(first.error)
      else
        var rest := ApplyAll(h, expr, field, items[1..]);
        assert forall i :: 1 <= i < |items| ==> items[i] == items[1..][i - 1];
        if rest.Err? then Err(rest.error) else Ok([first.value] + rest.value)
  }

  /** `TransformModule.process`: None gives `[]`, a list is mapped element by
      element into a list of the same length and order, and any other
      payload is transformed on its own, without being wrapped in a list. */
  function Process(h: Host, config: Config, input: Value): (r: Result<Value>)
    ensures input.Null? ==> r == Ok(List([]))
    ensures input.List? ==> (r.Ok? <==> ApplyAll(h, ExprOf(config), FieldOf(config), input.items).Ok?)
    ensures input.List? && r.Ok? ==> r.value.List? && |r.value.items| == |input.items|
    ensures input.List? && r.Ok? ==> forall i :: 0 <= i < |input.items| ==>
      r.value.items[i] == ApplyOne(h, ExprOf(config), FieldOf(config), input.items[i]).value
    ensures !input.Null? && !input.List? ==> r == ApplyOne(h, ExprOf(config), FieldOf(config), input)
  {
    var expr, field := ExprOf(config), FieldOf(config);
    match input
    case Null => Ok(List([]))
    case List(xs) =>
      var out := ApplyAll(h, expr, field, xs);
      if out.Err? then Err(out.error) else Ok(List(out.value))
    case _ => ApplyOne(h, expr, field, input)
  }

  /** With no expression and no field, a list payload comes back as it was. */
  lemma {:induction false} EmptyExprIsIdentity(h: Host, config: Config, xs: seq<Value>)
    requires !ArgTruthy(ExprOf(config)) && !ArgTruthy(FieldOf(config))
    ensures Process(h, config, List(xs)) == Ok(List(xs))
  {
    var r := Process(h, config, List(xs)).value.items;
    assert r == xs;
  }

  /** An expression that always fails leaves every item as it was (the
      `__import__` test). */
  lemma {:induction false} FailingExprIsIdentity(h: Host, s: string, xs: seq<Value>)
    requires s != "" && forall v :: h.eval(s, v).None?
    ensures Process(h, [("expr", AVal(Str(s)))], List(xs)) == Ok(List(xs))
  {
    var config := [("expr", AVal(Str(s)))];
    assert ExprOf(config) == AVal(Str(s));
    assert FieldOf(config) == AVal(Null);
    var r := Process(h, config, List(xs)).value.items;
    assert r == xs;
  }

  /** With an empty expression a dict item that already has the field keeps
      its keys in their order. */
  lemma EmptyExprKeepsKeys(h: Host, expr: Arg, k: string, es: seq<(string, Value)>)
    requires !ArgTruthy(expr) && k != "" && HasKey(es, k)
    ensures ApplyOne(h, expr, AVal(Str(k)), Dict(es)) == Ok(Dict(Set(es, k, Get(es, k).value)))
    ensures Keys(ApplyOne(h, expr, AVal(Str(k)), Dict(es)).value.entries) == Keys(es)
  {
    var v := Get(es, k).value;
    assert Eval(h, expr, Get(es, k).GetOr(Null)) == v;
  }

  /** With an empty expression a dict item that lacks the field gains it,
      set to None, at the end. */
  lemma EmptyExprAddsField(h: Host, expr: Arg, k: string, es: seq<(string, Value)>)
    requires !ArgTruthy(expr) && k != "" && !HasKey(es, k)
    ensures ApplyOne(h, expr, AVal(Str(k)), Dict(es)) == Ok(Dict(es + [(k, Null)]))
  {
    assert ArgTruthy(AVal(Str(k)));
    assert Get(es, k) == None;
    assert Eval(h, expr, Null) == Null;
    assert ApplyOne(h, expr, AVal(Str(k)), Dict(es)) == Ok(Dict(Set(es, k, Null)));
    SetAbsentAppends(es, k, Null);
  }
}
