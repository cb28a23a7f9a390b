/** `FilterModule`: keeps or drops the items of a list according to a
    boolean expression evaluated with `x` bound to the item, or to one
    field of it when the item is a dict. */
module Filter {
  import opened Values
  import opened Base

  /** `config.get("expr") or ""`. */
  function ExprOf(config: Config): Arg {
    var e := Lookup(config, "expr", AVal(Null));
    if ArgTruthy(e) then e else AVal(Str(""))
  }

  /** `config.get("mode") or "keep"`. */
  function ModeOf(config: Config): Arg {
    var m := Lookup(config, "mode", AVal(Null));
    if ArgTruthy(m) then m else AVal(Str("keep"))
  }

  /** `config.get("field")`. */
  function FieldOf(config: Config): Arg {
    Lookup(config, "field", AVal(Null))
  }

  /** `_eval_pred`: an empty expression is true; otherwise the truthiness of
      the evaluated result, and false when evaluation raises (including
      `eval` of something that is not a string). */
  function Pred(h: Host, expr: Arg, x: Value): (keep: bool)
    ensures !ArgTruthy(expr) ==> keep
    ensures ArgTruthy(expr) && !(expr.AVal? && expr.v.Str?) ==> !keep
    ensures ArgTruthy(expr) && expr.AVal? && expr.v.Str? ==>
      (keep <==> h.eval(expr.v.s, x).Some? && Truthy(h.eval(expr.v.s, x).value))
  {
    if !ArgTruthy(expr) then true
    else match expr
      case AVal(Str(s)) =>
        (match h.eval(s, x)
         case Some(v) => Truthy(v)
         case None => false)
      case _ => false
  }

  /** A field that `dict.get` accepts: absent, falsy, or a string, number or
      boolean (lists and dicts are unhashable). */
  predicate Hashable(field: Arg) {
    !ArgTruthy(field) || (field.AVal? && (field.v.Str? || field.v.Num? || field.v.Bool?))
  }

  /** The value the predicate sees: `item.get(field)` for a dict item when
      `field` is set (absent keys give None; a number or boolean is never a
      key of a string-keyed dict), the whole item otherwise. */
  function Projection(field: Arg, item: Value): (r: Result<Value>)
    ensures r.Err? <==> ArgTruthy(field) && item.Dict? && !Hashable(field)
    ensures r.Err? ==> r.error == TypeError
    ensures !(ArgTruthy(field) && item.Dict?) ==> r == Ok(item)
    ensures ArgTruthy(field) && item.Dict? && field.AVal? && field.v.Str? ==>
      r == Ok(Get(item.entries, field.v.s).GetOr(Null))
  {
    if ArgTruthy(field) && item.Dict? then
      match field
      case AVal(Str(k)) => Ok(Get(item.entries, k).GetOr(Null))
      case AVal(Num(_)) => Ok(Null)
      case AVal(Bool(_)) => Ok(Null)
      case _ => Err(TypeError)
    else Ok(item)
  }

  /** Whether one item goes to the output. */
  function Keeps(h: Host, expr: Arg, mode: Arg, field: Arg, item: Value): (r: Result<bool>)
    ensures r.Err? <==> Projection(field, item).Err?
    ensures r.Ok? ==> var keep := Pred(h, expr, Projection(field, item).value);
      r.value == ((mode == AVal(Str("keep")) && keep) || (mode == AVal(Str("drop")) && !keep))
  {
    var p := Projection(field, item);
    if p.Err? then Err(p.error)
    else
      var keep := Pred(h, expr, p.value);
      Ok((mode == AVal(Str("keep")) && keep) || (mode == AVal(Str("drop")) && !keep))
  }

  /** The output for a list of items; the first failing item (left to right)
      raises. Stated from the back so that it follows the loop in
      `FilterModule.process`. */
  function Select(h: Host, expr: Arg, mode: Arg, field: Arg, items: seq<Value>): (r: Result<seq<Value>>)
    ensures r.Ok? ==> |r.value| <= |items|
    ensures r.Ok? ==> forall i :: 0 <= i < |r.value| ==> Keeps(h, expr, mode, field, r.value[i]) == Ok(true)
  {
    if items == [] then Ok([])
    else
      var prefix := Select(h, expr, mode, field, items[..|items| - 1]);
      if prefix.Err? then prefix
      else
        var k := Keeps(h, expr, mode, field, items[|items| - 1]);
        if k.Err? then Err(k.error)
        else if k.value then Ok(prefix.value + [items[|items| - 1]])
        else prefix
  }

  /** `list(input)` for a payload that is not a list: the characters of a
      string, the keys of a dict, or `[input]` when it is not iterable. */
  function Items(input: Value): (items: seq<Value>)
    requires !input.Null?
    ensures input.List? ==> items == input.items
    ensures input.Num? || input.Bool? ==> items == [input]
    ensures input.Str? ==> items == Chars(input.s)
    ensures input.Dict? ==> items == KeyStrings(input.entries)
  {
    match input
    case List(xs) => xs
    case Str(s) => Chars(s)
    case Dict(es) => KeyStrings(es)
    case _ => [input]
  }

  /** Iterating a string: its characters, each a one-character string. */
  function Chars(s: string): (r: seq<Value>)
    ensures |r| == |s| && forall i :: 0 <= i < |s| ==> r[i] == Str([s[i]])
  {
    if s == [] then [] else [Str([s[0]])] + Chars(s[1..])
  }

  /** Iterating a dict: its keys in insertion order. */
  function KeyStrings(es: seq<(string, Value)>): (r: seq<Value>)
    ensures |r| == |es| && forall i :: 0 <= i < |es| ==> r[i] == Str(es[i].0)
  {
    if es == [] then [] else [Str(es[0].0)] + KeyStrings(es[1..])
  }

  /** `FilterModule.process` as a function of the config and the payload. */
  function Process(h: Host, config: Config, input: Value): (r: Result<Value>)
    ensures input.Null? ==> r == Ok(List([]))
    ensures r.Ok? ==> r.value.List?
  {
    if input.Null? then Ok(List([]))
    else
      var s := Select(h, ExprOf(config), ModeOf(config), FieldOf(config), Items(input));
      if s.Err? then Err(s.error) else Ok(List(s.value))
  }

  /** `FilterModule.process`. */
  method RunFilter(h: Host, config: Config, input: Value) returns (r: Result<Value>)
    ensures r == Process(h, config, input)
  {
    if input.Null? {
      return Ok(List([]));
    }
    var out := SelectLoop(h, ExprOf(config), ModeOf(config), FieldOf(config), Items(input));
    r := if out.Err? then Err(out.error) else Ok(List(out.value));
  }

  /** The loop of `FilterModule.process` that appends kept items to `out`. */
  method SelectLoop(h: Host, expr: Arg, mode: Arg, field: Arg, items: seq<Value>) returns (r: Result<seq<Value>>)
    ensures r == Select(h, expr, mode, field, items)
  {
    var out: seq<Value> := [];
    var i := 0;
    while i < |items|
      invariant 0 <= i <= |items|
      invariant Select(h, expr, mode, field, items[..i]) == Ok(out)
    {
      var keep := Keeps(h, expr, mode, field, items[i]);
      assert items[..i + 1] == items[..i] + [items[i]];
      SelectSnoc(h, expr, mode, field, items[..i], items[i]);
      if keep.Err? {
        SelectErrorPropagates(h, expr, mode, field, items, i + 1);
        return Err(keep.error);
      }
      if keep.value {
        out := out + [items[i]];
      }
      i := i + 1;
    }
    assert items[..i] == items;
    return Ok(out);
  }

  /** One more item at the end: the step the loop takes. */
  lemma SelectSnoc(h: Host, expr: Arg, mode: Arg, field: Arg, items: seq<Value>, x: Value)
    ensures Select(h, expr, mode, field, items + [x]) ==
      (var p := Select(h, expr, mode, field, items);
       if p.Err? then p else
       var k := Keeps(h, expr, mode, field, x);
       if k.Err? then Err(k.error) else if k.value then Ok(p.value + [x]) else p)
  {
    var s := items + [x];
    assert s[..|s| - 1] == items;
    assert s[|s| - 1] == x;
  }

  /** Once a prefix fails, the whole run fails with the same error. */
  lemma {:induction false} SelectErrorPropagates(h: Host, expr: Arg, mode: Arg, field: Arg, items: seq<Value>, n: nat)
    requires n <= |items| && Select(h, expr, mode, field, items[..n]).Err?
    ensures Select(h, expr, mode, field, items) == Select(h, expr, mode, field, items[..n])
    decreases |items| - n
  {
    if n == |items| {
      assert items[..n] == items;
    } else {
      assert items[..n + 1][..n] == items[..n];
      SelectErrorPropagates(h, expr, mode, field, items, n + 1);
    }
  }

  // Properties.

  /** `a` is `b` with some elements left out, the rest in their order. */
  predicate SubseqOf(a: seq<Value>, b: seq<Value>)
    decreases |b|
  {
    if a == [] then true
    else if b == [] then false
    else (a[|a| - 1] == b[|b| - 1] && SubseqOf(a[..|a| - 1], b[..|b| - 1]))
         || SubseqOf(a, b[..|b| - 1])
  }

  /** The output is a subsequence of the input: original items (never the
      projected field values), in their original order. */
  lemma {:induction false} SelectIsSubsequence(h: Host, expr: Arg, mode: Arg, field: Arg, items: seq<Value>)
    requires Select(h, expr, mode, field, items).Ok?
    ensures SubseqOf(Select(h, expr, mode, field, items).value, items)
  {
    if items != [] {
      var init := items[..|items| - 1];
      SelectIsSubsequence(h, expr, mode, field, init);
      var out := Select(h, expr, mode, field, items).value;
      var pre := Select(h, expr, mode, field, init).value;
      if out == pre {
        if out != [] {
          SubseqOfExtend(out, init, items[|items| - 1]);
        }
      } else {
        assert out[..|out| - 1] == pre;
      }
    }
  }

  lemma {:induction false} SubseqOfExtend(a: seq<Value>, b: seq<Value>, x: Value)
    requires SubseqOf(a, b)
    ensures SubseqOf(a, b + [x])
  {
    assert (b + [x])[..|b|] == b;
  }

  /** Errors come only from an unhashable `field` meeting a dict item, so a
      run fails exactly when some item is a dict and the field is a list or
      dict; the mode and the expression play no part. */
  lemma {:induction false} SelectFailsExactly(h: Host, expr: Arg, mode: Arg, field: Arg, items: seq<Value>)
    ensures Select(h, expr, mode, field, items).Err? <==>
      ArgTruthy(field) && !Hashable(field) && exists i :: 0 <= i < |items| && items[i].Dict?
    ensures Select(h, expr, mode, field, items).Err? ==> Select(h, expr, mode, field, items).error == TypeError
  {
    if items != [] {
      var init := items[..|items| - 1];
      SelectFailsExactly(h, expr, mode, field, init);
      if exists i :: 0 <= i < |init| && init[i].Dict? {
        var i :| 0 <= i < |init| && init[i].Dict?;
        assert items[i].Dict?;
      }
      if exists i :: 0 <= i < |items| && items[i].Dict? {
        var i :| 0 <= i < |items| && items[i].Dict?;
        if i < |init| { assert init[i].Dict?; }
      }
    }
  }

  /** Under one expression and field, "keep" and "drop" split the input:
      both succeed or both fail, and together they hold every item exactly
      as often as the input does. */
  lemma {:induction false} KeepAndDropPartition(h: Host, expr: Arg, field: Arg, items: seq<Value>)
    ensures Select(h, expr, AVal(Str("keep")), field, items).Ok? <==>
            Select(h, expr, AVal(Str("drop")), field, items).Ok?
    ensures Select(h, expr, AVal(Str("keep")), field, items).Ok? ==>
      var kept := Select(h, expr, AVal(Str("keep")), field, items).value;
      var dropped := Select(h, expr, AVal(Str("drop")), field, items).value;
      |kept| + |dropped| == |items| && multiset(kept) + multiset(dropped) == multiset(items)
  {
    if items != [] {
      var keep, drop := AVal(Str("keep")), AVal(Str("drop"));
      var init, last := items[..|items| - 1], items[|items| - 1];
      KeepAndDropPartition(h, expr, field, init);
      assert items == init + [last];
      var pk, pd := Select(h, expr, keep, field, init), Select(h, expr, drop, field, init);
      var kk, kd := Keeps(h, expr, keep, field, last), Keeps(h, expr, drop, field, last);
      if pk.Ok? && kk.Ok? {
        assert kd.Ok? && kd.value == !kk.value;
        SplitSnoc(pk.value, pd.value, init, last);
        if kk.value {
          assert Select(h, expr, keep, field, items) == Ok(pk.value + [last]);
          assert Select(h, expr, drop, field, items) == pd;
        } else {
          assert Select(h, expr, keep, field, items) == pk;
          assert Select(h, expr, drop, field, items) == Ok(pd.value + [last]);
        }
      }
    }
  }

  /** A split of `init` into two parts gives a split of `init + [x]`
      whichever part `x` joins. */
  lemma SplitSnoc<T>(a: seq<T>, b: seq<T>, init: seq<T>, x: T)
    requires |a| + |b| == |init| && multiset(a) + multiset(b) == multiset(init)
    ensures |a + [x]| + |b| == |init + [x]| && multiset(a + [x]) + multiset(b) == multiset(init + [x])
    ensures |a| + |b + [x]| == |init + [x]| && multiset(a) + multiset(b + [x]) == multiset(init + [x])
  {
  }

  /** A mode other than "keep" or "drop" lets nothing through. */
  lemma {:induction false} UnknownModeKeepsNothing(h: Host, expr: Arg, mode: Arg, field: Arg, items: seq<Value>)
    requires mode != AVal(Str("keep")) && mode != AVal(Str("drop"))
    requires Select(h, expr, mode, field, items).Ok?
    ensures Select(h, expr, mode, field, items).value == []
  {
    if items != [] {
      UnknownModeKeepsNothing(h, expr, mode, field, items[..|items| - 1]);
    }
  }

  /** With an empty or missing expression every item passes the predicate:
      "keep" returns the whole input and "drop" returns nothing. */
  lemma {:induction false} EmptyExprKeepsAll(h: Host, expr: Arg, field: Arg, items: seq<Value>)
    requires !ArgTruthy(expr) && Hashable(field)
    ensures Select(h, expr, AVal(Str("keep")), field, items) == Ok(items)
    ensures Select(h, expr, AVal(Str("drop")), field, items) == Ok([])
  {
    if items != [] {
      var last := items[|items| - 1];
      EmptyExprKeepsAll(h, expr, field, items[..|items| - 1]);
      assert Keeps(h, expr, AVal(Str("keep")), field, last) == Ok(true);
      assert Keeps(h, expr, AVal(Str("drop")), field, last) == Ok(false);
      assert items[..|items| - 1] + [last] == items;
      SelectSnoc(h, expr, AVal(Str("keep")), field, items[..|items| - 1], last);
      SelectSnoc(h, expr, AVal(Str("drop")), field, items[..|items| - 1], last);
    }
  }

  /** An expression that fails to evaluate on every value makes the
      predicate false, so "keep" returns the empty list. */
  lemma {:induction false} FailingExprKeepsNothing(h: Host, s: string, field: Arg, items: seq<Value>)
    requires s != "" && Hashable(field)
    requires forall v :: h.eval(s, v).None?
    ensures Select(h, AVal(Str(s)), AVal(Str("keep")), field, items) == Ok([])
  {
    if items != [] {
      var last := items[|items| - 1];
      FailingExprKeepsNothing(h, s, field, items[..|items| - 1]);
      var p := Projection(field, last);
      assert h.eval(s, p.value).None?;
      assert Keeps(h, AVal(Str(s)), AVal(Str("keep")), field, last) == Ok(false);
      assert items[..|items| - 1] + [last] == items;
      SelectSnoc(h, AVal(Str(s)), AVal(Str("keep")), field, items[..|items| - 1], last);
    }
  }

  /** The mode defaults to "keep" when missing or empty. */
  lemma DefaultModeIsKeep(config: Config)
    requires !HasKey(config, "mode") || !ArgTruthy(Get(config, "mode").value)
    ensures ModeOf(config) == AVal(Str("keep"))
  {
  }
}
