/** JSON-like payloads, the errors the modules raise, and the parts of
    Python's value semantics (truthiness, `dict.get`, item assignment,
    `==`) that the modules rely on. */
module Values {

  datatype Option<+T> = None | Some(value: T) {
    function GetOr(default: T): T {
      match this
      case Some(v) => v
      case None => default
    }
  }

  /** The exception classes the core raises or catches. */
  datatype Error =
    | TypeError           // wrong argument type, unhashable key, missing constructor argument
    | ValueError          // `int("abc")`, `float("x")`
    | NotImplementedError // the abstract `BaseModule.process`
    | IndexError          // `body[idx]` past the end of the body
    | UnrepresentableKey  // a dictionary key that is not a string (see README)

  datatype Result<+T> = Ok(value: T) | Err(error: Error)

  /** A payload: null, boolean, number, string, ordered list, or a
      string-keyed mapping kept as an association list in insertion order. */
  datatype Value =
    | Null
    | Bool(b: bool)
    | Num(r: real)
    | Str(s: string)
    | List(items: seq<Value>)
    | Dict(entries: seq<(string, Value)>)

  /** The zero or empty value of `v`'s own kind. */
  function Zero(v: Value): Value {
    match v
    case Null => Null
    case Bool(_) => Bool(false)
    case Num(_) => Num(0.0)
    case Str(_) => Str("")
    case List(_) => List([])
    case Dict(_) => Dict([])
  }

  /** Python's `bool(v)`: false exactly for None and for the zero or empty
      value of each kind. */
  predicate Truthy(v: Value)
    ensures Truthy(v) <==> v != Zero(v)
  {
    match v
    case Null => false
    case Bool(b) => b
    case Num(r) => r != 0.0
    case Str(s) => s != ""
    case List(xs) => xs != []
    case Dict(es) => es != []
  }

  function Keys<V>(es: seq<(string, V)>): (ks: seq<string>)
    ensures |ks| == |es|
    ensures forall i :: 0 <= i < |es| ==> ks[i] == es[i].0
  {
    if es == [] then [] else [es[0].0] + Keys(es[1..])
  }

  /** A Python dict never holds a key twice. */
  predicate UniqueKeys<V>(es: seq<(string, V)>) {
    forall i, j :: 0 <= i < j < |es| ==> es[i].0 != es[j].0
  }

  predicate HasKey<V>(es: seq<(string, V)>, k: string) {
    exists i :: 0 <= i < |es| && es[i].0 == k
  }

  lemma HasKeyCons<V>(e: (string, V), es: seq<(string, V)>, k: string)
    ensures HasKey([e] + es, k) <==> e.0 == k || HasKey(es, k)
  {
    var s := [e] + es;
    if HasKey(s, k) && e.0 != k {
      var i :| 0 <= i < |s| && s[i].0 == k;
      assert es[i - 1].0 == k;
    }
    if HasKey(es, k) {
      var i :| 0 <= i < |es| && es[i].0 == k;
      assert s[i + 1].0 == k;
    }
    if e.0 == k {
      assert s[0].0 == k;
    }
  }

  /** `d.get(k)`: the value stored under `k`, if any. */
  function Get<V>(es: seq<(string, V)>, k: string): (r: Option<V>)
    ensures r.Some? <==> HasKey(es, k)
  {
    if es == [] then None
    else if es[0].0 == k then Some(es[0].1)
    else
      assert forall i :: 1 <= i < |es| ==> es[i] == es[1..][i - 1];
      Get(es[1..], k)
  }

  /** In a dict, whose keys are unique, `d.get(k)` is the value stored next
      to `k`. */
  lemma {:induction false} GetUnique<V>(es: seq<(string, V)>, k: string, i: int)
    requires UniqueKeys(es) && 0 <= i < |es| && es[i].0 == k
    ensures Get(es, k) == Some(es[i].1)
  {
    if i > 0 {
      assert es[0].0 != k;
      GetUnique(es[1..], k, i - 1);
    }
  }

  lemma KeysCons<V>(e: (string, V), es: seq<(string, V)>)
    ensures Keys([e] + es) == [e.0] + Keys(es)
  {
    assert ([e] + es)[1..] == es;
  }

  lemma GetCons<V>(e: (string, V), es: seq<(string, V)>, k: string)
    ensures Get([e] + es, k) == if e.0 == k then Some(e.1) else Get(es, k)
  {
    assert ([e] + es)[1..] == es;
  }

  /** `d[k] = v`: overwrite in place when `k` is present, append otherwise. */
  function Set<V>(es: seq<(string, V)>, k: string, v: V): (r: seq<(string, V)>)
    ensures Keys(r) == if HasKey(es, k) then Keys(es) else Keys(es) + [k]
    ensures Get(r, k) == Some(v)
    ensures forall k' :: k' != k ==> Get(r, k') == Get(es, k')
  {
    if es == [] then [(k, v)]
    else
      var e, rest := es[0], es[1..];
      assert es == [e] + rest;
      KeysCons(e, rest);
      HasKeyCons(e, rest, k);
      if e.0 == k then
        KeysCons((k, v), rest);
        GetCons((k, v), rest, k);
        ReplaceHead(e, (k, v), rest, k);
        [(k, v)] + rest
      else
        var t := Set(rest, k, v);
        KeysCons(e, t);
        GetCons(e, t, k);
        SameTail(e, rest, t, k);
        assert Keys([e] + t) == if HasKey(rest, k) then Keys(es) else Keys(es) + [k] by {
          if !HasKey(rest, k) {
            ConsSnoc(e.0, Keys(rest), k);
          }
        }
        [e] + t
  }

  /** Replacing the first entry, under the same key, changes no other key. */
  lemma ReplaceHead<V>(e: (string, V), e': (string, V), rest: seq<(string, V)>, k: string)
    requires e.0 == k && e'.0 == k
    ensures forall k' :: k' != k ==> Get([e'] + rest, k') == Get([e] + rest, k')
  {
    forall k' | k' != k
      ensures Get([e'] + rest, k') == Get([e] + rest, k')
    {
      GetCons(e', rest, k');
      GetCons(e, rest, k');
    }
  }

  /** Tails that agree off `k` still agree behind the same first entry. */
  lemma SameTail<V>(e: (string, V), rest: seq<(string, V)>, t: seq<(string, V)>, k: string)
    requires forall k' :: k' != k ==> Get(t, k') == Get(rest, k')
    ensures forall k' :: k' != k ==> Get([e] + t, k') == Get([e] + rest, k')
  {
    forall k' | k' != k
      ensures Get([e] + t, k') == Get([e] + rest, k')
    {
      GetCons(e, t, k');
      GetCons(e, rest, k');
    }
  }

  lemma ConsSnoc<T>(a: T, b: seq<T>, c: T)
    ensures [a] + (b + [c]) == ([a] + b) + [c]
  {
  }

  /** Assigning a key the dict lacks appends one entry at the end. */
  lemma {:induction false} SetAbsentAppends<V>(es: seq<(string, V)>, k: string, v: V)
    requires !HasKey(es, k)
    ensures Set(es, k, v) == es + [(k, v)]
  {
    if es != [] {
      var e, rest := es[0], es[1..];
      assert es == [e] + rest;
      HasKeyCons(e, rest, k);
      SetAbsentAppends(rest, k, v);
      ConsSnoc(e, rest, (k, v));
    }
  }

  /** Python's `a == b` on payloads: booleans compare as the numbers 0 and 1,
      lists elementwise, dicts by their keys and values regardless of
      insertion order (a dict's keys are unique, so equal sizes and one-way
      inclusion give equal key sets). */
  predicate PyEq(a: Value, b: Value)
    decreases a
    ensures PyEq(a, b) ==> (Truthy(a) <==> Truthy(b))
  {
    if IsNumber(a) && IsNumber(b) then NumberOf(a) == NumberOf(b)
    else
      match a
      case Null => b.Null?
      case Str(s) => b.Str? && s == b.s
      case List(xs) =>
        b.List? && |xs| == |b.items| && forall i :: 0 <= i < |xs| ==> PyEq(xs[i], b.items[i])
      case Dict(es) =>
        b.Dict? && |es| == |b.entries| &&
        forall i :: 0 <= i < |es| ==>
          var w := Get(b.entries, es[i].0); w.Some? && PyEq(es[i].1, w.value)
      case _ => false
  }

  predicate IsNumber(v: Value) {
    v.Num? || v.Bool?
  }

  function NumberOf(v: Value): real
    requires IsNumber(v)
  {
    match v
    case Num(r) => r
    case Bool(b) => if b then 1.0 else 0.0
  }
}
