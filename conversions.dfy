/** Python's `int(v)` and `float(v)` on a configuration value, which is how
    IntSource reads `start`/`count` and Multiply reads `factor`. */
module Conversions {
  import opened Values
  import opened Base

  predicate IsDigit(c: char) {
    '0' <= c <= '9'
  }

  predicate AllDigits(s: string) {
    forall i :: 0 <= i < |s| ==> IsDigit(s[i])
  }

  /** The number a string of decimal digits denotes. */
  function DigitsValue(s: string): (n: nat)
    requires AllDigits(s)
    ensures s == [] ==> n == 0
  {
    if s == [] then 0
    else DigitsValue(s[..|s| - 1]) * 10 + (s[|s| - 1] as int - '0' as int)
  }

  function Pow10(n: nat): (p: nat)
    ensures p >= 1
  {
    if n == 0 then 1 else 10 * Pow10(n - 1)
  }

  /** Splits an optional leading sign off: (negative?, rest). */
  function Sign(s: string): (bool, string) {
    if s != [] && (s[0] == '-' || s[0] == '+') then (s[0] == '-', s[1..]) else (false, s)
  }

  /** `int(s)` for a string: an optional sign and at least one digit. */
  function ParseInt(s: string): (r: Option<int>)
    ensures r.Some? <==> Sign(s).1 != [] && AllDigits(Sign(s).1)
  {
    var (neg, ds) := Sign(s);
    if ds == [] || !AllDigits(ds) then None
    else
      var n: int := DigitsValue(ds);
      Some(if neg then -n else n)
  }

  /** `float(s)` for a string: an optional sign, digits, an optional point
      and more digits, with at least one digit in all. */
  function ParseFloat(s: string): (r: Option<real>)
  {
    var (neg, body) := Sign(s);
    var point := PointAt(body);
    var whole := body[..point];
    var frac := if point < |body| then body[point + 1..] else [];
    if !AllDigits(whole) || !AllDigits(frac) || whole + frac == [] then None
    else
      var x := DigitsValue(whole) as real + DigitsValue(frac) as real / Pow10(|frac|) as real;
      Some(if neg then -x else x)
  }

  /** The index of the first '.', or the length when there is none. */
  function PointAt(s: string): (k: nat)
    ensures k <= |s|
    ensures k < |s| ==> s[k] == '.'
    ensures forall i :: 0 <= i < k ==> s[i] != '.'
  {
    if s == [] then 0
    else if s[0] == '.' then 0
    else 1 + PointAt(s[1..])
  }

  /** `int(r)` on a float truncates toward zero. */
  function Truncate(r: real): (t: int)
    ensures 0.0 <= r ==> t as real <= r < t as real + 1.0
    ensures r < 0.0 ==> t as real - 1.0 < r <= t as real
  {
    if r >= 0.0 then r.Floor else -((-r).Floor)
  }

  /** `int(v)`. */
  function IntOf(a: Arg): (r: Result<int>)
    ensures a.AVal? && a.v.Num? ==> r == Ok(Truncate(a.v.r))
    ensures a.AVal? && a.v.Bool? ==> r == Ok(if a.v.b then 1 else 0)
    ensures a.AVal? && a.v.Str? ==> (r.Ok? <==> ParseInt(a.v.s).Some?)
    ensures r.Err? ==> r.error == (if a.AVal? && a.v.Str? then ValueError else TypeError)
    ensures a.ASpecs? || a.v.Null? || a.v.List? || a.v.Dict? ==> r == Err(TypeError)
  {
    match a
    case AVal(Num(x)) => Ok(Truncate(x))
    case AVal(Bool(b)) => Ok(if b then 1 else 0)
    case AVal(Str(s)) => if ParseInt(s).Some? then Ok(ParseInt(s).value) else Err(ValueError)
    case _ => Err(TypeError)
  }

  /** `float(v)`. */
  function FloatOf(a: Arg): (r: Result<real>)
    ensures a.AVal? && a.v.Num? ==> r == Ok(a.v.r)
    ensures a.AVal? && a.v.Bool? ==> r == Ok(if a.v.b then 1.0 else 0.0)
    ensures a.AVal? && a.v.Str? ==> (r.Ok? <==> ParseFloat(a.v.s).Some?)
    ensures r.Err? ==> r.error == (if a.AVal? && a.v.Str? then ValueError else TypeError)
    ensures a.ASpecs? || a.v.Null? || a.v.List? || a.v.Dict? ==> r == Err(TypeError)
  {
    match a
    case AVal(Num(x)) => Ok(x)
    case AVal(Bool(b)) => Ok(if b then 1.0 else 0.0)
    case AVal(Str(s)) => if ParseFloat(s).Some? then Ok(ParseFloat(s).value) else Err(ValueError)
    case _ => Err(TypeError)
  }
}
