/** `MultiplyModule`: scales one number by the configured `factor`. */
module Multiply {
  import opened Values
  import opened Base
  import opened Conversions

  /** `float(config.get("factor", 1))`. */
  function Factor(config: Config): Result<real> {
    FloatOf(Lookup(config, "factor", AVal(Num(1.0))))
  }

  /** `MultiplyModule.process`. The `float()` coercion of the factor sits
      outside the `try`, so a bad factor raises; a payload that cannot be
      multiplied by a float (anything but a number or a boolean) comes back
      unchanged, and a list is not mapped element-wise. */
  function Process(config: Config, input: Value): (r: Result<Value>)
    ensures r.Err? <==> Factor(config).Err?
    ensures r.Err? ==> r.error == Factor(config).error
    ensures r.Ok? && IsNumber(input) ==> r.value == Num(NumberOf(input) * Factor(config).value)
    ensures r.Ok? && !IsNumber(input) ==> r.value == input
  {
    var f := Factor(config);
    if f.Err? then Err(f.error)
    else if IsNumber(input) then Ok(Num(NumberOf(input) * Factor(config).value))
    else Ok(input)
  }

  /** Without a factor a number is multiplied by one. */
  lemma DefaultFactorIsOne(r: real)
    ensures Process([], Num(r)) == Ok(Num(r))
  {
  }
}
