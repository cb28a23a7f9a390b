/** `IntSource`: a generator stage that ignores its input and emits `count`
    consecutive integers starting at `start` (config, defaults 1 and 5). */
module IntSource {
  import opened Values
  import opened Base
  import opened Conversions

  /** `[start + i for i in range(n)]`. */
  function Range(start: int, n: int): (r: seq<Value>)
    ensures |r| == if n > 0 then n else 0
    ensures forall i :: 0 <= i < |r| ==> r[i] == Num((start + i) as real)
    decreases n
  {
    if n <= 0 then [] else [Num(start as real)] + Range(start + 1, n - 1)
  }

  function Start(config: Config): Result<int> {
    IntOf(Lookup(config, "start", AVal(Num(1.0))))
  }

  function Count(config: Config): Result<int> {
    IntOf(Lookup(config, "count", AVal(Num(5.0))))
  }

  /** `IntSource.process`. Fails exactly when `int()` rejects `start` or
      `count` (`start` is read first); otherwise a list of `max(count, 0)`
      numbers whose i-th element is `start + i`. */
  function Process(config: Config, input: Value): (r: Result<Value>)
    ensures Start(config).Err? ==> r == Err(Start(config).error)
    ensures Start(config).Ok? && Count(config).Err? ==> r == Err(Count(config).error)
    ensures r.Ok? <==> Start(config).Ok? && Count(config).Ok?
    ensures r.Ok? ==> r.value.List?
    ensures r.Ok? ==> |r.value.items| == if Count(config).value > 0 then Count(config).value else 0
    ensures r.Ok? ==> forall i :: 0 <= i < |r.value.items| ==>
      r.value.items[i] == Num((Start(config).value + i) as real)
  {
    var start := Start(config);
    if start.Err? then Err(start.error)
    else
      var count := Count(config);
      if count.Err? then Err(count.error)
      else Ok(List(Range(start.value, count.value)))
  }

  /** Consecutive elements differ by exactly one. */
  lemma ConsecutiveStep(config: Config, input: Value, i: nat)
    requires Process(config, input).Ok?
    requires i + 1 < |Process(config, input).value.items|
    ensures Process(config, input).value.items[i + 1].r == Process(config, input).value.items[i].r + 1.0
  {
  }

  /** With no config the source emits [1, 2, 3, 4, 5]. */
  lemma DefaultsGiveOneToFive(input: Value)
    ensures Process([], input) == Ok(List([Num(1.0), Num(2.0), Num(3.0), Num(4.0), Num(5.0)]))
  {
    assert Start([]) == Ok(1) && Count([]) == Ok(5);
    var r := Process([], input).value.items;
    assert |r| == 5;
    assert r[0] == Num(1.0) && r[1] == Num(2.0) && r[2] == Num(3.0) && r[3] == Num(4.0) && r[4] == Num(5.0);
    assert r == [Num(1.0), Num(2.0), Num(3.0), Num(4.0), Num(5.0)];
    assert Process([], input) == Ok(List(r));
  }

  /** A zero or negative count gives the empty list. */
  lemma NonPositiveCountIsEmpty(config: Config, input: Value)
    requires Start(config).Ok? && Count(config).Ok? && Count(config).value <= 0
    ensures Process(config, input) == Ok(List([]))
  {
  }

  /** The payload handed to the source does not matter. */
  lemma IgnoresInput(config: Config, x: Value, y: Value)
    ensures Process(config, x) == Process(config, y)
  {
  }
}
