/** Vocabulary shared by every module of the model. */
module Common {

  datatype Option<+T> = None | Some(value: T) {
    /** The value, or `x or default` when there is none. */
    function GetOr(default: T): T {
      if Some? then value else default
    }
  }

  datatype Side = Buy | Sell

  /** One OHLC bar; `ts` is the bar's timestamp. */
  datatype Bar = Bar(ts: int, open: real, high: real, low: real, close: real)

  /** What every real bar satisfies: the close lies inside the bar's range. */
  predicate WellFormedBar(b: Bar) {
    b.low <= b.close <= b.high
  }

  function Abs(x: real): real {
    if x < 0.0 then -x else x
  }

  function Max(x: real, y: real): real {
    if x >= y then x else y
  }

  function Min(x: real, y: real): real {
    if x <= y then x else y
  }

  lemma MulMono(a: real, b: real, c: real)
    requires a <= b && c >= 0.0
    ensures a * c <= b * c
  {
  }

  lemma DivMul(a: real, b: real)
    requires b != 0.0
    ensures (a / b) * b == a
  {
  }

  /** Largest multiple of `step` that is at most `x`: Python's `(x // step) * step`. */
  function FloorTo(x: real, step: real): (r: real)
    requires step > 0.0
    ensures r <= x < r + step
  {
    var k := (x / step).Floor as real;
    MulMono(k, x / step, step);
    MulMono(x / step, k + 1.0, step);
    DivMul(x, step);
    assert (k + 1.0) * step == k * step + step;
    assert x / step < k + 1.0;
    assert (k + 1.0 - x / step) * step > 0.0;
    k * step
  }
}
