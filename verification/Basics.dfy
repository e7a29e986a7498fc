/** Helper types and the source language's numeric conversions. */
module Basics {

  datatype Option<+T> = None | Some(value: T)

  datatype Result<+T> = Ok(value: T) | Err

  function MaxInt(a: int, b: int): (r: int)
    ensures r >= a && r >= b && (r == a || r == b)
  {
    if a > b then a else b
  }

  function MinInt(a: int, b: int): (r: int)
    ensures r <= a && r <= b && (r == a || r == b)
  {
    if a < b then a else b
  }

  function MaxReal(a: real, b: real): (r: real)
    ensures r >= a && r >= b && (r == a || r == b)
  {
    if a > b then a else b
  }

  function MinReal(a: real, b: real): (r: real)
    ensures r <= a && r <= b && (r == a || r == b)
  {
    if a < b then a else b
  }

  /** `int(math.Ceil(x))`, with the range of the integer type left unbounded. */
  function Ceil(x: real): (n: int)
    ensures (n as real) - 1.0 < x <= n as real
  {
    -((-x).Floor)
  }

  lemma {:induction false} CeilMonotone(x: real, y: real)
    requires x <= y
    ensures Ceil(x) <= Ceil(y)
  {
    var (m, n) := (Ceil(x), Ceil(y));
    assert (m as real) - 1.0 < n as real;
    assert ((m - 1) as real) == (m as real) - 1.0;
  }

  /** `math.Round`: the nearest integer, halves going away from zero. */
  function Round(x: real): (n: int)
    ensures n as real - 0.5 <= x <= n as real + 0.5
    ensures if x >= 0.0 then x < n as real + 0.5 else n as real - 0.5 < x
  {
    if x >= 0.0 then (x + 0.5).Floor else -((0.5 - x).Floor)
  }

  /** Integer division of the source language: truncates towards zero. */
  function TruncDiv(a: int, b: int): (q: int)
    requires b > 0
    ensures if a >= 0 then 0 <= a - q * b < b else -b < a - q * b <= 0
  {
    if a >= 0 then a / b else -((-a) / b)
  }

  const NANOSECONDS_PER_SECOND: int := 1_000_000_000

  /** `Duration.Seconds()`, durations being counted in nanoseconds. */
  function Seconds(d: int): real {
    d as real / NANOSECONDS_PER_SECOND as real
  }

  lemma {:induction false} WholeSeconds(n: int)
    ensures Seconds(n * 1_000_000_000) == n as real
  {
    var d := NANOSECONDS_PER_SECOND as real;
    assert (n * 1_000_000_000) as real == n as real * d;
    assert n as real * d / d == n as real;
  }

  lemma {:induction false} SecondsAdd(a: int, b: int)
    ensures Seconds(a + b) == Seconds(a) + Seconds(b)
    ensures Seconds(a - b) == Seconds(a) - Seconds(b)
  {
  }

  /** All but the last element. */
  function Init<T>(s: seq<T>): seq<T>
    requires |s| > 0
  {
    s[..|s| - 1]
  }

  function Last<T>(s: seq<T>): T
    requires |s| > 0
  {
    s[|s| - 1]
  }
}
