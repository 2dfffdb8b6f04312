/** Small helpers shared by every stage: an Option type standing in for the
    `??` defaults of the source, and the real/integer operations that the
    source takes from `Math` (abs, min, max, ceil, floor, trunc). */
module Wrappers {

  /** A value that may be absent; `GetOr` is the source's `x ?? default`. */
  datatype Option<+T> = None | Some(value: T) {
    function GetOr(default: T): (r: T)
      ensures Some? ==> r == value
      ensures None? ==> r == default
    {
      match this
      case Some(v) => v
      case None => default
    }
  }
}

module Numbers {

  function Abs(a: real): (r: real)
    ensures r >= 0.0 && (r == a || r == -a)
  {
    if a < 0.0 then -a else a
  }

  function Min(a: real, b: real): (r: real)
    ensures r <= a && r <= b && (r == a || r == b)
  {
    if a <= b then a else b
  }

  function Max(a: real, b: real): (r: real)
    ensures r >= a && r >= b && (r == a || r == b)
  {
    if a >= b then a else b
  }

  function MinInt(a: int, b: int): (r: int)
    ensures r <= a && r <= b && (r == a || r == b)
  {
    if a <= b then a else b
  }

  function MaxInt(a: int, b: int): (r: int)
    ensures r >= a && r >= b && (r == a || r == b)
  {
    if a >= b then a else b
  }

  /** `Math.floor`: the greatest integer not above `a`. */
  function Floor(a: real): (r: int)
    ensures r as real <= a < r as real + 1.0
  {
    a.Floor
  }

  /** `Math.ceil`: the least integer not below `a`. */
  function Ceil(a: real): (r: int)
    ensures a <= r as real < a + 1.0
  {
    -((-a).Floor)
  }

  /** `Math.trunc`: rounds toward zero. */
  function Trunc(a: real): (r: int)
    ensures Abs(r as real) <= Abs(a) < Abs(r as real) + 1.0
    ensures a >= 0.0 ==> r >= 0
    ensures a <= 0.0 ==> r <= 0
  {
    if a >= 0.0 then a.Floor else -((-a).Floor)
  }

  /** Dividing by a positive number keeps the order. */
  lemma DivAtMost(a: real, b: real, d: real)
    requires d > 0.0 && a <= b * d
    ensures a / d <= b
  {
    assert a / d - b == (a - b * d) / d;
  }

  lemma DivAtLeast(a: real, b: real, d: real)
    requires d > 0.0 && b * d <= a
    ensures b <= a / d
  {
    assert a / d - b == (a - b * d) / d;
  }
}
