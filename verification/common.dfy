/** Small shared vocabulary: an optional value and integer/real helpers. */
module Common {

  datatype Option<T> = None | Some(value: T)

  function MinInt(a: int, b: int): (r: int)
    ensures r <= a && r <= b
    ensures r == a || r == b
  {
    if a <= b then a else b
  }

  function MaxReal(a: real, b: real): (r: real)
    ensures r >= a && r >= b
    ensures r == a || r == b
  {
    if a >= b then a else b
  }

  /** JavaScript `Math.round`: round half towards positive infinity. */
  function Round(x: real): (r: int)
    ensures x - 1.0 / 2.0 < r as real <= x + 1.0 / 2.0
  {
    (x + 1.0 / 2.0).Floor
  }

  /** JavaScript `Number.isInteger` on a finite number. */
  predicate IsInteger(x: real)
  {
    x == x.Floor as real
  }
}
