/** JavaScript's Math.floor, Math.round, Math.max and Math.min, on exact reals. */
module JsMath {

  /** Math.floor: the largest integer that is not above x. */
  function Floor(x: real): (r: int)
    ensures r as real <= x < r as real + 1.0
  {
    x.Floor
  }

  /** Math.round: the nearest integer, a half going towards +infinity. */
  function Round(x: real): (r: int)
    ensures x - 0.5 < r as real <= x + 0.5
  {
    Floor(x + 0.5)
  }

  /** Math.max of two numbers. */
  function Max(a: real, b: real): (r: real)
    ensures a <= r && b <= r
    ensures r == a || r == b
  {
    if a < b then b else a
  }

  /** Math.min of two numbers. */
  function Min(a: real, b: real): (r: real)
    ensures r <= a && r <= b
    ensures r == a || r == b
  {
    if a < b then a else b
  }

  /** Math.max(lo, Math.min(hi, x)) does not decrease as x grows. */
  lemma ClampMonotone(lo: real, hi: real, x: real, y: real)
    requires x <= y
    ensures Max(lo, Min(hi, x)) <= Max(lo, Min(hi, y))
  {
  }

  lemma FloorMonotone(x: real, y: real)
    requires x <= y
    ensures Floor(x) <= Floor(y)
  {
  }

  lemma RoundMonotone(x: real, y: real)
    requires x <= y
    ensures Round(x) <= Round(y)
  {
    FloorMonotone(x + 0.5, y + 0.5);
  }

  /** The integer that Floor returns is the only one satisfying its contract. */
  lemma FloorUnique(x: real, k: int)
    requires k as real <= x < k as real + 1.0
    ensures Floor(x) == k
  {
  }
}
