/** `Math.round` and the `Math.max(Math.min(v, hi), lo)` clamp, on exact reals
    and integers. */
module JsMath {

  /** `Math.round(x)`: the nearest integer, a half rounded up (towards +∞). */
  function Round(x: real): (r: int)
    ensures r as real - 0.5 <= x < r as real + 0.5
  {
    (x + 0.5).Floor
  }

  /** `Math.max(Math.min(v, hi), lo)`. */
  function Clamp(v: int, lo: int, hi: int): (r: int)
    requires lo <= hi
    ensures lo <= r <= hi
    ensures lo <= v <= hi ==> r == v
    ensures v > hi ==> r == hi
    ensures v < lo ==> r == lo
  {
    var m := if v < hi then v else hi;
    if m > lo then m else lo
  }

  /** Rounding an integer leaves it unchanged. */
  lemma RoundOfInteger(n: int)
    ensures Round(n as real) == n
  {
  }
}
