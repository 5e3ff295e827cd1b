/** The progress bar's width computation: the incoming percentage clamped to [0, 100]. */
module ProgressBar {

  /** `Math.max(a, b)` on integers. */
  function Max(a: int, b: int): (r: int)
    ensures r >= a && r >= b && (r == a || r == b)
  {
    if a < b then b else a
  }

  /** `Math.min(a, b)` on integers. */
  function Min(a: int, b: int): (r: int)
    ensures r <= a && r <= b && (r == a || r == b)
  {
    if a < b then a else b
  }

  /** `Math.min(100, Math.max(0, progress))`. */
  function Clamp(p: int): (r: int)
    ensures 0 <= r <= 100
    ensures 0 <= p <= 100 ==> r == p
    ensures p < 0 ==> r == 0
    ensures p > 100 ==> r == 100
  {
    Min(100, Max(0, p))
  }

  /** Clamping an already clamped value changes nothing. */
  lemma ClampIdempotent(p: int)
    ensures Clamp(Clamp(p)) == Clamp(p)
  {
  }

  /** Clamping preserves order. */
  lemma ClampMonotone(p: int, q: int)
    requires p <= q
    ensures Clamp(p) <= Clamp(q)
  {
  }
}
