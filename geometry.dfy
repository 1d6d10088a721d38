/**
 * Rectangles and the integer arithmetic of the layout engine.
 * A `Rect` is a value (the engine's pooled scratch rectangles become values here).
 */
module Geometry {
  import opened Common

  /** `android.graphics.Rect`: left/top inclusive, right/bottom exclusive. */
  datatype Rect = Rect(left: int, top: int, right: int, bottom: int) {

    function Width(): int { right - left }

    function Height(): int { bottom - top }

    /** `Rect.isEmpty`: no area, including inverted rectangles. */
    predicate IsEmpty() { left >= right || top >= bottom }

    /** `Rect.contains(Rect)`: a non-empty rectangle that encloses `r`. */
    predicate Contains(r: Rect) {
      left < right && top < bottom &&
      left <= r.left && top <= r.top && right >= r.right && bottom >= r.bottom
    }

    /** `offsetLeftAndRight(dx)` followed by `offsetTopAndBottom(dy)`. */
    function Offset(dx: int, dy: int): (r: Rect)
      ensures r.Width() == Width() && r.Height() == Height()
      ensures r.left - left == dx && r.top - top == dy
    {
      Rect(left + dx, top + dy, right + dx, bottom + dy)
    }
  }

  /** `Rect.setEmpty`, and the value of a freshly allocated `Rect`. */
  const EmptyRect := Rect(0, 0, 0, 0)

  /**
   * Java's `/` on `int`, which truncates toward zero (Dafny's `/` is Euclidean).
   * Only used with a positive divisor.
   */
  function Div(a: int, b: int): (q: int)
    requires b > 0
    ensures a >= 0 ==> 0 <= a - q * b < b
    ensures a < 0 ==> -b < a - q * b <= 0
  {
    if a >= 0 then a / b else -((-a) / b)
  }

  /** Truncating division is odd: halving a negative width rounds toward zero. */
  lemma DivIsOdd(a: int, b: int)
    requires b > 0
    ensures Div(-a, b) == -Div(a, b)
  {
  }

  /**
   * `Math.max(lo, Math.min(x, hi))`: the clamp used by `constrainChildRect` and
   * `layoutChildWithKeyline`. When the range is empty (`lo > hi`) the lower bound wins.
   */
  function Clamp(x: int, lo: int, hi: int): (r: int)
    ensures r >= lo
    ensures lo <= hi ==> r <= hi
    ensures lo <= x <= hi ==> r == x
    ensures x < lo ==> r == lo
    ensures x > hi ==> r == Max(lo, hi)
  {
    Max(lo, Min(x, hi))
  }

  /** Clamping twice is clamping once, whether or not the range is empty. */
  lemma ClampIdempotent(x: int, lo: int, hi: int)
    ensures Clamp(Clamp(x, lo, hi), lo, hi) == Clamp(x, lo, hi)
  {
  }
}
