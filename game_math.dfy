/** Canvas dimensions and the numeric helpers of main.js (`rand`, `distance`,
    `Math.max`, `Math.min`, `Math.floor`), with numbers read as reals. */
module GameMath {

  /** A canvas side: the game only needs it to exceed twice the 100px
      re-centre margin. */
  type Dimension = r: real | r > 200.0 witness 201.0

  /** Canvas width and height (`canvas.width`, `canvas.height`): fixed but
      otherwise arbitrary. */
  const W: Dimension
  const H: Dimension

  /** `Math.PI` as the double it is. */
  const PI: real := 3.141592653589793

  /** The range of one `Math.random()` draw. */
  predicate IsUnit(u: real) {
    0.0 <= u < 1.0
  }

  /** `rand(min, max)`: scales a draw `u` to the half-open range [lo, hi). */
  function Rand(u: real, lo: real, hi: real): (r: real)
    requires IsUnit(u) && lo <= hi
    ensures lo <= r <= hi
    ensures lo < hi ==> r < hi
  {
    Scale(u, hi - lo) + lo
  }

  /** The offset `u * w` that `rand` adds to its lower bound. */
  function Scale(u: real, w: real): (r: real)
    requires IsUnit(u) && 0.0 <= w
    ensures 0.0 <= r <= w
    ensures 0.0 < w ==> r < w
  {
    ProductNonNegative(u, w);
    ProductNonNegative(1.0 - u, w);
    assert w - u * w == (1.0 - u) * w;
    assert 0.0 < w ==> 0.0 < (1.0 - u) * w by {
      if 0.0 < w { StrictProduct(1.0 - u, w); }
    }
    u * w
  }

  /** `rand` reaches every value of [lo, hi): each target has a draw. */
  lemma RandOnto(lo: real, hi: real, t: real)
    requires lo <= t < hi
    ensures IsUnit((t - lo) / (hi - lo))
    ensures Rand((t - lo) / (hi - lo), lo, hi) == t
  {
    var u := (t - lo) / (hi - lo);
    assert u * (hi - lo) == t - lo;
    DivisionBelowOne(t - lo, hi - lo);
  }

  lemma ProductNonNegative(a: real, b: real)
    requires 0.0 <= a && 0.0 <= b
    ensures 0.0 <= a * b
  {
  }

  lemma StrictProduct(a: real, b: real)
    requires 0.0 < a && 0.0 < b
    ensures 0.0 < a * b
  {
  }

  lemma DivisionBelowOne(a: real, b: real)
    requires 0.0 <= a < b
    ensures 0.0 <= a / b < 1.0
  {
    assert (a / b) * b == a;
  }

  lemma SquareMonotone(a: real, b: real)
    requires 0.0 <= a <= b
    ensures a * a <= b * b
  {
  }

  lemma SquareStrict(a: real, b: real)
    requires 0.0 <= a < b
    ensures a * a < b * b
  {
    StrictProduct(b - a, b + a);
    assert b * b - a * a == (b - a) * (b + a);
  }

  lemma SquareNonNegative(a: real)
    ensures 0.0 <= a * a
  {
    if a < 0.0 {
      SquareMonotone(0.0, -a);
      assert (-a) * (-a) == a * a;
    } else {
      SquareMonotone(0.0, a);
    }
  }

  /** `Math.max(a, b)`. */
  function Max(a: real, b: real): (r: real)
    ensures a <= r && b <= r
    ensures r == a || r == b
  {
    if a < b then b else a
  }

  /** `Math.min(a, b)`. */
  function Min(a: real, b: real): (r: real)
    ensures r <= a && r <= b
    ensures r == a || r == b
  {
    if b < a then b else a
  }

  /** The square of `distance(x1, y1, x2, y2)`; the square root itself is not
      modelled, see SquareCompare for why comparisons survive without it. */
  function DistanceSquared(x1: real, y1: real, x2: real, y2: real): (r: real)
    ensures 0.0 <= r
    ensures x1 == x2 && y1 == y2 ==> r == 0.0
  {
    var dx, dy := x1 - x2, y1 - y2;
    SquareNonNegative(dx);
    SquareNonNegative(dy);
    dx * dx + dy * dy
  }

  /** For a non-negative root `d` of `sq`, comparing `d` against a radius is
      comparing `sq` against the radius squared (boundary included). */
  lemma {:induction false} SquareCompare(d: real, sq: real, radius: real)
    requires 0.0 <= d && 0.0 <= radius && d * d == sq
    ensures d <= radius <==> sq <= radius * radius
  {
    if d <= radius {
      SquareMonotone(d, radius);
    } else {
      SquareStrict(radius, d);
    }
  }

  /** `Math.floor(rand(50, 90))`, the sprite size drawn at construction. */
  function SizeDraw(u: real): (s: int)
    requires IsUnit(u)
    ensures 50 <= s <= 89
  {
    Rand(u, 50.0, 90.0).Floor
  }

  /** `Math.random() < 0.5 ? 1 : -1`. */
  function Sign(u: real): real {
    if u < 0.5 then 1.0 else -1.0
  }

  /** Absolute value of a real. */
  function Abs(a: real): real {
    if a < 0.0 then -a else a
  }
}
