/**
 * The error-to-deflection mapping of the control loop (ObjectTraker.py,
 * lines 113-127), stated in exact integer arithmetic.
 *
 * The source computes, in floating point,
 *   error = (c - dim / 2) / (dim / 2)          (= (2c - dim) / dim)
 *   fin   = int(+-error * MAX_DEFLECTION)      (truncation toward zero)
 * Here the rational (2c - dim) / dim is kept exact and the truncating
 * conversion is TruncDiv.
 */
module Deflection {
  import opened Geometry

  /** MAX_DEFLECTION: the deflection for a centre on the frame's edge. */
  const MaxDeflection: int := 30

  /** The width and height of a captured frame, from `frame.shape`. */
  datatype Frame = Frame(width: int, height: int)

  /** A camera frame has positive dimensions. */
  predicate ValidFrame(f: Frame)
  {
    f.width > 0 && f.height > 0
  }

  /** The four fin commands, in wire order. */
  datatype Fins = Fins(left: int, right: int, top: int, bottom: int)

  /**
   * Python's `int()` applied to the rational n / d: the quotient truncated
   * toward zero. The ensures are the defining property of truncation: the
   * magnitude is the floor of |n| / d and the sign is that of n.
   */
  function TruncDiv(n: int, d: int): (q: int)
    requires d > 0
    ensures Abs(q) * d <= Abs(n) < (Abs(q) + 1) * d
    ensures n >= 0 ==> q >= 0
    ensures n <= 0 ==> q <= 0
  {
    if n >= 0 then n / d else -((-n) / d)
  }

  /**
   * The tracked centre, `x + w // 2` and `y + h // 2`. Python's `//` floors,
   * and so does Dafny's `/` for a positive divisor: the centre is the
   * midpoint of the box rounded down.
   */
  function Center(b: Box): (c: Point)
    ensures 2 * c.x <= 2 * b.x + b.width < 2 * c.x + 2
    ensures 2 * c.y <= 2 * b.y + b.height < 2 * c.y + 2
  {
    Point(b.x + b.width / 2, b.y + b.height / 2)
  }

  /** `int(error * MAX_DEFLECTION)` for a centre c on an axis of length dim. */
  function FinPositive(c: int, dim: int): int
    requires dim > 0
  {
    TruncDiv(MaxDeflection * (2 * c - dim), dim)
  }

  /** `int(-error * MAX_DEFLECTION)` for a centre c on an axis of length dim. */
  function FinNegative(c: int, dim: int): int
    requires dim > 0
  {
    TruncDiv(-(MaxDeflection * (2 * c - dim)), dim)
  }

  /**
   * The command for a tracked box in a frame: left and top take the negated
   * error, right and bottom the error itself. Because truncation toward
   * zero commutes with negation, the opposite fins are exact negatives.
   */
  function Deflect(b: Box, f: Frame): (fins: Fins)
    requires ValidFrame(f)
    ensures fins.left == -fins.right && fins.top == -fins.bottom
  {
    var c := Center(b);
    FinNegativeIsNegated(c.x, f.width);
    FinNegativeIsNegated(c.y, f.height);
    Fins(FinNegative(c.x, f.width), FinPositive(c.x, f.width),
         FinNegative(c.y, f.height), FinPositive(c.y, f.height))
  }

  /** Cancelling a positive factor from a non-strict product inequality. */
  lemma CancelLe(a: int, k: int, d: int)
    requires d > 0 && a * d <= k * d
    ensures a <= k
  {
    assert (k - a) * d == k * d - a * d;
  }

  /** Cancelling a positive factor from a strict product inequality. */
  lemma CancelLt(a: int, k: int, d: int)
    requires d > 0 && a * d < k * d
    ensures a < k
  {
    assert (k - a) * d == k * d - a * d;
  }

  /** Truncation commutes with negation. */
  lemma TruncDivNegate(n: int, d: int)
    requires d > 0
    ensures TruncDiv(-n, d) == -TruncDiv(n, d)
  {
  }

  lemma FinNegativeIsNegated(c: int, dim: int)
    requires dim > 0
    ensures FinNegative(c, dim) == -FinPositive(c, dim)
  {
    TruncDivNegate(MaxDeflection * (2 * c - dim), dim);
  }

  /** An exact multiple of the divisor divides without remainder. */
  lemma TruncDivExact(k: int, d: int)
    requires d > 0
    ensures TruncDiv(k * d, d) == k
  {
    var q := TruncDiv(k * d, d);
    if k >= 0 {
      assert Abs(k * d) == k * d;
      CancelLe(q, k, d);
      CancelLt(k, q + 1, d);
    } else {
      assert Abs(k * d) == (-k) * d;
      CancelLe(-q, -k, d);
      CancelLt(-k, -q + 1, d);
    }
  }

  /** Truncated division of non-negative dividends is monotone. */
  lemma TruncDivMonotoneNat(n: int, m: int, d: int)
    requires d > 0 && 0 <= n <= m
    ensures TruncDiv(n, d) <= TruncDiv(m, d)
  {
    CancelLt(TruncDiv(n, d), TruncDiv(m, d) + 1, d);
  }

  /** Truncated division by a positive divisor is monotone in the dividend. */
  lemma TruncDivMonotone(n: int, m: int, d: int)
    requires d > 0 && n <= m
    ensures TruncDiv(n, d) <= TruncDiv(m, d)
  {
    if 0 <= n {
      TruncDivMonotoneNat(n, m, d);
    } else if m < 0 {
      TruncDivMonotoneNat(-m, -n, d);
      TruncDivNegate(n, d);
      TruncDivNegate(m, d);
    }
  }

  /** A quotient whose dividend is bounded by k times the divisor is bounded by k. */
  lemma TruncDivBounded(n: int, d: int, k: int)
    requires d > 0 && Abs(n) <= k * d
    ensures Abs(TruncDiv(n, d)) <= k
  {
    CancelLe(Abs(TruncDiv(n, d)), k, d);
  }

  /** A centre within [0, dim] gives a fin of magnitude at most MaxDeflection. */
  lemma FinBounded(c: int, dim: int)
    requires dim > 0 && 0 <= c <= dim
    ensures -MaxDeflection <= FinPositive(c, dim) <= MaxDeflection
    ensures -MaxDeflection <= FinNegative(c, dim) <= MaxDeflection
  {
    assert Abs(MaxDeflection * (2 * c - dim)) <= MaxDeflection * dim;
    TruncDivBounded(MaxDeflection * (2 * c - dim), dim, MaxDeflection);
    FinNegativeIsNegated(c, dim);
  }

  /** A fin is zero exactly when the scaled offset is smaller than the axis. */
  lemma FinZeroIff(c: int, dim: int)
    requires dim > 0
    ensures FinPositive(c, dim) == 0 <==> Abs(MaxDeflection * (2 * c - dim)) < dim
  {
    var n := MaxDeflection * (2 * c - dim);
    var q := TruncDiv(n, dim);
    if Abs(n) < dim {
      CancelLt(Abs(q), 1, dim);
    }
  }

  /** Moving the centre toward the positive edge never lowers the positive fin. */
  lemma FinMonotone(c1: int, c2: int, dim: int)
    requires dim > 0 && c1 <= c2
    ensures FinPositive(c1, dim) <= FinPositive(c2, dim)
  {
    TruncDivMonotone(MaxDeflection * (2 * c1 - dim), MaxDeflection * (2 * c2 - dim), dim);
  }

  /** A centre on the far edge gives full deflection, on the near edge full opposite deflection. */
  lemma FinAtEdges(dim: int)
    requires dim > 0
    ensures FinPositive(dim, dim) == MaxDeflection && FinNegative(dim, dim) == -MaxDeflection
    ensures FinPositive(0, dim) == -MaxDeflection && FinNegative(0, dim) == MaxDeflection
  {
    assert MaxDeflection * (2 * dim - dim) == MaxDeflection * dim;
    TruncDivExact(MaxDeflection, dim);
    assert MaxDeflection * (2 * 0 - dim) == (-MaxDeflection) * dim;
    TruncDivExact(-MaxDeflection, dim);
    FinNegativeIsNegated(dim, dim);
    FinNegativeIsNegated(0, dim);
  }

  /**
   * The source does not clamp: a tracker box whose centre lies at twice the
   * frame dimension gives three times the maximum deflection.
   */
  lemma FinUnclamped(dim: int)
    requires dim > 0
    ensures FinPositive(2 * dim, dim) == 3 * MaxDeflection
  {
    assert MaxDeflection * (2 * (2 * dim) - dim) == (3 * MaxDeflection) * dim;
    TruncDivExact(3 * MaxDeflection, dim);
  }

  /** Every fin of a box whose centre lies inside the frame is within +-MaxDeflection. */
  lemma DeflectBounded(b: Box, f: Frame)
    requires ValidFrame(f)
    requires 0 <= Center(b).x <= f.width && 0 <= Center(b).y <= f.height
    ensures var fins := Deflect(b, f);
      -MaxDeflection <= fins.left <= MaxDeflection && -MaxDeflection <= fins.right <= MaxDeflection &&
      -MaxDeflection <= fins.top <= MaxDeflection && -MaxDeflection <= fins.bottom <= MaxDeflection
  {
    FinBounded(Center(b).x, f.width);
    FinBounded(Center(b).y, f.height);
  }

  /** A box centred exactly on the frame centre gives no deflection at all. */
  lemma DeflectCentred(b: Box, f: Frame)
    requires ValidFrame(f)
    requires 2 * Center(b).x == f.width && 2 * Center(b).y == f.height
    ensures Deflect(b, f) == Fins(0, 0, 0, 0)
  {
    FinZeroIff(Center(b).x, f.width);
    FinZeroIff(Center(b).y, f.height);
  }

  /** A box centred on the right edge drives the left fin to -30 and the right fin to 30. */
  lemma DeflectRightEdge(b: Box, f: Frame)
    requires ValidFrame(f)
    requires Center(b).x == f.width
    ensures Deflect(b, f).left == -MaxDeflection && Deflect(b, f).right == MaxDeflection
  {
    FinAtEdges(f.width);
  }
}
