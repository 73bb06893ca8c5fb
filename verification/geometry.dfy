/**
  Pixel geometry of the circuit board: points, pygame-style rectangles and the
  click hit test that decides whether a mouse click lies on a wire segment.

  The hit test is computed in exact real arithmetic. Besides the definition that
  follows the source step by step (`NearSegment`), the module gives two
  independent descriptions of the same test and proves that they agree with it:
  "some point of the closed segment lies within the threshold"
  (`WithinOfSegment`) and a division-free integer form (`NearSegmentExact`).
 */
module Geometry {

  /** A pixel position in the window. */
  datatype Point = Point(x: int, y: int)

  /** An axis-aligned rectangle given by its top-left corner, width and height. */
  datatype Rect = Rect(left: int, top: int, width: int, height: int)
  {
    function Right(): int { left + width }

    /** The vertical centre, rounded down as integer pixel rectangles do. */
    function CenterY(): (c: int)
      ensures 2 * (c - top) <= height < 2 * (c - top) + 2
    {
      top + height / 2
    }

    /** Half-open containment: the right and bottom edges are outside. */
    predicate Contains(p: Point) {
      left <= p.x < left + width && top <= p.y < top + height
    }
  }

  /** The click tolerance, in pixels, that the hit test uses by default. */
  const DefaultThreshold: int := 8

  function Min(a: real, b: real): real { if b < a then b else a }

  function Max(a: real, b: real): real { if b > a then b else a }

  /** Clamps a projection parameter into the unit interval. */
  function ClampUnit(t: real): (r: real)
    ensures 0.0 <= r <= 1.0
    ensures 0.0 <= t <= 1.0 ==> r == t
    ensures t < 0.0 ==> r == 0.0
    ensures 1.0 < t ==> r == 1.0
  {
    Max(0.0, Min(1.0, t))
  }

  /** Squared length of the segment from `a` to `b`. */
  function SqLen(a: Point, b: Point): int {
    (b.x - a.x) * (b.x - a.x) + (b.y - a.y) * (b.y - a.y)
  }

  /** Dot product of `p - a` with `b - a`. */
  function Dot(p: Point, a: Point, b: Point): int {
    (p.x - a.x) * (b.x - a.x) + (p.y - a.y) * (b.y - a.y)
  }

  /** Squared distance from `p` to the point `a + s * (b - a)` of the line through `a` and `b`. */
  function SqDistAt(p: Point, a: Point, b: Point, s: real): real {
    var dx := p.x as real - (a.x as real + s * (b.x - a.x) as real);
    var dy := p.y as real - (a.y as real + s * (b.y - a.y) as real);
    dx * dx + dy * dy
  }

  /** Projection parameter of `p` onto the segment `a`-`b`, clamped to the segment. */
  function ClosestParam(p: Point, a: Point, b: Point): (t: real)
    requires SqLen(a, b) != 0
    ensures 0.0 <= t <= 1.0
  {
    ClampUnit(Dot(p, a, b) as real / SqLen(a, b) as real)
  }

  /**
    The hit test: is `p` within `threshold` pixels of the segment `a`-`b`?
    A zero-length segment is compared with its one point; otherwise `p` is
    compared with its projection onto the segment, clamped to the segment.
   */
  function NearSegment(p: Point, a: Point, b: Point, threshold: int): bool {
    var segLenSq := SqLen(a, b);
    if segLenSq == 0 then
      var dx := p.x - a.x;
      var dy := p.y - a.y;
      dx * dx + dy * dy <= threshold * threshold
    else
      SqDistAt(p, a, b, ClosestParam(p, a, b)) <= (threshold * threshold) as real
  }

  /** Reference definition: some point of the closed segment lies within `threshold` of `p`. */
  ghost predicate WithinOfSegment(p: Point, a: Point, b: Point, threshold: int) {
    exists s: real :: 0.0 <= s <= 1.0 && SqDistAt(p, a, b, s) <= (threshold * threshold) as real
  }

  /** Reference definition in integers only, with no division. */
  function NearSegmentExact(p: Point, a: Point, b: Point, threshold: int): bool {
    var len := SqLen(a, b);
    var d := Dot(p, a, b);
    var r2 := threshold * threshold;
    if len == 0 || d <= 0 then SqLen(a, p) <= r2
    else if len <= d then SqLen(b, p) <= r2
    else SqLen(a, p) * len - d * d <= r2 * len
  }

  /** The squared distance along the line is a quadratic in the parameter. */
  lemma SqDistAtExpand(p: Point, a: Point, b: Point, s: real)
    ensures SqDistAt(p, a, b, s) == Quadratic(SqLen(a, p) as real, Dot(p, a, b) as real, SqLen(a, b) as real, s)
  {
    var wx, wy := (p.x - a.x) as real, (p.y - a.y) as real;
    var ux, uy := (b.x - a.x) as real, (b.y - a.y) as real;
    assert SqLen(a, p) as real == wx * wx + wy * wy;
    assert Dot(p, a, b) as real == wx * ux + wy * uy;
    assert SqLen(a, b) as real == ux * ux + uy * uy;
    assert p.x as real - (a.x as real + s * ux) == wx - s * ux;
    assert p.y as real - (a.y as real + s * uy) == wy - s * uy;
    assert (wx - s * ux) * (wx - s * ux) == wx * wx - 2.0 * s * (wx * ux) + s * s * (ux * ux);
    assert (wy - s * uy) * (wy - s * uy) == wy * wy - 2.0 * s * (wy * uy) + s * s * (uy * uy);
  }

  lemma ProductNonNegative(x: real, y: real)
    requires (0.0 <= x && 0.0 <= y) || (x <= 0.0 && y <= 0.0)
    ensures 0.0 <= x * y
  {
  }

  /** The quadratic `w - 2 s d + s^2 len`: the squared distance at parameter `s`. */
  function Quadratic(w: real, d: real, len: real, s: real): real {
    w - 2.0 * s * d + s * s * len
  }

  /** Interior minimum: at `t = d / len` the quadratic is below its value at any `s`. */
  lemma QuadraticAtVertex(w: real, d: real, len: real, s: real, t: real)
    requires 0.0 < len && d == t * len
    ensures Quadratic(w, d, len, t) <= Quadratic(w, d, len, s)
  {
    calc {
      Quadratic(w, d, len, s) - Quadratic(w, d, len, t);
      -2.0 * s * d + s * s * len + 2.0 * t * d - t * t * len;
      { assert s * d == s * (t * len); assert t * d == t * (t * len); }
      -2.0 * s * (t * len) + s * s * len + 2.0 * t * (t * len) - t * t * len;
      len * ((s - t) * (s - t));
    }
    ProductNonNegative(s - t, s - t);
    ProductNonNegative(len, (s - t) * (s - t));
  }

  /** Left clamp: with `d <= 0` the quadratic on [0, 1] is smallest at 0. */
  lemma QuadraticAtZero(w: real, d: real, len: real, s: real)
    requires 0.0 < len && d <= 0.0 && 0.0 <= s
    ensures Quadratic(w, d, len, 0.0) <= Quadratic(w, d, len, s)
  {
    assert Quadratic(w, d, len, s) - Quadratic(w, d, len, 0.0) == s * (s * len - 2.0 * d);
    ProductNonNegative(s, len);
    ProductNonNegative(s, s * len - 2.0 * d);
  }

  /** Right clamp: with `len <= d` the quadratic on [0, 1] is smallest at 1. */
  lemma QuadraticAtOne(w: real, d: real, len: real, s: real)
    requires 0.0 < len && len <= d && s <= 1.0
    ensures Quadratic(w, d, len, 1.0) <= Quadratic(w, d, len, s)
  {
    assert Quadratic(w, d, len, s) - Quadratic(w, d, len, 1.0)
        == (s - 1.0) * ((s + 1.0) * len - 2.0 * d);
    ProductNonNegative(1.0 - s, len);
    assert (s + 1.0) * len <= 2.0 * len;
    ProductNonNegative(s - 1.0, (s + 1.0) * len - 2.0 * d);
  }

  /** The clamped projection is the point of the segment nearest to `p`. */
  lemma ClosestParamIsNearest(p: Point, a: Point, b: Point, s: real)
    requires SqLen(a, b) != 0
    requires 0.0 <= s <= 1.0
    ensures SqDistAt(p, a, b, ClosestParam(p, a, b)) <= SqDistAt(p, a, b, s)
  {
    var t := ClosestParam(p, a, b);
    var w, d, len := SqLen(a, p) as real, Dot(p, a, b) as real, SqLen(a, b) as real;
    assert 0.0 < len by {
      ProductNonNegativeInt(b.x - a.x);
      ProductNonNegativeInt(b.y - a.y);
    }
    assert Quadratic(w, d, len, t) <= Quadratic(w, d, len, s) by {
      DivisionSign(d, len);
      if d < 0.0 {
        QuadraticAtZero(w, d, len, s);
      } else if len < d {
        QuadraticAtOne(w, d, len, s);
      } else {
        QuadraticAtVertex(w, d, len, s, t);
      }
    }
    SqDistAtExpand(p, a, b, s);
    SqDistAtExpand(p, a, b, t);
  }

  /** How the quotient `d / len` sits against 0 and 1 for a positive `len`. */
  lemma DivisionSign(d: real, len: real)
    requires 0.0 < len
    ensures d / len * len == d
    ensures d / len < 0.0 <==> d < 0.0
    ensures d / len <= 0.0 <==> d <= 0.0
    ensures 1.0 < d / len <==> len < d
    ensures 1.0 <= d / len <==> len <= d
  {
    var q := d / len;
    ScaleByPositive(q, 0.0, len);
    ScaleByPositive(0.0, q, len);
    ScaleByPositive(q, 1.0, len);
    ScaleByPositive(1.0, q, len);
  }

  /** A zero squared length means the two endpoints coincide. */
  lemma ZeroLengthSegment(a: Point, b: Point)
    requires SqLen(a, b) == 0
    ensures a == b
  {
    ProductNonNegativeInt(b.x - a.x);
    ProductNonNegativeInt(b.y - a.y);
  }

  lemma ProductNonNegativeInt(x: int)
    ensures 0 <= x * x
    ensures x * x == 0 ==> x == 0
  {
  }

  /**
    The hit test succeeds exactly when some point of the closed segment, either
    endpoint included, lies within the threshold; for a zero-length segment this
    is the distance to its single point.
   */
  lemma NearSegmentIsNearSomeSegmentPoint(p: Point, a: Point, b: Point, threshold: int)
    ensures NearSegment(p, a, b, threshold) <==> WithinOfSegment(p, a, b, threshold)
  {
    var r2 := (threshold * threshold) as real;
    if SqLen(a, b) == 0 {
      ZeroLengthSegment(a, b);
      forall s: real
        ensures SqDistAt(p, a, b, s) == ((p.x - a.x) * (p.x - a.x) + (p.y - a.y) * (p.y - a.y)) as real
      {
      }
      if NearSegment(p, a, b, threshold) {
        assert SqDistAt(p, a, b, 0.0) <= r2;
      }
    } else {
      var t := ClosestParam(p, a, b);
      if NearSegment(p, a, b, threshold) {
        assert SqDistAt(p, a, b, t) <= r2;
      }
      if WithinOfSegment(p, a, b, threshold) {
        var s :| 0.0 <= s <= 1.0 && SqDistAt(p, a, b, s) <= r2;
        ClosestParamIsNearest(p, a, b, s);
      }
    }
  }

  /** A zero-length segment is a hit exactly within `threshold` of its one point. */
  lemma ZeroLengthSegmentHit(p: Point, a: Point, b: Point, threshold: int)
    requires SqLen(a, b) == 0
    ensures a == b
    ensures NearSegment(p, a, b, threshold) <==> SqLen(a, p) <= threshold * threshold
  {
    ZeroLengthSegment(a, b);
  }

  /** Every point of the segment, for any parameter in [0, 1], is a hit at every threshold. */
  lemma SegmentPointIsHit(p: Point, a: Point, b: Point, s: real, threshold: int)
    requires 0.0 <= s <= 1.0
    requires p.x as real == a.x as real + s * (b.x - a.x) as real
    requires p.y as real == a.y as real + s * (b.y - a.y) as real
    ensures NearSegment(p, a, b, threshold)
  {
    assert SqDistAt(p, a, b, s) == 0.0;
    assert 0.0 <= (threshold * threshold) as real by {
      ProductNonNegativeInt(threshold);
    }
    NearSegmentIsNearSomeSegmentPoint(p, a, b, threshold);
  }

  /** Both endpoints of a segment are hits at every threshold. */
  lemma EndpointsAreHits(a: Point, b: Point, threshold: int)
    ensures NearSegment(a, a, b, threshold)
    ensures NearSegment(b, a, b, threshold)
  {
    SegmentPointIsHit(a, a, b, 0.0, threshold);
    SegmentPointIsHit(b, a, b, 1.0, threshold);
  }

  /** At the vertex `t = d / len`, scaling the quadratic by `len` clears the division. */
  lemma QuadraticAtVertexScaled(w: real, d: real, len: real, t: real)
    requires 0.0 < len && d == t * len
    ensures Quadratic(w, d, len, t) * len == w * len - d * d
  {
    assert t * t * len == t * d;
    assert Quadratic(w, d, len, t) == w - t * d;
    assert (w - t * d) * len == w * len - t * (d * len);
    assert t * (d * len) == d * (t * len);
  }

  lemma CastProduct(x: int, y: int)
    ensures (x * y) as real == x as real * y as real
  {
  }

  /** Away from a zero-length segment, the hit test compares the distance to the clamped projection. */
  lemma NearSegmentUnfold(p: Point, a: Point, b: Point, threshold: int)
    requires SqLen(a, b) != 0
    ensures 0 < SqLen(a, b)
    ensures NearSegment(p, a, b, threshold)
         == (Quadratic(SqLen(a, p) as real, Dot(p, a, b) as real, SqLen(a, b) as real, ClosestParam(p, a, b))
             <= (threshold * threshold) as real)
  {
    assert 0 < SqLen(a, b) by {
      ProductNonNegativeInt(b.x - a.x);
      ProductNonNegativeInt(b.y - a.y);
    }
    var t := ClosestParam(p, a, b);
    assert NearSegment(p, a, b, threshold) == (SqDistAt(p, a, b, t) <= (threshold * threshold) as real);
    SqDistAtExpand(p, a, b, t);
  }

  /** At the two ends of the parameter range the squared distance is that to `a` and to `b`. */
  lemma QuadraticAtEnds(p: Point, a: Point, b: Point)
    ensures Quadratic(SqLen(a, p) as real, Dot(p, a, b) as real, SqLen(a, b) as real, 0.0) == SqLen(a, p) as real
    ensures Quadratic(SqLen(a, p) as real, Dot(p, a, b) as real, SqLen(a, b) as real, 1.0) == SqLen(b, p) as real
  {
    SqDistAtExpand(p, a, b, 0.0);
    SqDistAtExpand(p, a, b, 1.0);
    var wx, wy := (p.x - b.x) as real, (p.y - b.y) as real;
    assert SqLen(b, p) as real == wx * wx + wy * wy;
    assert SqDistAt(p, a, b, 1.0) == wx * wx + wy * wy;
  }

  /** The integer form of the interior case: scaling by the positive squared length removes the division. */
  lemma InteriorExact(w: int, d: int, len: int, r2: int)
    requires 0 < d < len
    ensures Quadratic(w as real, d as real, len as real, d as real / len as real) <= r2 as real
        <==> w * len - d * d <= r2 * len
  {
    var t := d as real / len as real;
    assert t * len as real == d as real;
    QuadraticAtVertexScaled(w as real, d as real, len as real, t);
    CastProduct(w, len);
    CastProduct(d, d);
    CastProduct(r2, len);
    ScaleByPositive(Quadratic(w as real, d as real, len as real, t), r2 as real, len as real);
  }

  /** The hit test agrees with its division-free integer form on every input. */
  lemma NearSegmentAgreesWithExact(p: Point, a: Point, b: Point, threshold: int)
    ensures NearSegment(p, a, b, threshold) == NearSegmentExact(p, a, b, threshold)
  {
    var len := SqLen(a, b);
    var d := Dot(p, a, b);
    if len != 0 {
      NearSegmentUnfold(p, a, b, threshold);
      DivisionSign(d as real, len as real);
      QuadraticAtEnds(p, a, b);
      if len > d > 0 {
        InteriorExact(SqLen(a, p), d, len, threshold * threshold);
      }
    }
  }

  lemma ScaleByPositive(x: real, y: real, k: real)
    requires 0.0 < k
    ensures x <= y <==> x * k <= y * k
  {
    if x <= y {
      ProductNonNegative(y - x, k);
    } else {
      ProductNonNegative(x - y, k);
    }
  }
}
