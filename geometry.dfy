/**
 * The geometry helpers of src/utils.py (and their verbatim duplicate, the
 * top-level utils.py): box centre, pixel distance and speed conversion.
 *
 * `math.hypot` is a foreign call. It is modelled as a parameter `hypot`
 * that is known only through `IsHypot`: its value is non-negative and its
 * square is the sum of the squares of its arguments. That pins it down to
 * the Euclidean norm, and the properties the callers rely on (symmetry,
 * zero on equal points) are proved from it rather than assumed.
 */
module Geometry {

  datatype Point = Point(x: real, y: real)

  /** A bounding box `[x1, y1, x2, y2]` in pixel coordinates. */
  datatype Box = Box(x1: real, y1: real, x2: real, y2: real)

  /** `box_center`: the midpoint of the two corners. */
  function BoxCenter(b: Box): (c: Point)
    ensures c.x - b.x1 == b.x2 - c.x && c.y - b.y1 == b.y2 - c.y
    ensures b.x1 <= b.x2 ==> b.x1 <= c.x <= b.x2
    ensures b.y1 <= b.y2 ==> b.y1 <= c.y <= b.y2
  {
    Point((b.x1 + b.x2) / 2.0, (b.y1 + b.y2) / 2.0)
  }

  /** What is known of `math.hypot(a, b)`: the non-negative square root of a*a + b*b. */
  ghost predicate IsHypot(hypot: (real, real) -> real)
  {
    forall a, b :: hypot(a, b) >= 0.0 && hypot(a, b) * hypot(a, b) == a * a + b * b
  }

  /** `pixel_distance(p1, p2) = math.hypot(p1.x - p2.x, p1.y - p2.y)`. */
  function PixelDistance(hypot: (real, real) -> real, p: Point, q: Point): real
  {
    hypot(p.x - q.x, p.y - q.y)
  }

  /** Squaring is strictly increasing on the non-negative reals. */
  lemma SquareStrictlyIncreasing(a: real, b: real)
    requires 0.0 <= a < b
    ensures a * a < b * b
  {
    var c := b - a;
    assert b * b == a * a + 2.0 * a * c + c * c;
    assert a * c >= 0.0;
    assert c * c > 0.0;
  }

  /** Two non-negative reals with the same square are equal. */
  lemma SquareRootUnique(a: real, b: real)
    requires a >= 0.0 && b >= 0.0 && a * a == b * b
    ensures a == b
  {
    if a < b {
      SquareStrictlyIncreasing(a, b);
    } else if b < a {
      SquareStrictlyIncreasing(b, a);
    }
  }

  lemma DistanceNonNegative(hypot: (real, real) -> real, p: Point, q: Point)
    requires IsHypot(hypot)
    ensures PixelDistance(hypot, p, q) >= 0.0
  {
  }

  /** `pixel_distance` is symmetric. */
  lemma DistanceSymmetric(hypot: (real, real) -> real, p: Point, q: Point)
    requires IsHypot(hypot)
    ensures PixelDistance(hypot, p, q) == PixelDistance(hypot, q, p)
  {
    var d1, d2 := PixelDistance(hypot, p, q), PixelDistance(hypot, q, p);
    assert d1 * d1 == (p.x - q.x) * (p.x - q.x) + (p.y - q.y) * (p.y - q.y);
    assert d2 * d2 == (q.x - p.x) * (q.x - p.x) + (q.y - p.y) * (q.y - p.y);
    assert (p.x - q.x) * (p.x - q.x) == (q.x - p.x) * (q.x - p.x);
    assert (p.y - q.y) * (p.y - q.y) == (q.y - p.y) * (q.y - p.y);
    SquareRootUnique(d1, d2);
  }

  /** A non-negative root of `s` is 0 exactly when `s` is. */
  lemma RootZeroIff(d: real, s: real)
    requires d >= 0.0 && d * d == s
    ensures d == 0.0 <==> s == 0.0
  {
    if d != 0.0 {
      SquareStrictlyIncreasing(0.0, d);
    }
  }

  /** A sum of two squares vanishes only when both terms do. */
  lemma SumOfSquaresZero(a: real, b: real, s: real)
    requires s == a * a + b * b
    ensures s == 0.0 <==> a == 0.0 && b == 0.0
  {
    var a', b' := if a < 0.0 then -a else a, if b < 0.0 then -b else b;
    assert a' * a' == a * a;
    assert b' * b' == b * b;
    if a != 0.0 {
      SquareStrictlyIncreasing(0.0, a');
      if b' > 0.0 { SquareStrictlyIncreasing(0.0, b'); }
    } else if b != 0.0 {
      SquareStrictlyIncreasing(0.0, b');
    }
  }

  /** `pixel_distance` is 0 exactly on identical points. */
  lemma DistanceZeroIffEqual(hypot: (real, real) -> real, p: Point, q: Point)
    requires IsHypot(hypot)
    ensures PixelDistance(hypot, p, q) == 0.0 <==> p == q
  {
    var dx, dy := p.x - q.x, p.y - q.y;
    var s := dx * dx + dy * dy;
    RootZeroIff(hypot(dx, dy), s);
    SumOfSquaresZero(dx, dy, s);
  }

  /**
   * `speed_kmh`: 0 when no time has elapsed, otherwise metres per second
   * times 3.6.
   */
  function SpeedKmh(pixels: real, dtSeconds: real, pixelsToMeters: real): (r: real)
    ensures dtSeconds <= 0.0 ==> r == 0.0
    ensures pixels >= 0.0 && pixelsToMeters >= 0.0 ==> r >= 0.0
  {
    if dtSeconds <= 0.0 then 0.0
    else
      var meters := pixels * pixelsToMeters;
      var metersPerSecond := meters / dtSeconds;
      metersPerSecond * 3.6
  }

  /** For a positive time step, the speed is the travelled metres over the time, in km/h. */
  lemma SpeedKmhIsMetersPerSecond(pixels: real, dtSeconds: real, pixelsToMeters: real)
    requires dtSeconds > 0.0
    ensures SpeedKmh(pixels, dtSeconds, pixelsToMeters) * dtSeconds == pixels * pixelsToMeters * 3.6
  {
    var m := pixels * pixelsToMeters;
    calc {
      SpeedKmh(pixels, dtSeconds, pixelsToMeters) * dtSeconds;
      (m / dtSeconds) * 3.6 * dtSeconds;
      (m / dtSeconds) * dtSeconds * 3.6;
      m * 3.6;
    }
  }

  /** For a fixed time step and scale, the speed is linear in the pixel distance. */
  lemma SpeedKmhLinear(k: real, pixels: real, dtSeconds: real, pixelsToMeters: real)
    ensures SpeedKmh(k * pixels, dtSeconds, pixelsToMeters) == k * SpeedKmh(pixels, dtSeconds, pixelsToMeters)
  {
    if dtSeconds > 0.0 {
      var m := pixels * pixelsToMeters;
      assert k * pixels * pixelsToMeters == k * m;
      assert (k * m) / dtSeconds == k * (m / dtSeconds);
    }
  }
}
