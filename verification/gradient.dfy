/** The radial background of the procedural icon: concentric filled
    circles around the canvas centre, from the corner distance inwards.
    The colour interpolation itself is floating point and is taken as a
    parameter (`Shade`); what is modelled is the ring count, the radii, the
    `radius > 0` guard and the clamp of every channel into a byte. */
module Gradient {
  import opened IntMath
  import opened Canvas

  /** The unclamped colour of ring `i` out of `steps`, standing for the
      interpolation at ratio `i / steps`. */
  type Shade = (nat, nat) -> Rgb

  /** Distance from the centre `(size / 2, size / 2)` to the corner,
      rounded down. */
  function MaxRadius(size: nat): (m: nat)
    ensures var c := size / 2; m * m <= c * c + c * c < (m + 1) * (m + 1)
  {
    var c := size / 2;
    Isqrt(c * c + c * c)
  }

  /** Number of rings: at most 60, and never more than half the radius. */
  function StepCount(maxRadius: nat): (steps: nat)
    ensures steps <= 60 && 2 * steps <= maxRadius
    ensures steps == 60 || steps == maxRadius / 2
  {
    Min(60, maxRadius / 2)
  }

  /** Radius of ring `i`: the share `(steps - i) / steps` of the maximum,
      rounded down. */
  function RingRadius(steps: nat, maxRadius: nat, i: nat): (radius: int)
    requires i < steps
    ensures 0 <= radius <= maxRadius
  {
    ShareQuotient(steps - i, steps, maxRadius);
    ((steps - i) * maxRadius) / steps
  }

  /** The share `k / d` of `m`, rounded down, lies between 0 and `m`. */
  lemma ShareQuotient(k: nat, d: nat, m: nat)
    requires 0 < d && k <= d
    ensures var q := (k * m) / d;
      0 <= q <= m && q * d <= k * m < (q + 1) * d
  {
    var a, whole := k * m, d * m;
    DivBrackets(a, d);
    MulMonotone(k, d, m);
    DivMonotone(a, whole, d);
    assert m * d == whole && whole < (m + 1) * d;
    DivExact(whole, d, m);
  }

  /** Every ring is at least 2 pixels wide in radius and at most the corner
      distance, so the `radius > 0` guard never skips a ring. */
  lemma RingRadiusBounds(maxRadius: nat, i: nat)
    requires i < StepCount(maxRadius)
    ensures 2 <= RingRadius(StepCount(maxRadius), maxRadius, i) <= maxRadius
  {
    var steps := StepCount(maxRadius);
    var k := steps - i;
    MulMonotone(1, k, maxRadius);
    MulMonotone(k, steps, maxRadius);
    QuotientBounds(k * maxRadius, steps, maxRadius);
  }

  lemma QuotientBounds(a: nat, d: nat, m: nat)
    requires d > 0 && 2 * d <= a <= d * m
    ensures 2 <= a / d <= m
  {
  }

  /** The first, outermost ring has the full corner distance. */
  lemma FirstRingIsCorner(maxRadius: nat)
    requires 0 < StepCount(maxRadius)
    ensures RingRadius(StepCount(maxRadius), maxRadius, 0) == maxRadius
  {
    var steps := StepCount(maxRadius);
    DivExact(steps * maxRadius, steps, maxRadius);
  }

  /** Later rings are never larger than earlier ones. */
  lemma RingsShrink(steps: nat, maxRadius: nat, i: nat, j: nat)
    requires i <= j < steps
    ensures RingRadius(steps, maxRadius, j) <= RingRadius(steps, maxRadius, i)
  {
    MulMonotone(steps - j, steps - i, maxRadius);
    DivMonotone((steps - j) * maxRadius, (steps - i) * maxRadius, steps);
  }

  /** Python's `max(0, min(255, v))`: the nearest byte value. */
  function Clamp(v: int): (c: int)
    ensures 0 <= c <= 255
    ensures 0 <= v <= 255 ==> c == v
    ensures v < 0 ==> c == 0
    ensures v > 255 ==> c == 255
  {
    Max(0, Min(255, v))
  }

  function ClampRgb(c: Rgb): (k: Rgb)
    ensures IsByteColour(k)
    ensures IsByteColour(c) ==> k == c
  {
    Rgb(Clamp(c.r), Clamp(c.g), Clamp(c.b))
  }

  /** Ring `i` as painted when its radius passes the guard: a circle
      around the canvas centre whose diameter is twice the ring's radius,
      filled with the ring's colour clamped into bytes. */
  function Ring(size: nat, shade: Shade, i: nat): (ring: Shape)
    requires i < StepCount(MaxRadius(size))
    ensures ring.Ellipse? && CenteredAt(ring.box, size / 2, size / 2)
    ensures var d := 2 * RingRadius(StepCount(MaxRadius(size)), MaxRadius(size), i);
      ring.box.x2 - ring.box.x1 == d && ring.box.y2 - ring.box.y1 == d
    ensures IsByteColour(ring.fill)
    ensures var steps := StepCount(MaxRadius(size));
      IsByteColour(shade(i, steps)) ==> ring.fill == shade(i, steps)
  {
    var steps := StepCount(MaxRadius(size));
    var radius := RingRadius(steps, MaxRadius(size), i);
    Ellipse(SquareAround(size / 2, size / 2, radius), ClampRgb(shade(i, steps)))
  }

  /** The loop over `i` from `from` to `steps`: each ring is painted only
      if its radius is positive. The result is every ring, unskipped. */
  function RingsFrom(size: nat, shade: Shade, from: nat): (rings: seq<Shape>)
    requires from <= StepCount(MaxRadius(size))
    ensures |rings| == StepCount(MaxRadius(size)) - from
    ensures forall k :: 0 <= k < |rings| ==> rings[k] == Ring(size, shade, from + k)
    decreases StepCount(MaxRadius(size)) - from
  {
    var maxRadius := MaxRadius(size);
    var steps := StepCount(maxRadius);
    if from == steps then []
    else
      var radius := RingRadius(steps, maxRadius, from);
      RingRadiusBounds(maxRadius, from);
      var painted := if radius > 0 then [Ring(size, shade, from)] else [];
      painted + RingsFrom(size, shade, from + 1)
  }

  /** The whole gradient, outermost ring first. */
  function Rings(size: nat, shade: Shade): (rings: seq<Shape>)
    ensures |rings| == StepCount(MaxRadius(size))
    ensures forall i :: 0 <= i < |rings| ==> rings[i] == Ring(size, shade, i)
  {
    RingsFrom(size, shade, 0)
  }

  /** What the painted gradient is: `steps` concentric circles around the
      centre, in byte colours, the first reaching the corner distance, each
      at least radius 2 and none larger than the one before. */
  lemma RingsShape(size: nat, shade: Shade)
    ensures var rings, c, m := Rings(size, shade), size / 2, MaxRadius(size);
      forall i :: 0 <= i < |rings| ==>
        && rings[i].Ellipse?
        && CenteredAt(rings[i].box, c, c)
        && IsByteColour(rings[i].fill)
        && 4 <= rings[i].box.x2 - rings[i].box.x1 <= 2 * m
        && rings[i].box.x2 - rings[i].box.x1 == rings[i].box.y2 - rings[i].box.y1
        && (i == 0 ==> rings[i].box.x2 - rings[i].box.x1 == 2 * m)
        && (i > 0 ==> rings[i].box.x2 - rings[i].box.x1 <= rings[i - 1].box.x2 - rings[i - 1].box.x1)
  {
    var rings, m := Rings(size, shade), MaxRadius(size);
    var steps := StepCount(m);
    forall i | 0 <= i < |rings|
      ensures 2 <= RingRadius(steps, m, i) <= m
      ensures i == 0 ==> RingRadius(steps, m, i) == m
      ensures i > 0 ==> RingRadius(steps, m, i) <= RingRadius(steps, m, i - 1)
    {
      RingRadiusBounds(m, i);
      if i == 0 {
        FirstRingIsCorner(m);
      } else {
        RingsShrink(steps, m, i - 1, i);
      }
    }
  }

  /** Every icon of at least 4 pixels has a gradient; the ring count reaches
      its cap of 60 exactly from 170 pixels on. */
  lemma StepCountBySize(size: nat)
    ensures size >= 4 ==> StepCount(MaxRadius(size)) >= 1
    ensures StepCount(MaxRadius(size)) == 60 <==> size >= 170
  {
    var c, m := size / 2, MaxRadius(size);
    if size >= 4 {
      SquareMonotone(2, c);
      if m < 2 {
        SquareMonotone(m + 1, 2);
      }
    }
    if size >= 170 {
      SquareMonotone(85, c);
      if m < 120 {
        SquareMonotone(m + 1, 120);
      }
    } else {
      SquareMonotone(c, 84);
      if m >= 120 {
        SquareMonotone(120, m);
      }
    }
  }
}
