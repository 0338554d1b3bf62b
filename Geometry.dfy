/**
 * Box geometry and the inverse-height distance proxy used by the tracker
 * (`iou`, `center_wh`, `ttc_from_heights`) and, inline, by the flagger.
 */
module Geometry {

  import opened Common

  /** The small constant that guards divisions and closing rates. */
  const Eps: real := 0.000001

  /** A detection box in pixels, with the detector's score. */
  datatype Box = Box(xmin: real, ymin: real, xmax: real, ymax: real, score: real)

  /** Corners in order; every box the detector reports has this shape. */
  predicate WellFormed(b: Box) {
    b.xmin <= b.xmax && b.ymin <= b.ymax
  }

  function Max(a: real, b: real): real { if a >= b then a else b }
  function Min(a: real, b: real): real { if a <= b then a else b }

  function Area(b: Box): real {
    (b.xmax - b.xmin) * (b.ymax - b.ymin)
  }

  function Intersection(a: Box, b: Box): real {
    Max(0.0, Min(a.xmax, b.xmax) - Max(a.xmin, b.xmin))
      * Max(0.0, Min(a.ymax, b.ymax) - Max(a.ymin, b.ymin))
  }

  /** Denominator of `iou`, with the epsilon that keeps it away from zero. */
  function Union(a: Box, b: Box): (u: real)
    ensures WellFormed(a) && WellFormed(b) ==> u >= Eps
  {
    UnionLowerBound(a, b);
    Area(a) + Area(b) - Intersection(a, b) + Eps
  }

  lemma UnionLowerBound(a: Box, b: Box)
    ensures WellFormed(a) && WellFormed(b) ==> Area(a) + Area(b) - Intersection(a, b) >= 0.0
  {
    if WellFormed(a) && WellFormed(b) {
      IntersectionBounds(a, b);
      MulMono(0.0, 0.0, b.xmax - b.xmin, b.ymax - b.ymin);
    }
  }

  /** Intersection over union (`iou`). */
  function Iou(a: Box, b: Box): real
    requires Union(a, b) != 0.0
  {
    Intersection(a, b) / Union(a, b)
  }

  lemma MulMono(x: real, y: real, u: real, v: real)
    requires 0.0 <= x <= u && 0.0 <= y <= v
    ensures x * y <= u * v
  {
    assert x * y <= u * y;
    assert u * y <= u * v;
  }

  /** The overlap never exceeds either box's area. */
  lemma IntersectionBounds(a: Box, b: Box)
    requires WellFormed(a) && WellFormed(b)
    ensures 0.0 <= Intersection(a, b) <= Area(a)
    ensures Intersection(a, b) <= Area(b)
  {
    IntersectionAtMostFirst(a, b);
    IntersectionAtMostFirst(b, a);
    assert Intersection(a, b) == Intersection(b, a);
  }

  lemma IntersectionAtMostFirst(a: Box, b: Box)
    requires WellFormed(a) && WellFormed(b)
    ensures 0.0 <= Intersection(a, b) <= Area(a)
  {
    var iw := OverlapBounds(a.xmin, a.xmax, b.xmin, b.xmax);
    var ih := OverlapBounds(a.ymin, a.ymax, b.ymin, b.ymax);
    MulMono(0.0, 0.0, iw, ih);
    MulMono(iw, ih, a.xmax - a.xmin, a.ymax - a.ymin);
  }

  /** The overlap of two intervals is no longer than either of them. */
  lemma OverlapBounds(alo: real, ahi: real, blo: real, bhi: real) returns (w: real)
    requires alo <= ahi && blo <= bhi
    ensures w == Max(0.0, Min(ahi, bhi) - Max(alo, blo))
    ensures 0.0 <= w <= ahi - alo && w <= bhi - blo
  {
    w := Max(0.0, Min(ahi, bhi) - Max(alo, blo));
  }

  /** For well-formed boxes the overlap ratio is defined and lies in [0, 1). */
  lemma IouRange(a: Box, b: Box)
    requires WellFormed(a) && WellFormed(b)
    ensures 0.0 <= Iou(a, b) < 1.0
  {
    IntersectionBounds(a, b);
    MulMono(0.0, 0.0, b.xmax - b.xmin, b.ymax - b.ymin);
    var i, u := Intersection(a, b), Union(a, b);
    assert i < u;
    assert i / u < 1.0 by {
      assert i / u * u == i;
    }
  }

  /** The overlap ratio does not depend on the order of the two boxes. */
  lemma IouSymmetric(a: Box, b: Box)
    requires Union(a, b) != 0.0
    ensures Union(b, a) == Union(a, b) && Iou(a, b) == Iou(b, a)
  {
    assert Intersection(a, b) == Intersection(b, a);
  }

  /** Boxes separated horizontally or vertically do not overlap at all. */
  lemma IouDisjoint(a: Box, b: Box)
    requires Union(a, b) != 0.0
    requires a.xmax <= b.xmin || b.xmax <= a.xmin || a.ymax <= b.ymin || b.ymax <= a.ymin
    ensures Iou(a, b) == 0.0
  {
    assert Intersection(a, b) == 0.0;
  }

  /** `center_wh`: the centre and the size, each side at least one pixel. */
  datatype Shape = Shape(cx: real, cy: real, w: real, h: real)

  function CenterWh(b: Box): (r: Shape)
    ensures r.w >= 1.0 && r.h >= 1.0
    ensures r.cx - b.xmin == b.xmax - r.cx && r.cy - b.ymin == b.ymax - r.cy
    ensures b.xmax - b.xmin >= 1.0 ==> r.w == b.xmax - b.xmin
    ensures b.ymax - b.ymin >= 1.0 ==> r.h == b.ymax - b.ymin
    ensures WellFormed(b) ==> b.xmin <= r.cx <= b.xmax && b.ymin <= r.cy <= b.ymax
  {
    Shape((b.xmin + b.xmax) / 2.0, (b.ymin + b.ymax) / 2.0,
          Max(1.0, b.xmax - b.xmin), Max(1.0, b.ymax - b.ymin))
  }

  /**
   * `ttc_from_heights`: with distance proxy 1/h, the closing rate is
   * (1/hPrev - 1/hCurr)/dt and the time to collision is (1/hCurr)/rate;
   * undefined unless both heights are positive and the object approaches
   * faster than `Eps`.
   */
  function TtcFromHeights(hPrev: real, hCurr: real, dt: real): (r: Option<real>)
    requires hPrev > 0.0 && hCurr > 0.0 ==> dt != 0.0
    ensures r.Some? <==> hPrev > 0.0 && hCurr > 0.0 && (1.0 / hPrev - 1.0 / hCurr) / dt > Eps
    ensures r.Some? ==> r.value > 0.0
    ensures r.Some? ==> r.value * ((1.0 / hPrev - 1.0 / hCurr) / dt) == 1.0 / hCurr
  {
    if hPrev <= 0.0 || hCurr <= 0.0 then None
    else
      var dPrev, dCurr := 1.0 / hPrev, 1.0 / hCurr;
      var v := (dPrev - dCurr) / dt;
      if v <= Eps then None
      else
        assert dCurr / v * v == dCurr;
        Some(dCurr / v)
  }

  /** Closed form: TTC = dt * hPrev / (hCurr - hPrev). */
  lemma TtcClosedForm(hPrev: real, hCurr: real, dt: real)
    requires hPrev > 0.0 && hCurr > 0.0 && dt != 0.0
    requires TtcFromHeights(hPrev, hCurr, dt).Some?
    ensures hCurr != hPrev
    ensures TtcFromHeights(hPrev, hCurr, dt).value == dt * hPrev / (hCurr - hPrev)
  {
    var dPrev, dCurr := 1.0 / hPrev, 1.0 / hCurr;
    assert dPrev - dCurr == (hCurr - hPrev) / (hPrev * hCurr) by {
      assert dPrev * hPrev == 1.0 && dCurr * hCurr == 1.0;
      assert dPrev * (hPrev * hCurr) == (dPrev * hPrev) * hCurr == hCurr;
      assert dCurr * (hPrev * hCurr) == (dCurr * hCurr) * hPrev == hPrev;
    }
    var v := (dPrev - dCurr) / dt;
    assert v != 0.0;
    assert hCurr != hPrev;
    var t := TtcFromHeights(hPrev, hCurr, dt).value;
    assert t * v == dCurr;
    assert t * (hCurr - hPrev) == dt * hPrev by {
      assert v * dt == (hCurr - hPrev) / (hPrev * hCurr);
      assert t * ((hCurr - hPrev) / (hPrev * hCurr)) == dt / hCurr;
    }
  }

  /** A box that does not grow over a positive time step never yields a TTC. */
  lemma NonGrowingHasNoTtc(hPrev: real, hCurr: real, dt: real)
    requires dt > 0.0 && hCurr <= hPrev
    ensures TtcFromHeights(hPrev, hCurr, dt) == None
  {
    if hPrev > 0.0 && hCurr > 0.0 {
      assert 1.0 / hPrev <= 1.0 / hCurr by {
        assert (1.0 / hPrev) * hPrev == 1.0;
        assert (1.0 / hCurr) * hCurr == 1.0;
        MulMono(hCurr, 1.0 / hPrev, hPrev, 1.0 / hPrev);
      }
      assert (1.0 / hPrev - 1.0 / hCurr) / dt <= 0.0;
    }
  }
}
