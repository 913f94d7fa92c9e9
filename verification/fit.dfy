/**
 * The fit calculator of main.js (`calcFit`): scale a source size by the
 * smaller of the two ratios `maxW / origW` and `maxH / origH`, which gives
 * the largest aspect-preserving size that fits inside the box. Small images
 * are scaled up, because nothing clamps the factor at 1.
 *
 * Sizes are exact rationals (`real`); IEEE-754 rounding is not modelled.
 */
module Fit {

  /** A width and a height in canvas pixels. */
  datatype Size = Size(w: real, h: real)

  /** `Math.min` on two finite numbers. */
  function Min(a: real, b: real): (m: real)
    ensures m <= a && m <= b
    ensures m == a || m == b
  {
    if a <= b then a else b
  }

  /** The box holds the size: it is positive and no larger than the box. */
  ghost predicate FitsIn(sz: Size, maxW: real, maxH: real) {
    0.0 < sz.w <= maxW && 0.0 < sz.h <= maxH
  }

  /** The size has the aspect ratio `origW : origH`. */
  ghost predicate SameAspect(sz: Size, origW: real, origH: real) {
    sz.w * origH == sz.h * origW
  }

  /** The size touches the box on at least one side. */
  ghost predicate Touches(sz: Size, maxW: real, maxH: real) {
    sz.w == maxW || sz.h == maxH
  }

  /** Multiplying both sides of `a <= b` by a positive factor. */
  lemma MulLe(a: real, b: real, k: real)
    requires a <= b && k > 0.0
    ensures a * k <= b * k
  {
  }

  /** Multiplying both sides of `a < b` by a positive factor. */
  lemma MulLt(a: real, b: real, k: real)
    requires a < b && k > 0.0
    ensures a * k < b * k
  {
  }

  /** `k * (n / k) == n` for a positive divisor. */
  lemma MulDivCancel(k: real, n: real)
    requires k > 0.0
    ensures k * (n / k) == n
  {
  }

  /**
   * The scale factor of `calcFit`: the smaller of the two ratios. Applied to
   * the source size it stays inside the box and reaches it on one side.
   */
  function FitScale(origW: real, origH: real, maxW: real, maxH: real): (s: real)
    requires origW > 0.0 && origH > 0.0 && maxW > 0.0 && maxH > 0.0
    ensures s > 0.0
    ensures origW * s <= maxW && origH * s <= maxH
    ensures origW * s == maxW || origH * s == maxH
  {
    var sw := maxW / origW;
    var sh := maxH / origH;
    MulDivCancel(origW, maxW);
    MulDivCancel(origH, maxH);
    var s := Min(sw, sh);
    MulLe(s, sw, origW);
    MulLe(s, sh, origH);
    s
  }

  /**
   * `calcFit(origW, origH, maxW, maxH)`: the source size scaled by
   * `FitScale`. The result fits in the box, keeps the source's aspect ratio
   * exactly and touches the box on at least one side.
   */
  function CalcFit(origW: real, origH: real, maxW: real, maxH: real): (r: Size)
    requires origW > 0.0 && origH > 0.0 && maxW > 0.0 && maxH > 0.0
    ensures 0.0 < r.w <= maxW && 0.0 < r.h <= maxH
    ensures r.w * origH == r.h * origW
    ensures r.w == maxW || r.h == maxH
  {
    var s := FitScale(origW, origH, maxW, maxH);
    Size(origW * s, origH * s)
  }

  /**
   * Among sizes of one aspect ratio, the wider one is also the taller one.
   */
  lemma AspectMonotone(origW: real, origH: real, a: Size, b: Size)
    requires origW > 0.0 && origH > 0.0
    requires SameAspect(a, origW, origH) && SameAspect(b, origW, origH)
    requires a.w <= b.w
    ensures a.h <= b.h
  {
    MulLe(a.w, b.w, origH);
    if a.h > b.h {
      MulLt(b.h, a.h, origW);
    }
  }

  /**
   * The fit is the LARGEST aspect-preserving size in the box: every other
   * size with the source's aspect ratio that the box holds is no larger in
   * either dimension.
   */
  lemma CalcFitIsLargest(origW: real, origH: real, maxW: real, maxH: real, other: Size)
    requires origW > 0.0 && origH > 0.0 && maxW > 0.0 && maxH > 0.0
    requires SameAspect(other, origW, origH) && FitsIn(other, maxW, maxH)
    ensures other.w <= CalcFit(origW, origH, maxW, maxH).w
    ensures other.h <= CalcFit(origW, origH, maxW, maxH).h
  {
    var r := CalcFit(origW, origH, maxW, maxH);
    if r.w == maxW {
      AspectMonotone(origW, origH, other, r);
    } else {
      AspectMonotone(origH, origW, Size(other.h, other.w), Size(r.h, r.w));
    }
  }

  /**
   * The three properties of `CalcFit` determine it: a size that keeps the
   * aspect ratio, fits in the box and touches it is the fit.
   */
  lemma CalcFitIsUnique(origW: real, origH: real, maxW: real, maxH: real, sz: Size)
    requires origW > 0.0 && origH > 0.0 && maxW > 0.0 && maxH > 0.0
    requires SameAspect(sz, origW, origH) && FitsIn(sz, maxW, maxH) && Touches(sz, maxW, maxH)
    ensures sz == CalcFit(origW, origH, maxW, maxH)
  {
    var r := CalcFit(origW, origH, maxW, maxH);
    CalcFitIsLargest(origW, origH, maxW, maxH, sz);
    if sz.w == maxW {
      assert sz.w == r.w;
      assert sz.h * origW == r.h * origW;
      if sz.h < r.h { MulLt(sz.h, r.h, origW); assert false; }
    } else {
      assert sz.h == r.h;
      assert sz.w * origH == r.w * origH;
      if sz.w < r.w { MulLt(sz.w, r.w, origH); assert false; }
    }
  }

  /**
   * Upscaling: a source that already fits in the box is never shrunk, and
   * one strictly smaller than the box on both sides is enlarged.
   */
  lemma CalcFitUpscales(origW: real, origH: real, maxW: real, maxH: real)
    requires origW > 0.0 && origH > 0.0 && maxW > 0.0 && maxH > 0.0
    requires origW <= maxW && origH <= maxH
    ensures CalcFit(origW, origH, maxW, maxH).w >= origW
    ensures CalcFit(origW, origH, maxW, maxH).h >= origH
    ensures origW < maxW && origH < maxH ==>
              CalcFit(origW, origH, maxW, maxH).w > origW && CalcFit(origW, origH, maxW, maxH).h > origH
  {
    CalcFitIsLargest(origW, origH, maxW, maxH, Size(origW, origH));
  }

  /**
   * The fit depends on the source only through its aspect ratio: scaling the
   * source by any positive factor gives the same fit.
   */
  lemma CalcFitScaleInvariant(origW: real, origH: real, maxW: real, maxH: real, k: real)
    requires origW > 0.0 && origH > 0.0 && maxW > 0.0 && maxH > 0.0 && k > 0.0
    ensures CalcFit(k * origW, k * origH, maxW, maxH) == CalcFit(origW, origH, maxW, maxH)
  {
    var r := CalcFit(k * origW, k * origH, maxW, maxH);
    assert r.w * (k * origH) == r.h * (k * origW);
    assert (r.w * origH) * k == (r.h * origW) * k;
    if r.w * origH < r.h * origW { MulLt(r.w * origH, r.h * origW, k); assert false; }
    if r.w * origH > r.h * origW { MulLt(r.h * origW, r.w * origH, k); assert false; }
    CalcFitIsUnique(origW, origH, maxW, maxH, r);
  }
}
