/**
 * The placement arithmetic of `drawTopBottom` in main.js: on a fixed A3
 * portrait canvas, each of two images is fitted into the box (canvas width,
 * half the canvas height), centred horizontally, and anchored to the
 * midline: the top image's bottom edge and the bottom image's top edge both
 * lie on it. The two `drawImage` calls that paint the rectangles are not
 * modelled; the rectangles they receive are the result.
 */
module Layout {
  import opened Fit

  /** `A3_WIDTH` and `A3_HEIGHT`: the canvas, 3508 x 4961 pixels. */
  const A3Width: real := 3508.0
  const A3Height: real := 4961.0

  /** `halfH`: the height of each half and the y coordinate of the midline. */
  const HalfHeight: real := A3Height / 2.0

  /** The arguments `(x, y, w, h)` of one `drawImage` call. */
  datatype Rect = Rect(x: real, y: real, w: real, h: real) {
    function Right(): real { x + w }
    function Bottom(): real { y + h }
  }

  /** Where the top and the bottom image are drawn. */
  datatype Placement = Placement(top: Rect, bottom: Rect)

  /** The rectangle lies inside the canvas. */
  ghost predicate OnCanvas(r: Rect) {
    0.0 <= r.x && r.Right() <= A3Width && 0.0 <= r.y && r.Bottom() <= A3Height
  }

  /** The rectangle has equal margins to its left and to its right. */
  ghost predicate Centred(r: Rect) {
    r.x == A3Width - r.Right()
  }

  /** The rectangle is the fit of the source `src` into one half of the canvas. */
  ghost predicate FittedToHalf(r: Rect, src: Size)
    requires src.w > 0.0 && src.h > 0.0
  {
    Size(r.w, r.h) == CalcFit(src.w, src.h, A3Width, HalfHeight)
  }

  /**
   * `drawTopBottom(topImg, bottomImg)`, with each image given by its natural
   * size. The top image sits on the midline from above, the bottom image
   * hangs from it; both are centred, inside the canvas, keep their aspect
   * ratio and fill their half in width or in height.
   */
  function DrawTopBottom(topImg: Size, bottomImg: Size): (p: Placement)
    requires topImg.w > 0.0 && topImg.h > 0.0 && bottomImg.w > 0.0 && bottomImg.h > 0.0
    ensures p.top.Bottom() == HalfHeight && p.bottom.y == HalfHeight
    ensures Centred(p.top) && Centred(p.bottom)
    ensures OnCanvas(p.top) && OnCanvas(p.bottom)
    ensures p.top.Bottom() <= p.bottom.y
    ensures p.top.w * topImg.h == p.top.h * topImg.w
    ensures p.bottom.w * bottomImg.h == p.bottom.h * bottomImg.w
    ensures p.top.w == A3Width || p.top.h == HalfHeight
    ensures p.bottom.w == A3Width || p.bottom.h == HalfHeight
    ensures FittedToHalf(p.top, topImg) && FittedToHalf(p.bottom, bottomImg)
  {
    var halfH := HalfHeight;
    var topFit := CalcFit(topImg.w, topImg.h, A3Width, halfH);
    var bottomFit := CalcFit(bottomImg.w, bottomImg.h, A3Width, halfH);
    var topX := (A3Width - topFit.w) / 2.0;
    var topY := halfH - topFit.h;
    var bottomX := (A3Width - bottomFit.w) / 2.0;
    var bottomY := halfH;
    Placement(Rect(topX, topY, topFit.w, topFit.h), Rect(bottomX, bottomY, bottomFit.w, bottomFit.h))
  }

  /**
   * The placement is determined by its properties: two rectangles that are
   * the halves' fits, centred, and anchored to the midline are exactly what
   * `DrawTopBottom` returns.
   */
  lemma DrawTopBottomIsUnique(topImg: Size, bottomImg: Size, p: Placement)
    requires topImg.w > 0.0 && topImg.h > 0.0 && bottomImg.w > 0.0 && bottomImg.h > 0.0
    requires SameAspect(Size(p.top.w, p.top.h), topImg.w, topImg.h)
    requires SameAspect(Size(p.bottom.w, p.bottom.h), bottomImg.w, bottomImg.h)
    requires FitsIn(Size(p.top.w, p.top.h), A3Width, HalfHeight)
    requires FitsIn(Size(p.bottom.w, p.bottom.h), A3Width, HalfHeight)
    requires Touches(Size(p.top.w, p.top.h), A3Width, HalfHeight)
    requires Touches(Size(p.bottom.w, p.bottom.h), A3Width, HalfHeight)
    requires Centred(p.top) && Centred(p.bottom)
    requires p.top.Bottom() == HalfHeight && p.bottom.y == HalfHeight
    ensures p == DrawTopBottom(topImg, bottomImg)
  {
    CalcFitIsUnique(topImg.w, topImg.h, A3Width, HalfHeight, Size(p.top.w, p.top.h));
    CalcFitIsUnique(bottomImg.w, bottomImg.h, A3Width, HalfHeight, Size(p.bottom.w, p.bottom.h));
  }

  /**
   * Anchoring to the midline, not centring in the half: a gap opens above
   * the top image exactly when its fit is shorter than the half, and below
   * the bottom image under the same condition for it.
   */
  lemma GapsAtCanvasEdges(topImg: Size, bottomImg: Size)
    requires topImg.w > 0.0 && topImg.h > 0.0 && bottomImg.w > 0.0 && bottomImg.h > 0.0
    ensures var p := DrawTopBottom(topImg, bottomImg);
            (p.top.y > 0.0 <==> p.top.h < HalfHeight) &&
            (p.bottom.Bottom() < A3Height <==> p.bottom.h < HalfHeight)
  {
  }

  /**
   * Which side of the half a source fills: one at least as wide as the half
   * (width over height at least `A3Width / HalfHeight`) fills the canvas
   * width, one at most as wide fills the half's height.
   */
  lemma WidthOrHeightBound(src: Size)
    requires src.w > 0.0 && src.h > 0.0
    ensures var r := CalcFit(src.w, src.h, A3Width, HalfHeight);
            (src.w * HalfHeight >= src.h * A3Width ==> r.w == A3Width) &&
            (src.w * HalfHeight <= src.h * A3Width ==> r.h == HalfHeight)
  {
  }

  /**
   * A landscape 800 x 600 image on top and a portrait 600 x 800 image below:
   * both are height-bound, fill their half exactly, and are centred.
   */
  lemma LandscapeOverPortrait()
    ensures DrawTopBottom(Size(800.0, 600.0), Size(600.0, 800.0)) ==
            Placement(Rect(301.0 / 3.0, 0.0, 9922.0 / 3.0, 2480.5),
                      Rect(823.8125, 2480.5, 1860.375, 2480.5))
  {
    CalcFitIsUnique(800.0, 600.0, A3Width, HalfHeight, Size(9922.0 / 3.0, 2480.5));
    CalcFitIsUnique(600.0, 800.0, A3Width, HalfHeight, Size(1860.375, 2480.5));
  }

  /**
   * A square 1000 x 1000 image is height-bound: it is fitted to
   * 2480.5 x 2480.5, centred at x = 513.75, and fills its half, so no gap
   * opens at either edge of the canvas.
   */
  lemma SquareImage()
    ensures DrawTopBottom(Size(1000.0, 1000.0), Size(1000.0, 1000.0)) ==
            Placement(Rect(513.75, 0.0, 2480.5, 2480.5), Rect(513.75, 2480.5, 2480.5, 2480.5))
  {
    CalcFitIsUnique(1000.0, 1000.0, A3Width, HalfHeight, Size(2480.5, 2480.5));
  }
}
