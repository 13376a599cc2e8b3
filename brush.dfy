/** Brush width, magnifier size and magnifier placement: the arithmetic of the
    sticker editor, over `real` in place of `CGFloat`. */
module Brush {
  import opened Raster

  /** The size slider's range and starting value. */
  const SliderMin: real := 2.0
  const SliderMax: real := 10.0
  const SliderStart: real := 5.5

  /** Magnifier crop sides and the brush sizes where the mapping changes branch. */
  const MaxUnderFinger: real := 400.0
  const MinUnderFinger: real := 200.0
  const CeilingSize: real := 80.0
  const BaseSize: real := 10.0

  /** Extent of the corner region in which the right magnifier is used. */
  const Corner: real := 150.0

  /** Stroke width: the square of the slider value. */
  function BrushSize(v: real): (b: real)
    ensures b >= 0.0
    ensures SliderMin <= v <= SliderMax ==> 4.0 <= b <= 100.0
  {
    SquareInSliderRange(v);
    v * v
  }

  /** Multiplying by a non-negative factor keeps the order. */
  lemma MulMonotone(a: real, b: real, c: real)
    requires 0.0 <= a && b <= c
    ensures a * b <= a * c
  {
  }

  /** Multiplying by a positive factor keeps the strict order. */
  lemma MulStrict(a: real, b: real, c: real)
    requires 0.0 < a && b < c
    ensures b * a < c * a
  {
  }

  /** Every value in the slider's range squares to a width in [4,100]. */
  lemma SquareInSliderRange(v: real)
    ensures SliderMin <= v <= SliderMax ==> 4.0 <= v * v <= 100.0
  {
    if SliderMin <= v <= SliderMax {
      calc {
        4.0;
      <=
        2.0 * v;
      <= { MulMonotone(v, 2.0, v); assert v * 2.0 == 2.0 * v; }
        v * v;
      }
      calc {
        v * v;
      <= { MulMonotone(v, v, 10.0); }
        v * 10.0;
      <=
        100.0;
      }
    }
  }

  /** Over the non-negative slider values, a larger value gives a strictly wider brush. */
  lemma BrushSizeIncreasing(v: real, w: real)
    requires 0.0 <= v < w
    ensures BrushSize(v) < BrushSize(w)
  {
    calc {
      BrushSize(v);
    ==
      v * v;
    <= { MulMonotone(v, v, w); }
      v * w;
    < { MulStrict(w, v, w); }
      w * w;
    ==
      BrushSize(w);
    }
  }

  /** Side of the square cut out for the magnifier, for brush size `b`. */
  function PreviewSize(b: real): (r: real)
    ensures MinUnderFinger <= r <= MaxUnderFinger
    ensures r == MaxUnderFinger <==> b > CeilingSize
    ensures r == MinUnderFinger <==> b <= BaseSize
  {
    if b > CeilingSize then MaxUnderFinger
    else if b < BaseSize then MinUnderFinger
    else ((b - BaseSize) / CeilingSize) * (MaxUnderFinger - MinUnderFinger) + MinUnderFinger
  }

  /** A wider brush never gets a smaller magnifier. */
  lemma PreviewSizeMonotone(b: real, c: real)
    requires b <= c
    ensures PreviewSize(b) <= PreviewSize(c)
  {
    if BaseSize <= b && c <= CeilingSize {
      assert (c - BaseSize) / CeilingSize - (b - BaseSize) / CeilingSize == (c - b) / CeilingSize;
    }
  }

  /** The values at and between the branch points. The middle branch
      divides by 80 rather than by 80 - 10, so at brush size 80 it reaches
      only 375. */
  lemma PreviewSizeLandmarks()
    ensures PreviewSize(BaseSize) == MinUnderFinger
    ensures PreviewSize(45.0) == 287.5
    ensures PreviewSize(CeilingSize) == 375.0
  {
  }

  /** Every brush size above 80 gets 25 more than brush size 80 does: the
      mapping jumps at 80. */
  lemma PreviewSizeJumpAboveCeiling(b: real)
    requires b > CeilingSize
    ensures PreviewSize(b) == PreviewSize(CeilingSize) + 25.0
  {
  }

  /** Moving the slider up never shrinks the magnifier. */
  lemma {:induction false} PreviewGrowsWithSlider(v: real, w: real)
    requires 0.0 <= v <= w
    ensures PreviewSize(BrushSize(v)) <= PreviewSize(BrushSize(w))
  {
    if v < w {
      BrushSizeIncreasing(v, w);
    }
    PreviewSizeMonotone(BrushSize(v), BrushSize(w));
  }

  /** Whether the touch is in the top-left corner, where the magnifier is
      shown on the right so the finger does not cover it. */
  function ShowRight(p: Point): bool
  {
    p.x < Corner && p.y < Corner
  }

  /** The region where the right magnifier is used is closed towards the
      top-left: moving a point up or left never switches it to the left one. */
  lemma ShowRightTowardsCorner(p: Point, q: Point)
    requires p.x <= q.x && p.y <= q.y
    ensures ShowRight(q) ==> ShowRight(p)
  {
  }
}
