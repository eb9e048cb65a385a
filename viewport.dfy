/** Pixel-centre maps from pixel indices to the complex plane, shared by the
    C renderers (`px_to_coordinate`, `py_to_coordinate`) and the Python
    prototype (`pixel_to_coordinate`). Column `px` is sampled at px + 0.5;
    row `py` is flipped so that row 0 is the top (the y_max side). */
module Viewport {

  import opened Fractions

  /** x of the centre of column `px` of `width` columns over [xMin, xMin + xRange]. */
  function PxToPlane(px: int, width: int, xMin: real, xRange: real): real
    requires width != 0
  {
    xMin + (((px as real) + 0.5) / (width as real)) * xRange
  }

  /** y of the centre of row `py` of `height` rows over [yMin, yMin + yRange],
      counted from the top. */
  function PyToPlane(py: int, height: int, yMin: real, yRange: real): real
    requires height != 0
  {
    var h := height as real;
    yMin + ((h - ((py as real) + 0.5)) / h) * yRange
  }

  /** A column of the image lands strictly inside the horizontal span. */
  lemma PxInside(px: int, width: int, xMin: real, xRange: real)
    requires 0 <= px < width && 0.0 < xRange
    ensures xMin < PxToPlane(px, width, xMin, xRange) < xMin + xRange
  {
    var f := ((px as real) + 0.5) / (width as real);
    FractionInside((px as real) + 0.5, width as real);
    ScaleInside(f, xRange);
  }

  /** The horizontal map increases with the column index. */
  lemma PxIncreasing(px: int, px': int, width: int, xMin: real, xRange: real)
    requires px < px' && 0 < width && 0.0 < xRange
    ensures PxToPlane(px, width, xMin, xRange) < PxToPlane(px', width, xMin, xRange)
  {
    var w := width as real;
    assert ((px as real) + 0.5) / w < ((px' as real) + 0.5) / w;
    ScaleMonotone(((px as real) + 0.5) / w, ((px' as real) + 0.5) / w, xRange);
  }

  /** A row of the image lands strictly inside the vertical span. */
  lemma PyInside(py: int, height: int, yMin: real, yRange: real)
    requires 0 <= py < height && 0.0 < yRange
    ensures yMin < PyToPlane(py, height, yMin, yRange) < yMin + yRange
  {
    var h := height as real;
    var f := (h - ((py as real) + 0.5)) / h;
    FractionInside(h - ((py as real) + 0.5), h);
    ScaleInside(f, yRange);
  }

  /** The vertical map decreases as the row index grows: row 0 is the top. */
  lemma PyDecreasing(py: int, py': int, height: int, yMin: real, yRange: real)
    requires py < py' && 0 < height && 0.0 < yRange
    ensures PyToPlane(py', height, yMin, yRange) < PyToPlane(py, height, yMin, yRange)
  {
    var h := height as real;
    var f := (h - ((py as real) + 0.5)) / h;
    var f' := (h - ((py' as real) + 0.5)) / h;
    assert f' < f;
    ScaleMonotone(f', f, yRange);
  }
}
