/** mandelbrot.py: the Python prototype's pixel pipeline over the fixed
    viewport [-2.5, 1] x [-1, 1]: pixel centre to plane point, escape count
    (Escape.Solve, the same loop as `solve`), and grey colour. */
module PyMandelbrot {

  import opened Escape
  import Viewport
  import Fractions
  import BlackAndWhite

  const XMin: real := -2.5
  const XMax: real := 1.0
  const YMin: real := -1.0
  const YMax: real := 1.0
  const XRange: real := XMax - XMin
  const YRange: real := YMax - YMin

  /** `pixel_to_coordinate`: an in-range pixel maps strictly inside the viewport. */
  function PixelToCoordinate(px: int, py: int, width: int, height: int): (c: Point)
    requires width != 0 && height != 0
    ensures 0 <= px < width ==> XMin < c.x < XMax
    ensures 0 <= py < height ==> YMin < c.y < YMax
  {
    var x := Viewport.PxToPlane(px, width, XMin, XRange);
    var y := Viewport.PyToPlane(py, height, YMin, YRange);
    assert 0 <= px < width ==> XMin < x < XMax by {
      if 0 <= px < width {
        Viewport.PxInside(px, width, XMin, XRange);
      }
    }
    assert 0 <= py < height ==> YMin < y < YMax by {
      if 0 <= py < height {
        Viewport.PyInside(py, height, YMin, YRange);
      }
    }
    Point(x, y)
  }

  /** Moving right increases x, moving down decreases y, and each
      coordinate depends only on its own pixel index. */
  lemma PixelToCoordinateMonotone(px: int, py: int, px': int, py': int, width: int, height: int)
    requires 0 < width && 0 < height
    ensures px < px' ==> PixelToCoordinate(px, py, width, height).x < PixelToCoordinate(px', py', width, height).x
    ensures py < py' ==> PixelToCoordinate(px', py', width, height).y < PixelToCoordinate(px, py, width, height).y
    ensures px == px' ==> PixelToCoordinate(px, py, width, height).x == PixelToCoordinate(px', py', width, height).x
  {
    if px < px' {
      Viewport.PxIncreasing(px, px', width, XMin, XRange);
    }
    if py < py' {
      Viewport.PyDecreasing(py, py', height, YMin, YRange);
    }
  }

  /** `colorize`: the grey level of a count, 0 for a count of 0 and 255 at
      the cap (non-decreasing in the count: BlackAndWhite.GreyLevelMonotone). */
  function Colorize(value: int, iterations: int): (level: int)
    requires iterations != 0
    ensures value == 0 ==> level == 0
    ensures value == iterations ==> level == 255
    ensures 0 <= value <= iterations ==> 0 <= level <= 255
  {
    var level := BlackAndWhite.GreyLevel(value, iterations);
    assert 0 <= value <= iterations ==> 0 <= level <= 255 by {
      if 0 < value < iterations {
        Fractions.FractionInside(value as real, iterations as real);
      }
    }
    assert value == iterations ==> level == 255 by {
      if value == iterations {
        Fractions.WholeFraction(iterations as real);
      }
    }
    level
  }

  /** `process_pixel`: the pixel's own indices paired with the escape count
      of its centre. */
  function ProcessPixel(px: int, py: int, width: int, height: int, iterations: int): (r: (int, int, int))
    requires width != 0 && height != 0
    ensures r.0 == px && r.1 == py
    ensures IsEscapeCount(PixelToCoordinate(px, py, width, height).x,
                          PixelToCoordinate(px, py, width, height).y, iterations, r.2)
  {
    var c := PixelToCoordinate(px, py, width, height);
    EscapeTimeIsFirstEscape(c.x, c.y, iterations);
    (px, py, EscapeTime(c.x, c.y, iterations))
  }

  /** A full prototype pixel: `colorize(solve(pixel_to_coordinate(..)))`
      with the loop of `solve`; with a positive cap the level is a byte. */
  method PixelColour(px: int, py: int, width: int, height: int, iterations: int) returns (level: int)
    requires width != 0 && height != 0 && iterations != 0
    ensures level == Colorize(ProcessPixel(px, py, width, height, iterations).2, iterations)
    ensures iterations > 0 ==> 0 <= level <= 255
  {
    var c := PixelToCoordinate(px, py, width, height);
    var v := Solve(c.x, c.y, iterations);
    level := Colorize(v, iterations);
  }
}
