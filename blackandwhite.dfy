/** The greyscale colouriser (py3/colors/black_and_white.py, and the same
    function at the top of colors/old_colors.py): counts reaching
    iterations - 1 are black, others a grey level proportional to the
    count. */
module BlackAndWhite {

  import Fractions

  /** The grey level floor(value / iterations * 255). */
  function GreyLevel(value: int, iterations: int): int
    requires iterations != 0
  {
    ((value as real) / (iterations as real) * 255.0).Floor
  }

  /** Below the cap the level grows with the count, from 0 at a count of 0
      up to 255 at the cap. */
  lemma GreyLevelMonotone(value: int, value': int, iterations: int)
    requires 0 < iterations && value <= value'
    ensures GreyLevel(value, iterations) <= GreyLevel(value', iterations)
  {
    var n := iterations as real;
    assert (value' as real) / n - (value as real) / n == ((value' - value) as real) / n;
  }

  /** `colorize_black_and_white`: black once value + 1 reaches the cap,
      otherwise an equal triple whose level lies in [0, 254] for a
      non-negative count. The source divides by the cap only below the
      threshold, so a zero cap is an error only there. */
  function ColorizeBlackAndWhite(value: int, iterations: int): (rgb: (int, int, int))
    requires value + 1 >= iterations || iterations != 0
    ensures rgb.0 == rgb.1 == rgb.2
    ensures value + 1 >= iterations ==> rgb == (0, 0, 0)
    ensures 0 <= value && value + 1 < iterations ==> 0 <= rgb.0 <= 254
    ensures value + 1 < iterations ==> rgb.0 == GreyLevel(value, iterations)
  {
    if value + 1 >= iterations then (0, 0, 0)
    else
      var v := GreyLevel(value, iterations);
      assert 0 <= value ==> 0 <= v <= 254 by {
        if 0 < value {
          Fractions.FractionInside(value as real, iterations as real);
        }
      }
      (v, v, v)
  }

  /** `create_colorize_black_and_white`: a closure over the cap that
      accepts every count the function does and agrees with it. */
  function CreateColorizeBlackAndWhite(iterations: int): (f: int --> (int, int, int))
    ensures forall value :: value + 1 >= iterations || iterations != 0 ==>
      f.requires(value) && f(value) == ColorizeBlackAndWhite(value, iterations)
  {
    (value: int) requires value + 1 >= iterations || iterations != 0 =>
      ColorizeBlackAndWhite(value, iterations)
  }
}
