/** Facts about scaling by a fraction, used by the viewport maps and by the
    colourisers that divide a count by the iteration cap. */
module Fractions {

  lemma ScaleInside(f: real, range: real)
    requires 0.0 < f < 1.0 && 0.0 < range
    ensures 0.0 < f * range < range
  {
  }

  lemma FractionInside(a: real, w: real)
    requires 0.0 < a < w
    ensures 0.0 < a / w < 1.0
  {
    if a / w >= 1.0 {
      ScaleMonotone(1.0, a / w, w);
      assert false;
    }
  }

  lemma ScaleMonotone(f: real, g: real, range: real)
    requires f < g && 0.0 < range
    ensures f * range < g * range
  {
    assert g * range - f * range == (g - f) * range;
  }

  lemma WholeFraction(w: real)
    requires w != 0.0
    ensures w / w == 1.0
  {
  }
}
