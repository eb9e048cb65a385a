/** colors/old_colors.py: the fixed gradient over the fraction value /
    iterations, searched front to back. */
module OldColors {

  import opened Wrappers
  import opened Ranges

  const White := Color(255.0, 255.0, 255.0)

  /** The step list GRADIENTS is built from. */
  const Steps: seq<Step> := [
    Step(0.0, Color(0.0, 0.0, 31.0)),
    Step(0.02, Color(23.0, 53.0, 95.0)),
    Step(0.05, Color(32.0, 99.0, 155.0)),
    Step(0.15, Color(60.0, 174.0, 163.0)),
    Step(0.4, Color(246.0, 213.0, 92.0)),
    Step(0.9, Color(237.0, 85.0, 59.0)),
    Step(0.9998, White),
    Step(0.9999, White),
    Step(0.99991, Black),
    Step(1.00001, Black)
  ]

  /** GRADIENTS: nine non-empty ranges tiling [0, 1.00001), the last one
      black over [0.99991, 1.00001). */
  function Gradients(toHsv: Color -> Color): (g: seq<Range>)
    ensures |g| == 9
    ensures WellFormed(g)
    ensures forall k :: 0 <= k < 9 ==> g[k].lo < g[k].hi
    ensures g[0].lo == 0.0 && g[8].hi == 1.00001
    ensures g[8] == Range(0.99991, 1.00001, toHsv(Black), toHsv(Black))
  {
    assert Increasing(Steps);
    PairsWellFormed(Steps, toHsv);
    PairsNonEmpty(Steps, toHsv);
    assert Pairs(Steps, toHsv)[8] == PairAt(Steps, 8, toHsv);
    Pairs(Steps, toHsv)
  }

  /** `colorize_gradient`: the colour of the first range holding value /
      iterations, or black (not passed through to_rgb) when none does. A
      zero cap is a division by zero in the source. */
  method ColorizeGradient(value: int, iterations: int, toHsv: Color -> Color, toRgb: Color -> Color)
    returns (rgb: Color)
    requires iterations != 0
    ensures rgb == ScanColor(Gradients(toHsv), (value as real) / (iterations as real), toRgb, Black)
  {
    var gradients := Gradients(toHsv);
    var nominal := (value as real) / (iterations as real);
    for k := 0 to |gradients|
      invariant forall j :: 0 <= j < k ==> !Contains(gradients[j], nominal)
    {
      var r := gradients[k];
      if r.lo <= nominal < r.hi {
        var i := (nominal - r.lo) / (r.hi - r.lo);
        assert FirstContaining(gradients, nominal) == Some(k);
        return toRgb(Lerp(r.c1, r.c2, i));
      }
    }
    assert FirstContaining(gradients, nominal) == None;
    return Black;
  }

  /** A fraction in [0, 1.00001) lies in exactly one range; any other
      fraction (a negative count, or one past the cap) is black. */
  lemma OutsideIsBlack(toHsv: Color -> Color, toRgb: Color -> Color, nominal: real)
    ensures FirstContaining(Gradients(toHsv), nominal).Some? <==> 0.0 <= nominal < 1.00001
    ensures !(0.0 <= nominal < 1.00001) ==> ScanColor(Gradients(toHsv), nominal, toRgb, Black) == Black
  {
    SpanCovered(Gradients(toHsv), nominal);
  }

  /** The fraction 1 (a count equal to the cap) falls in the final black range. */
  lemma CapIsBlack(toHsv: Color -> Color, toRgb: Color -> Color)
    ensures ScanColor(Gradients(toHsv), 1.0, toRgb, Black) == toRgb(toHsv(Black))
  {
    var g := Gradients(toHsv);
    OnlyOwner(g, 1.0, 8);
  }
}
