/** colors/gradient.py: the iteration-count gradient. `create_gradient`
    lays out a step list over [0, iterations + 2) -- a dark blue start, one
    pair of palette steps every 50 iterations while at least 52 remain, and
    black from iterations - 1 on -- and the closure of
    `create_colorize_gradient` finds a value's range by binary search. */
module Gradient {

  import opened Ranges

  /** COLORS. */
  const Palette: seq<Color> := [
    Color(23.0, 53.0, 95.0),
    Color(32.0, 99.0, 155.0),
    Color(60.0, 174.0, 163.0),
    Color(246.0, 213.0, 92.0),
    Color(237.0, 85.0, 59.0),
    Color(191.0, 160.0, 255.0)
  ]

  const Start := Color(0.0, 0.0, 31.0)

  /** How many palette pairs the loop adds from counter `i` on. */
  function PassCountFrom(iterations: int, i: int): nat
    decreases iterations - i
  {
    if i + 51 < iterations then 1 + PassCountFrom(iterations, i + 50) else 0
  }

  /** One palette pair per 50 iterations while at least 52 remain. */
  lemma {:induction false} PassCountClosed(iterations: int, i: int)
    ensures PassCountFrom(iterations, i) ==
      if iterations - i <= 51 then 0 else (iterations - i - 52) / 50 + 1
    decreases iterations - i
  {
    if i + 51 < iterations {
      PassCountClosed(iterations, i + 50);
    }
  }

  /** The number of palette pairs `create_gradient` adds. */
  function PassCount(iterations: int): nat {
    if iterations <= 51 then 0 else (iterations - 52) / 50 + 1
  }

  /** Step j of the passes from counter `i` and palette position `c`: pass
      j / 2 places its steps at 50 (j / 2) + 35 and 50 (j / 2) + 50 after
      `i`, in the palette colour j / 2 places after `c`, cycling. */
  function PassStep(i: int, c: nat, j: nat): Step {
    Step((i + 50 * (j / 2) + (if j % 2 == 0 then 35 else 50)) as real, Palette[(c + j / 2) % |Palette|])
  }

  /** Step j from counter i is step j - 2 of the next pass. */
  lemma PassStepShift(i: int, c: nat, j: nat)
    requires c < |Palette| && j >= 2
    ensures PassStep(i + 50, (c + 1) % |Palette|, j - 2) == PassStep(i, c, j)
  {
    assert (j - 2) / 2 == j / 2 - 1 && (j - 2) % 2 == j % 2;
    assert ((c + 1) % 6 + (j - 2) / 2) % 6 == (c + j / 2) % 6;
  }

  /** The steps the loop of `create_gradient` appends from counter `i` and
      palette position `c` on: two per pass, laid out as `PassStep` says. */
  function Passes(iterations: int, i: int, c: nat): (r: seq<Step>)
    requires c < |Palette|
    ensures |r| == 2 * PassCountFrom(iterations, i)
    ensures forall j :: 0 <= j < |r| ==> r[j] == PassStep(i, c, j)
    decreases iterations - i
  {
    if i + 51 < iterations then
      var c' := (c + 1) % |Palette|;
      var rest := Passes(iterations, i + 50, c');
      var r := [Step((i + 35) as real, Palette[c]), Step((i + 50) as real, Palette[c])] + rest;
      assert forall j :: 2 <= j < |r| ==> r[j] == PassStep(i, c, j) by {
        forall j | 2 <= j < |r|
          ensures r[j] == PassStep(i, c, j)
        {
          assert r[j] == rest[j - 2];
          PassStepShift(i, c, j);
        }
      }
      r
    else []
  }

  /** The step list of `create_gradient`, before pairing: dark blue at 0,
      then the palette pairs, then black at iterations - 1 and
      iterations + 2. */
  function GradientSteps(iterations: int): (s: seq<Step>)
    ensures |s| == 2 * PassCount(iterations) + 3
    ensures s[0] == Step(0.0, Start)
    ensures forall j :: 0 <= j < 2 * PassCount(iterations) ==> s[j + 1] == PassStep(0, 0, j)
    ensures s[2 * PassCount(iterations) + 1] == Step((iterations - 1) as real, Black)
    ensures s[2 * PassCount(iterations) + 2] == Step((iterations + 2) as real, Black)
  {
    PassCountClosed(iterations, 0);
    [Step(0.0, Start)] + Passes(iterations, 0, 0)
      + [Step((iterations - 1) as real, Black), Step((iterations + 2) as real, Black)]
  }

  /** The steps never go down when iterations >= 1, and strictly increase
      when iterations >= 2; the last palette step lies below iterations - 1. */
  lemma StepsOrdered(iterations: int)
    requires iterations >= 1
    ensures NonDecreasing(GradientSteps(iterations))
    ensures iterations >= 2 ==> Increasing(GradientSteps(iterations))
  {
    var s := GradientSteps(iterations);
    var n := PassCount(iterations);
    assert 50 * n <= iterations - 2 || n == 0;
    forall k | 0 <= k < |s| - 1
      ensures s[k].at <= s[k + 1].at
      ensures iterations >= 2 ==> s[k].at < s[k + 1].at
    {
      if k == 2 * n + 1 {
      } else if k == 2 * n {
        if n > 0 {
          assert s[k] == PassStep(0, 0, k - 1);
        }
      } else if k == 0 {
        assert s[1] == PassStep(0, 0, 0);
      } else {
        assert s[k] == PassStep(0, 0, k - 1) && s[k + 1] == PassStep(0, 0, k);
      }
    }
  }

  /** The table `create_gradient` returns: 2 * PassCount + 2 ranges from
      0 to iterations + 2, the last one black over [iterations - 1,
      iterations + 2), and searchable once iterations >= 1. */
  function Gradient(iterations: int, toHsv: Color -> Color): (g: seq<Range>)
    ensures |g| == 2 * PassCount(iterations) + 2
    ensures g[0].lo == 0.0
    ensures g[|g| - 1] == Range((iterations - 1) as real, (iterations + 2) as real, toHsv(Black), toHsv(Black))
    ensures iterations >= 1 ==> WellFormed(g)
  {
    var s := GradientSteps(iterations);
    var g := Pairs(s, toHsv);
    assert g[|g| - 1] == PairAt(s, |s| - 2, toHsv);
    if iterations >= 1 then
      StepsOrdered(iterations);
      PairsWellFormed(s, toHsv);
      g
    else g
  }

  /** `create_gradient`. */
  method CreateGradient(iterations: int, toHsv: Color -> Color) returns (gradient: seq<Range>)
    ensures gradient == Gradient(iterations, toHsv)
  {
    var steps := [Step(0.0, Start)];
    var i, c := 0, 0;
    while i + 51 < iterations
      invariant 0 <= c < |Palette|
      invariant steps + Passes(iterations, i, c) == [Step(0.0, Start)] + Passes(iterations, 0, 0)
      decreases iterations - i
    {
      assert Passes(iterations, i, c) == [Step((i + 35) as real, Palette[c]), Step((i + 50) as real, Palette[c])]
        + Passes(iterations, i + 50, (c + 1) % |Palette|);
      var i0 := i + 35;
      var i1 := i + 50;
      var color := Palette[c];
      c := (c + 1) % |Palette|;
      steps := steps + [Step(i0 as real, color)];
      steps := steps + [Step(i1 as real, color)];
      i := i + 50;
    }
    assert Passes(iterations, i, c) == [];
    steps := steps + [Step((iterations - 1) as real, Black)];
    steps := steps + [Step((iterations + 2) as real, Black)];
    assert steps == GradientSteps(iterations);
    gradient := PrepareGradient(steps, toHsv);
  }

  /** More of the table's shape: just two ranges while iterations <= 51,
      no empty range for iterations >= 2, and an empty first range [0, 0)
      at iterations = 1. */
  lemma GradientShape(iterations: int, toHsv: Color -> Color)
    ensures iterations <= 51 ==> |Gradient(iterations, toHsv)| == 2
    ensures iterations >= 2 ==> forall k :: 0 <= k < |Gradient(iterations, toHsv)| ==>
      Gradient(iterations, toHsv)[k].lo < Gradient(iterations, toHsv)[k].hi
    ensures iterations == 1 ==> Gradient(iterations, toHsv)[0].lo == Gradient(iterations, toHsv)[0].hi
  {
    if iterations >= 2 {
      StepsOrdered(iterations);
      PairsNonEmpty(GradientSteps(iterations), toHsv);
    }
  }

  /** The closure of `create_colorize_gradient`: binary search of the table
      `gradient` (built once by `create_gradient`) for the range holding
      `value`, then the interpolated colour of that range. The table must
      be searchable and cover `value`: otherwise no range holds it (see
      OutsideNeverFound) and the loop does not end. */
  method Colorize(gradient: seq<Range>, value: real, toRgb: Color -> Color) returns (rgb: Color)
    requires WellFormed(gradient) && InSpan(gradient, value)
    ensures FirstContaining(gradient, value).Some?
    ensures rgb == ColorIn(gradient[FirstContaining(gradient, value).value], value, toRgb)
  {
    SpanCovered(gradient, value);
    ghost var t := FirstContaining(gradient, value).value;
    OrderedAll(gradient);
    var imin, imax := 0, |gradient|;
    while true
      invariant 0 <= imin <= t < imax <= |gradient|
      decreases imax - imin
    {
      var i := (imin + imax) / 2;
      var r := gradient[i];
      if r.lo <= value < r.hi {
        var factor := (value - r.lo) / (r.hi - r.lo);
        OnlyOwner(gradient, value, i);
        rgb := toRgb(Lerp(r.c1, r.c2, factor));
        return;
      } else if value < r.lo {
        imax := i;
      } else if value >= r.hi {
        imin := i;
      }
    }
  }

  /** Every range of a searchable table ends no later than any later one starts. */
  lemma OrderedAll(g: seq<Range>)
    requires WellFormed(g)
    ensures forall i, j :: 0 <= i < j < |g| ==> g[i].hi <= g[j].lo
  {
    forall i, j | 0 <= i < j < |g|
      ensures g[i].hi <= g[j].lo
    {
      Ordered(g, i, j);
    }
  }

  /** For iterations >= 1 the table holds exactly the values of
      [0, iterations + 2): those are the values the search can be given. */
  lemma GradientCovers(iterations: int, toHsv: Color -> Color, value: real)
    requires iterations >= 1
    ensures FirstContaining(Gradient(iterations, toHsv), value).Some?
      <==> 0.0 <= value < (iterations + 2) as real
  {
    SpanCovered(Gradient(iterations, toHsv), value);
  }

  /** A value outside the span lies in no range of a searchable table, so
      the search loop never reaches its only exit. */
  lemma OutsideNeverFound(g: seq<Range>, value: real)
    requires WellFormed(g) && !InSpan(g, value)
    ensures forall k :: 0 <= k < |g| ==> !Contains(g[k], value)
  {
    SpanCovered(g, value);
  }

  /** Counts from iterations - 1 up (the points taken to be in the set) are
      coloured black, whatever the palette. */
  lemma InSetIsBlack(iterations: int, toHsv: Color -> Color, toRgb: Color -> Color, value: real)
    requires iterations >= 1
    requires (iterations - 1) as real <= value < (iterations + 2) as real
    ensures ScanColor(Gradient(iterations, toHsv), value, toRgb, Black) == toRgb(toHsv(Black))
  {
    var g := Gradient(iterations, toHsv);
    OnlyOwner(g, value, |g| - 1);
  }

  /** A value at the start of a non-empty range gets exactly that range's
      first colour (the colour of its step, through to_hsv and to_rgb). */
  lemma StepValueGetsStepColour(g: seq<Range>, k: nat, toRgb: Color -> Color)
    requires WellFormed(g) && k < |g| && g[k].lo < g[k].hi
    ensures ScanColor(g, g[k].lo, toRgb, Black) == toRgb(g[k].c1)
  {
    OnlyOwner(g, g[k].lo, k);
    ColorAtStart(g[k], toRgb);
  }

  /** With a cap of 100 there is one palette pair, at 35 and 50. */
  lemma HundredIterations(toHsv: Color -> Color)
    ensures GradientSteps(100) == [Step(0.0, Start), Step(35.0, Palette[0]), Step(50.0, Palette[0]),
                                   Step(99.0, Black), Step(102.0, Black)]
    ensures |Gradient(100, toHsv)| == 4
  {
    assert Passes(100, 50, 1) == [];
  }

  /** With a cap of 200 there are three pairs, in the first three palette colours. */
  lemma TwoHundredIterations(toHsv: Color -> Color)
    ensures |Gradient(200, toHsv)| == 8
    ensures GradientSteps(200)[5] == Step(135.0, Palette[2])
  {
    assert PassCount(200) == 3;
    var s := GradientSteps(200);
    assert |s| == 9;
    assert s[5] == PassStep(0, 0, 4);
    assert PassStep(0, 0, 4) == Step(135.0, Palette[2]);
  }
}
