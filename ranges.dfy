/** The gradient tables of the Python colourisers (colors/gradient.py and
    colors/old_colors.py): a list of (index, colour) steps is turned by
    `perpare_gradient` into ranges (v_min, v_max, color1, color2), and a
    value inside a range gets the colour linearly interpolated between the
    range's two colours. Colours are triples of reals; the colorsys-based
    conversions `to_hsv` and `to_rgb` (with their rounding) are not part of
    this model and are passed in as functions. */
module Ranges {

  import Fractions

  import opened Wrappers

  datatype Color = Color(c0: real, c1: real, c2: real)

  /** An (index, colour) pair of a step list. */
  datatype Step = Step(at: real, color: Color)

  /** The tuple (v_min, v_max, color1, color2): the half-open interval
      [lo, hi) and the colours at its two ends. */
  datatype Range = Range(lo: real, hi: real, c1: Color, c2: Color)

  predicate Contains(r: Range, v: real) {
    r.lo <= v < r.hi
  }

  /** Black, the colour the gradients end in and the scan's fallback. */
  const Black := Color(0.0, 0.0, 0.0)

  /** `color_lerp`: color2 * factor + color1 * (1 - factor), per component.
      Factor 0 gives color1, factor 1 gives color2, and two equal colours
      give that colour at any factor. */
  function Lerp(color1: Color, color2: Color, factor: real): (c: Color)
    ensures factor == 0.0 ==> c == color1
    ensures factor == 1.0 ==> c == color2
    ensures color1 == color2 ==> c == color1
  {
    Color(
      color2.c0 * factor + color1.c0 * (1.0 - factor),
      color2.c1 * factor + color1.c1 * (1.0 - factor),
      color2.c2 * factor + color1.c2 * (1.0 - factor))
  }

  /** The range `perpare_gradient` makes from steps k and k + 1. */
  function PairAt(items: seq<Step>, k: nat, toHsv: Color -> Color): Range
    requires k + 1 < |items|
  {
    Range(items[k].at, items[k + 1].at, toHsv(items[k].color), toHsv(items[k + 1].color))
  }

  /** The ranges of a step list: one per pair of neighbouring steps, so
      len(items) - 1 of them, each spanning its two steps with their
      colours through `to_hsv`, each ending where the next one starts, the
      first starting at the first step and the last ending at the last. */
  function Pairs(items: seq<Step>, toHsv: Color -> Color): (r: seq<Range>)
    ensures |r| == if |items| == 0 then 0 else |items| - 1
    ensures forall k :: 0 <= k < |r| ==> r[k].lo == items[k].at && r[k].hi == items[k + 1].at
    ensures forall k :: 0 <= k < |r| ==> r[k].c1 == toHsv(items[k].color) && r[k].c2 == toHsv(items[k + 1].color)
    ensures forall k :: 0 <= k < |r| - 1 ==> r[k].hi == r[k + 1].lo
    ensures |r| > 0 ==> r[0].lo == items[0].at && r[|r| - 1].hi == items[|items| - 1].at
  {
    if |items| <= 1 then [] else seq(|items| - 1, k requires 0 <= k < |items| - 1 => PairAt(items, k, toHsv))
  }

  /** `perpare_gradient`. */
  method PrepareGradient(items: seq<Step>, toHsv: Color -> Color) returns (gradients: seq<Range>)
    ensures gradients == Pairs(items, toHsv)
  {
    var i := 1;
    gradients := [];
    while i < |items|
      invariant 1 <= i <= if |items| == 0 then 1 else |items|
      invariant |gradients| == i - 1
      invariant forall k :: 0 <= k < i - 1 ==> gradients[k] == PairAt(items, k, toHsv)
    {
      var i1 := items[i - 1];
      var i2 := items[i];
      var c1 := toHsv(i1.color);
      var c2 := toHsv(i2.color);
      gradients := gradients + [Range(i1.at, i2.at, c1, c2)];
      i := i + 1;
    }
  }

  /** Step indices never go down. */
  ghost predicate NonDecreasing(items: seq<Step>) {
    forall k :: 0 <= k < |items| - 1 ==> items[k].at <= items[k + 1].at
  }

  /** Step indices strictly increase. */
  ghost predicate Increasing(items: seq<Step>) {
    forall k :: 0 <= k < |items| - 1 ==> items[k].at < items[k + 1].at
  }

  /** A searchable table: at least one range, none reversed, each ending
      where the next starts. */
  ghost predicate WellFormed(g: seq<Range>) {
    && |g| > 0
    && (forall k :: 0 <= k < |g| ==> g[k].lo <= g[k].hi)
    && (forall k :: 0 <= k < |g| - 1 ==> g[k].hi == g[k + 1].lo)
  }

  /** The span [first lo, last hi) a table covers. */
  ghost predicate InSpan(g: seq<Range>, v: real)
    requires |g| > 0
  {
    g[0].lo <= v < g[|g| - 1].hi
  }

  /** Pairing a list of at least two non-decreasing steps gives a searchable table. */
  lemma PairsWellFormed(items: seq<Step>, toHsv: Color -> Color)
    requires |items| >= 2 && NonDecreasing(items)
    ensures WellFormed(Pairs(items, toHsv))
  {
  }

  /** Pairing strictly increasing steps gives only non-empty ranges. */
  lemma PairsNonEmpty(items: seq<Step>, toHsv: Color -> Color)
    requires Increasing(items)
    ensures forall k :: 0 <= k < |Pairs(items, toHsv)| ==> Pairs(items, toHsv)[k].lo < Pairs(items, toHsv)[k].hi
  {
  }

  /** In a searchable table a range ends no later than any later range starts. */
  lemma {:induction false} Ordered(g: seq<Range>, i: nat, j: nat)
    requires WellFormed(g) && i < j < |g|
    ensures g[i].hi <= g[j].lo
    decreases j - i
  {
    if i + 1 < j {
      Ordered(g, i + 1, j);
    }
  }

  /** The first range holding `v`, scanning from the front, if any. */
  function FirstContaining(g: seq<Range>, v: real): (r: Option<nat>)
    ensures r.Some? ==> r.value < |g| && Contains(g[r.value], v)
    ensures r.Some? ==> forall j :: 0 <= j < r.value ==> !Contains(g[j], v)
    ensures r.None? ==> forall j :: 0 <= j < |g| ==> !Contains(g[j], v)
    decreases |g|
  {
    if |g| == 0 then None
    else if Contains(g[0], v) then Some(0)
    else match FirstContaining(g[1..], v)
      case None => None
      case Some(k) => Some(k + 1)
  }

  /** In a searchable table at most one range holds a value: a range that
      holds it is the one the front-to-back scan finds. */
  lemma OnlyOwner(g: seq<Range>, v: real, k: nat)
    requires WellFormed(g) && k < |g| && Contains(g[k], v)
    ensures FirstContaining(g, v) == Some(k)
  {
    var r := FirstContaining(g, v);
    assert r.Some?;
    if r.value < k {
      Ordered(g, r.value, k);
    }
  }

  /** In a searchable table a value in the span lies in exactly one range,
      and a value outside the span lies in none. */
  lemma {:induction false} SpanCovered(g: seq<Range>, v: real)
    requires WellFormed(g)
    ensures FirstContaining(g, v).Some? <==> InSpan(g, v)
    decreases |g|
  {
    if |g| > 1 {
      var tail := g[1..];
      assert WellFormed(tail) by {
        forall k | 0 <= k < |tail| - 1
          ensures tail[k].hi == tail[k + 1].lo
        {
          assert tail[k] == g[k + 1] && tail[k + 1] == g[k + 2];
        }
      }
      SpanCovered(tail, v);
      var first := FirstContaining(g, v);
      if first.Some? {
        Ordered(g, 0, |g| - 1);
        if first.value > 0 {
          Ordered(g, 0, first.value);
          if first.value < |g| - 1 {
            Ordered(g, first.value, |g| - 1);
          }
        } else {
          Ordered(g, 0, |g| - 1);
        }
      }
      if InSpan(g, v) && !Contains(g[0], v) {
        assert g[0].hi == tail[0].lo;
        assert FirstContaining(tail, v).Some?;
      }
    }
  }

  /** The colour of a value in range `r`: `to_rgb(color_lerp(color1, color2,
      (value - v_min) / (v_max - v_min)))`. */
  function ColorIn(r: Range, v: real, toRgb: Color -> Color): Color
    requires Contains(r, v)
  {
    toRgb(Lerp(r.c1, r.c2, (v - r.lo) / (r.hi - r.lo)))
  }

  /** The interpolation factor of a value in a range lies in [0, 1), and is
      0 exactly at the range's start. */
  lemma FactorInUnit(r: Range, v: real)
    requires Contains(r, v)
    ensures 0.0 <= (v - r.lo) / (r.hi - r.lo) < 1.0
    ensures v == r.lo ==> (v - r.lo) / (r.hi - r.lo) == 0.0
  {
    if v != r.lo {
      Fractions.FractionInside(v - r.lo, r.hi - r.lo);
    }
  }

  /** A value at the start of a range gets that range's first colour. */
  lemma ColorAtStart(r: Range, toRgb: Color -> Color)
    requires r.lo < r.hi
    ensures ColorIn(r, r.lo, toRgb) == toRgb(r.c1)
  {
    assert (r.lo - r.lo) / (r.hi - r.lo) == 0.0;
  }

  /** The colour a front-to-back scan gives `v`: that of the first range
      holding it, or `fallback` when none does. */
  function ScanColor(g: seq<Range>, v: real, toRgb: Color -> Color, fallback: Color): Color {
    match FirstContaining(g, v)
    case Some(k) => ColorIn(g[k], v, toRgb)
    case None => fallback
  }
}
