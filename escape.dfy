/** The escape-time evaluator shared by the C renderers (`m_solve`) and the
    Python prototype (`solve`): iterate z := z*z + c from z = 0 and count the
    completed steps before |z|^2 exceeds 4, giving up at the iteration cap.
    Coordinates are reals; IEEE double rounding is not modelled. */
module Escape {

  /** A point of the complex plane, as the real and imaginary parts the
      source keeps in two variables. */
  datatype Point = Point(x: real, y: real)

  const Origin := Point(0.0, 0.0)

  /** The bail-out test: |z|^2 > 4, the orbit has left the disc of radius 2. */
  predicate Escaped(z: Point) {
    z.x * z.x + z.y * z.y > 4.0
  }

  /** One step of the recurrence z := z*z + c, in real and imaginary parts. */
  function Next(z: Point, cx: real, cy: real): Point {
    Point(z.x * z.x - z.y * z.y + cx, 2.0 * z.x * z.y + cy)
  }

  /** z_n of the orbit of c = (cx, cy), with z_0 = 0. */
  function Orbit(cx: real, cy: real, n: nat): Point {
    if n == 0 then Origin else Next(Orbit(cx, cy, n - 1), cx, cy)
  }

  /** What the loop returns when it is at step `i` with current value `z`. */
  function EscapeFrom(cx: real, cy: real, z: Point, i: int, max: int): int
    decreases max - i
  {
    if i >= max then max
    else if Escaped(z) then i
    else EscapeFrom(cx, cy, Next(z, cx, cy), i + 1, max)
  }

  /** The escape count of c = (cx, cy) under the cap `max`. */
  function EscapeTime(cx: real, cy: real, max: int): int {
    EscapeFrom(cx, cy, Origin, 0, max)
  }

  /** `n` is the escape count of c under `max`: with no positive cap the
      loop does not run and returns the cap; otherwise `n` is in [0, max],
      no orbit value before step `n` escaped, and if `n` is below the cap
      then z_n is the first one that did. */
  ghost predicate IsEscapeCount(cx: real, cy: real, max: int, n: int) {
    && (max <= 0 ==> n == max)
    && (max > 0 ==> 0 <= n <= max)
    && (forall j :: 0 <= j < n ==> !Escaped(Orbit(cx, cy, j)))
    && (0 <= n < max ==> Escaped(Orbit(cx, cy, n)))
  }

  /** `solve` / `m_solve`: the escape loop. */
  method Solve(cx: real, cy: real, iterations: int) returns (n: int)
    ensures IsEscapeCount(cx, cy, iterations, n)
    ensures n == EscapeTime(cx, cy, iterations)
  {
    var x, y := 0.0, 0.0;
    var i := 0;
    while i < iterations
      invariant 0 <= i && (iterations > 0 ==> i <= iterations)
      invariant EscapeTime(cx, cy, iterations) == EscapeFrom(cx, cy, Point(x, y), i, iterations)
    {
      var x2 := x * x;
      var y2 := y * y;
      assert Escaped(Point(x, y)) <==> x2 + y2 > 4.0;
      if x2 + y2 > 4.0 {
        n := i;
        break;
      }
      ghost var z := Point(x, y);
      var xTemp := x2 - y2 + cx;
      y := 2.0 * x * y + cy;
      x := xTemp;
      assert Point(x, y) == Next(z, cx, cy);
      i := i + 1;
    }
    if i >= iterations {
      n := iterations;
    }
    EscapeTimeIsFirstEscape(cx, cy, iterations);
  }

  lemma {:induction false} EscapeFromIsFirstEscape(cx: real, cy: real, i: nat, max: int)
    requires i <= max
    requires forall j :: 0 <= j < i ==> !Escaped(Orbit(cx, cy, j))
    ensures IsEscapeCount(cx, cy, max, EscapeFrom(cx, cy, Orbit(cx, cy, i), i, max))
    ensures i <= EscapeFrom(cx, cy, Orbit(cx, cy, i), i, max)
    decreases max - i
  {
    if i < max && !Escaped(Orbit(cx, cy, i)) {
      assert Orbit(cx, cy, i + 1) == Next(Orbit(cx, cy, i), cx, cy);
      EscapeFromIsFirstEscape(cx, cy, i + 1, max);
    }
  }

  /** The function the loop is proved against returns the first escape. */
  lemma EscapeTimeIsFirstEscape(cx: real, cy: real, max: int)
    ensures IsEscapeCount(cx, cy, max, EscapeTime(cx, cy, max))
  {
    if max >= 0 {
      EscapeFromIsFirstEscape(cx, cy, 0, max);
    }
  }

  lemma {:induction false} OriginOrbit(n: nat)
    ensures Orbit(0.0, 0.0, n) == Origin
  {
    if n > 0 {
      OriginOrbit(n - 1);
    }
  }

  /** c = 0 never escapes: its count is the cap. */
  lemma OriginNeverEscapes(max: int)
    ensures EscapeTime(0.0, 0.0, max) == max
  {
    EscapeTimeIsFirstEscape(0.0, 0.0, max);
    var n := EscapeTime(0.0, 0.0, max);
    if 0 <= n < max {
      OriginOrbit(n);
    }
  }

  /** z_0 = 0 never passes the test, so a positive cap gives a count of at least 1. */
  lemma AtLeastOneStep(cx: real, cy: real, max: int)
    requires max >= 1
    ensures 1 <= EscapeTime(cx, cy, max) <= max
  {
    assert Orbit(cx, cy, 1) == Next(Origin, cx, cy);
    EscapeFromIsFirstEscape(cx, cy, 1, max);
  }

  /** A point outside the disc of radius 2 escapes right after the first step
      (c = (3, 3) gives 1 under any cap of at least 2). */
  lemma FarPointEscapesAtStepOne(cx: real, cy: real, max: int)
    requires Escaped(Point(cx, cy)) && max >= 2
    ensures EscapeTime(cx, cy, max) == 1
  {
    assert Next(Origin, cx, cy) == Point(cx, cy);
    assert EscapeTime(cx, cy, max) == EscapeFrom(cx, cy, Point(cx, cy), 1, max);
  }
}
