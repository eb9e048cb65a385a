/** The C render engine (mandelbrot.c, and the earlier draft
    clang/mandelbrot.c, whose functions are the same except for what a
    pixel stores and for the `colorize_init` call and debug colour dump in
    mandelbrot.c's `mandelbrot_calculate`, which are not modelled). The process-wide globals become the fields of
    one `Renderer`; the mutex-guarded row cursor is the field `nextRow`,
    claimed one call at a time. One worker's run of `mandelbrot_thread` is
    modelled; the pthread worker pool and the progress thread are not. */
module Render {
  import opened Escape
  import opened Viewport
  import opened Image
  import Options

  /** C `round`: the nearest integer, halves away from zero. */
  function Round(r: real): (n: int)
    ensures -0.5 <= (n as real) - r <= 0.5
  {
    if r >= 0.0 then (r + 0.5).Floor else -((-r + 0.5).Floor)
  }

  /** round(width * (y_range / x_range)): within half a pixel of the
      height that keeps the viewport's aspect ratio. */
  function AspectHeight(width: int, xRange: real, yRange: real): (h: int)
    requires xRange != 0.0
    ensures -0.5 <= (h as real) - (width as real) * (yRange / xRange) <= 0.5
  {
    Round((width as real) * (yRange / xRange))
  }

  /** The image size `mandelbrot_init` derives: the height keeps the
      viewport's aspect ratio for the requested width, within half a pixel;
      supersampling doubles both afterwards, so both come out even and the
      height is within one pixel of the doubled width's exact ratio. */
  function RenderSize(args: Options.Args): (r: (int, int))
    requires args.xMax != args.xMin
    ensures var exact := (r.0 as real) * ((args.yMax - args.yMin) / (args.xMax - args.xMin));
      && (args.supersampling == 0 ==> r.0 == args.width && -0.5 <= (r.1 as real) - exact <= 0.5)
      && (args.supersampling != 0 ==> r.0 == 2 * args.width && r.0 % 2 == 0 && r.1 % 2 == 0 && -1.0 <= (r.1 as real) - exact <= 1.0)
  {
    var ratio := (args.yMax - args.yMin) / (args.xMax - args.xMin);
    var h := AspectHeight(args.width, args.xMax - args.xMin, args.yMax - args.yMin);
    assert ((args.width * 2) as real) * ratio == 2.0 * ((args.width as real) * ratio);
    if args.supersampling != 0 then (args.width * 2, h * 2) else (args.width, h)
  }

  /** What a pixel receives: mandelbrot.c stores `colorize(iterations)` as an
      HSV value (the C `colorize` is not part of this model, so it is a
      parameter); clang/mandelbrot.c stores the raw count in `.i32`. */
  datatype Store = StoreColour(colorize: int -> Hsv) | StoreCount

  function CellFor(store: Store, n: int): Pixel {
    match store
    case StoreColour(colorize) => HsvPixel(colorize(n))
    case StoreCount => I32Pixel(n)
  }

  /** The claim rule of `get_next_row` on the cursor: the row handed out (or
      -1) and the cursor afterwards. */
  function Claim(cursor: int, height: int): (r: (int, int))
    ensures r.0 >= 0 ==> r.0 == cursor < height && r.1 == cursor + 1
    ensures 0 <= cursor ==> (r.0 >= 0 <==> cursor < height)
    ensures cursor >= height ==> r == (-1, cursor)
    ensures cursor <= height ==> cursor <= r.1 <= height
  {
    if cursor < height then (cursor, cursor + 1) else (-1, cursor)
  }

  /** The rows handed out by `k` successive claims, whichever workers make them. */
  function Claims(cursor: int, height: int, k: nat): seq<int>
    decreases k
  {
    if k == 0 then [] else [Claim(cursor, height).0] + Claims(Claim(cursor, height).1, height, k - 1)
  }

  /** The cursor after `k` successive claims. */
  function CursorAfter(cursor: int, height: int, k: nat): int
    decreases k
  {
    if k == 0 then cursor else CursorAfter(Claim(cursor, height).1, height, k - 1)
  }

  /** Claim j hands out row cursor + j while that is below the height and
      -1 afterwards; the cursor stops at the height. */
  lemma {:induction false} ClaimsAre(cursor: int, height: int, k: nat)
    ensures |Claims(cursor, height, k)| == k
    ensures forall j :: 0 <= j < k ==>
      Claims(cursor, height, k)[j] == if cursor + j < height then cursor + j else -1
    ensures CursorAfter(cursor, height, k) ==
      if cursor >= height then cursor else if cursor + k <= height then cursor + k else height
    decreases k
  {
    if k > 0 {
      var next := Claim(cursor, height).1;
      ClaimsAre(next, height, k - 1);
      var rest := Claims(next, height, k - 1);
      assert Claims(cursor, height, k) == [Claim(cursor, height).0] + rest;
      forall j | 1 <= j < k
        ensures Claims(cursor, height, k)[j] == if cursor + j < height then cursor + j else -1
      {
        assert Claims(cursor, height, k)[j] == rest[j - 1];
      }
    }
  }

  /** From the zero-initialised cursor, any `k >= height` claims hand out
      every row 0 .. height - 1, none twice, and -1 for every claim after the
      last row; the cursor ends at the height. */
  lemma EachRowExactlyOnce(height: nat, k: nat)
    requires k >= height
    ensures |Claims(0, height, k)| == k
    ensures forall r :: 0 <= r < height ==> r in Claims(0, height, k)
    ensures forall i, j :: 0 <= i < j < k && Claims(0, height, k)[i] >= 0 ==>
      Claims(0, height, k)[i] != Claims(0, height, k)[j]
    ensures forall j :: height <= j < k ==> Claims(0, height, k)[j] == -1
    ensures CursorAfter(0, height, k) == height
  {
    ClaimsAre(0, height, k);
    forall r | 0 <= r < height
      ensures r in Claims(0, height, k)
    {
      assert Claims(0, height, k)[r] == r;
    }
  }

  /** Every index splits into its row and column. */
  lemma SplitIndex(k: int, width: int)
    requires 0 < width
    ensures k == RowMajorIndex(k % width, k / width, width)
  {
  }

  /** An index of the width x height buffer lies in one of its rows. */
  lemma RowOfIndex(k: int, width: int, height: int)
    requires 0 < width && 0 <= k < width * height
    ensures 0 <= k / width < height
  {
    SplitIndex(k, width);
    if k / width >= height {
      MulMonotone(height, k / width, width);
    }
  }

  class Renderer {
    var xMin: real
    var xMax: real
    var yMin: real
    var yMax: real
    var xRange: real
    var yRange: real
    var width: int
    var height: int
    var nIterations: int
    var nThreads: int
    var supersampling: int
    var showProgress: int
    var img: Image?
    var nextRow: int
    const store: Store

    /** The globals as the program starts: the default viewport, no
        supersampling, everything else zero and no image. */
    constructor (store: Store)
      ensures xMin == -2.5 && xMax == 1.0 && yMin == -1.0 && yMax == 1.0
      ensures xRange == 0.0 && yRange == 0.0
      ensures width == 0 && height == 0 && nIterations == 0 && nThreads == 0
      ensures supersampling == 0 && showProgress == 0
      ensures img == null && nextRow == 0 && this.store == store
    {
      xMin, xMax, yMin, yMax := -2.5, 1.0, -1.0, 1.0;
      xRange, yRange := 0.0, 0.0;
      width, height, nIterations, nThreads := 0, 0, 0, 0;
      supersampling, showProgress := 0, 0;
      img, nextRow := null, 0;
      this.store := store;
    }

    /** `mandelbrot_init`: copies the options, derives the ranges and the
        height, then doubles the size under supersampling. The verbose
        printout is not modelled. */
    method Init(args: Options.Args)
      requires args.xMax != args.xMin
      modifies this
      ensures xMin == args.xMin && xMax == args.xMax && yMin == args.yMin && yMax == args.yMax
      ensures xRange == args.xMax - args.xMin && yRange == args.yMax - args.yMin
      ensures (width, height) == RenderSize(args)
      ensures nIterations == args.iterations && nThreads == args.threads
      ensures supersampling == args.supersampling && showProgress == args.progress
      ensures img == old(img) && nextRow == old(nextRow)
    {
      xMin, xMax, yMin, yMax := args.xMin, args.xMax, args.yMin, args.yMax;
      xRange := xMax - xMin;
      yRange := yMax - yMin;
      width := args.width;
      height := AspectHeight(width, xRange, yRange);
      nIterations := args.iterations;
      nThreads := args.threads;
      showProgress := args.progress;
      supersampling := args.supersampling;
      if supersampling != 0 {
        width := width * 2;
        height := height * 2;
      }
    }

    /** `get_next_row`: hands out the cursor's row and advances it while rows
        remain, otherwise returns -1 and leaves the cursor alone. */
    method GetNextRow() returns (row: int)
      modifies this`nextRow
      ensures old(nextRow) < height ==> row == old(nextRow) && nextRow == old(nextRow) + 1
      ensures old(nextRow) >= height ==> row == -1 && nextRow == old(nextRow)
      ensures (row, nextRow) == Claim(old(nextRow), height)
    {
      row := -1;
      if nextRow < height {
        row := nextRow;
        nextRow := nextRow + 1;
      }
    }

    /** `get_progress`: the number of rows claimed so far; changes nothing. */
    method GetProgress() returns (row: int)
      ensures row == nextRow
    {
      row := nextRow;
    }

    /** `px_to_coordinate`. */
    function PxToCoordinate(px: int): (x: real)
      reads this`width, this`xMin, this`xRange
      requires width != 0
      ensures 0 <= px < width && 0.0 < xRange ==> xMin < x < xMin + xRange
    {
      if 0 <= px < width && 0.0 < xRange then PxInside(px, width, xMin, xRange); PxToPlane(px, width, xMin, xRange)
      else PxToPlane(px, width, xMin, xRange)
    }

    /** `py_to_coordinate`. */
    function PyToCoordinate(py: int): (y: real)
      reads this`height, this`yMin, this`yRange
      requires height != 0
      ensures 0 <= py < height && 0.0 < yRange ==> yMin < y < yMin + yRange
    {
      if 0 <= py < height && 0.0 < yRange then PyInside(py, height, yMin, yRange); PyToPlane(py, height, yMin, yRange)
      else PyToPlane(py, height, yMin, yRange)
    }

    /** `m_solve`: the escape loop with the cap `n_iterations`. */
    method MSolve(cx: real, cy: real) returns (n: int)
      ensures IsEscapeCount(cx, cy, nIterations, n)
      ensures n == EscapeTime(cx, cy, nIterations)
    {
      n := Solve(cx, cy, nIterations);
    }

    /** The value the render leaves in column `px` of row `py`. */
    function Cell(px: int, py: int): Pixel
      reads this`width, this`height, this`xMin, this`xRange, this`yMin, this`yRange, this`nIterations
      requires width != 0 && height != 0
    {
      CellFor(store, EscapeTime(PxToCoordinate(px), PyToCoordinate(py), nIterations))
    }

    /** `m_process_pixel`: solves the pixel's point, stores its cell at
        py * width + px and nowhere else, and returns the count. */
    method ProcessPixel(px: int, py: int) returns (n: int)
      requires img != null && width != 0 && height != 0
      requires 0 <= RowMajorIndex(px, py, width) < img.pixels.Length
      modifies img.pixels
      ensures n == EscapeTime(PxToCoordinate(px), PyToCoordinate(py), nIterations)
      ensures img.pixels[RowMajorIndex(px, py, width)] == CellFor(store, n) == Cell(px, py)
      ensures forall k :: 0 <= k < img.pixels.Length && k != RowMajorIndex(px, py, width) ==>
        img.pixels[k] == old(img.pixels[k])
    {
      var x := PxToCoordinate(px);
      var y := PyToCoordinate(py);
      n := MSolve(x, y);
      img.pixels[py * width + px] := CellFor(store, n);
    }

    /** The column loop of `mandelbrot_thread`: every cell of row `py` gets
        its value, every other cell is left as it was. */
    method RenderRow(py: int)
      requires img != null && 0 < width && 0 <= py < height && img.pixels.Length == width * height
      modifies img.pixels
      ensures forall k :: 0 <= k < img.pixels.Length ==>
        img.pixels[k] == if k / width == py then Cell(k % width, k / width) else old(img.pixels[k])
    {
      var px := 0;
      while px < width
        invariant 0 <= px <= width
        invariant forall k :: 0 <= k < img.pixels.Length ==>
          img.pixels[k] == if k / width == py && k % width < px then Cell(k % width, k / width) else old(img.pixels[k])
      {
        RowMajorIndexInBounds(px, py, width, height);
        var iCurrent := ProcessPixel(px, py);
        forall k | 0 <= k < img.pixels.Length
          ensures img.pixels[k] == if k / width == py && k % width < px + 1
            then Cell(k % width, k / width) else old(img.pixels[k])
        {
          SplitIndex(k, width);
        }
        px := px + 1;
      }
    }

    /** `mandelbrot_thread`, run by a single worker: claims rows until none
        remain and fills every column of each. Every cell of a row at or
        past the starting cursor receives its value; earlier rows are left
        as they were. */
    method Thread()
      requires img != null && 0 < width && 0 <= height && img.pixels.Length == width * height
      requires 0 <= nextRow
      modifies this`nextRow, img.pixels
      ensures nextRow == if old(nextRow) < height then height else old(nextRow)
      ensures forall k :: 0 <= k < img.pixels.Length ==>
        img.pixels[k] == if k / width >= old(nextRow) then Cell(k % width, k / width) else old(img.pixels[k])
    {
      ghost var start := nextRow;
      ghost var done := nextRow;
      var py := GetNextRow();
      while py >= 0
        invariant start <= done <= nextRow && (start < height ==> nextRow <= height)
        invariant py >= 0 ==> py == done == nextRow - 1 && py < height
        invariant py < 0 ==> done == nextRow == if start < height then height else start
        invariant forall k :: 0 <= k < img.pixels.Length ==>
          img.pixels[k] == if start <= k / width < done then Cell(k % width, k / width) else old(img.pixels[k])
        decreases height - nextRow + (if py >= 0 then 1 else 0)
      {
        RenderRow(py);
        done := done + 1;
        py := GetNextRow();
      }
      forall k | 0 <= k < img.pixels.Length
        ensures img.pixels[k] == if k / width >= start then Cell(k % width, k / width) else old(img.pixels[k])
      {
        RowOfIndex(k, width, height);
      }
    }

    /** `mandelbrot_calculate` with a single worker and no progress thread:
        allocates the zeroed width x height image, runs the worker and hands
        the image back. From the zero-initialised cursor every cell holds
        its value; rows before a cursor left over from an earlier render
        stay zero. */
    method Calculate() returns (result: Image)
      requires 0 < width && 0 <= height && 0 <= nextRow
      modifies this`img, this`nextRow
      ensures fresh(result) && result.pixels.Length == width * height
      ensures forall k :: 0 <= k < result.pixels.Length ==>
        result.pixels[k] == if k / width >= old(nextRow) then Cell(k % width, k / width) else ZeroPixel
      ensures img == null && nextRow == if old(nextRow) < height then height else old(nextRow)
    {
      var working := new Image(width, height);
      img := working;
      ghost var start := nextRow;
      assert forall k :: 0 <= k < working.pixels.Length ==> working.pixels[k] == ZeroPixel;
      Thread();
      assert img == working;
      assert forall k :: 0 <= k < working.pixels.Length ==>
        working.pixels[k] == if k / width >= start then Cell(k % width, k / width) else ZeroPixel;
      img := null;
      result := working;
    }
  }
}
