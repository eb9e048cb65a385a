# Mandelbrot renderer — a Dafny model

This project models the core of the jonmd/mandelbrot repository. The repository holds a C renderer (`mandelbrot.c`), an earlier C draft (`clang/`) and Python prototypes (`mandelbrot.py`, `colors/`, `py3/colors/`). The model covers:

- **Escape-time loop** (`escape.dfy`, module `Escape`).
  - `m_solve` in both C files and `solve` in the Python prototype are one loop.
  - It iterates z := z² + c from z = 0 and returns the first step at which |z|² > 4, or the iteration cap.
  - `Solve` keeps the source's variables and loop, and is proved against the recursive `EscapeTime` and the predicate `IsEscapeCount` ("first escape, within the cap").
- **Viewport maps** (`viewport.dfy`).
  - Pixel-centre affine maps from column and row indices to the plane, with the row axis flipped.
- **Pixel buffer** (`image.dfy`).
  - The draft's `image_t`: a header plus a `union pixel` array. `image_new`, `image_get_pixel`, `image_set_pixel` and `image_downscale` are modelled, with the union as a tagged variant.
- **Options** (`options.dfy`).
  - The defaults `main` sets and the per-key callback `parse_opt`, both on a value (`Apply`) and on an `Arguments` object updated in place.
- **Render engine** (`render.dfy`).
  - The globals of `mandelbrot.c` become the fields of a `Renderer`: `mandelbrot_init`, the row cursor (`get_next_row`, `get_progress`), the coordinate maps, `m_process_pixel`, one worker's `mandelbrot_thread` and a single-worker `mandelbrot_calculate`.
  - The draft `clang/mandelbrot.c` shares these functions, with two differences. Its pixels store the raw count in `.i32` instead of `colorize(count)`; the `Store` value of a renderer selects between the two. And `mandelbrot_calculate` in `mandelbrot.c` also calls `colorize_init` and, under `DEBUG`, dumps sample colours (mandelbrot.c:125-133); neither is modelled.
- **Gradient colourisers** (`ranges.dfy`, `gradient.dfy`, `old_colors.dfy`).
  - `perpare_gradient` pairs neighbouring steps into ranges, and `color_lerp` interpolates between two colours.
  - `create_gradient` lays out steps from the iteration cap, and the binary search of `create_colorize_gradient` finds a value's range.
  - `old_colors.py` has a fixed `GRADIENTS` table with a linear scan.
- **Greyscale colouriser** (`blackandwhite.dfy`).
  - `colorize_black_and_white` and its closure factory.
  - `colors/old_colors.py:5-9` defines the same function as `py3/colors/black_and_white.py:3-7`, and one member models both.
- **Shared option type** (`wrappers.dfy`): the `Option` used by the options record and the range lookup.
- **Python prototype pixel pipeline** (`pymandelbrot.dfy`).
  - `pixel_to_coordinate`, `colorize` and `process_pixel` over the fixed viewport [-2.5, 1] × [-1, 1].

Coordinates and colours are `real`s; the model makes no claim about IEEE rounding. The colour-space conversions (`to_hsv`, `to_rgb`, and the C `colorize`) are passed in as functions.

The escape count of a point is never 0 under a positive cap: z₀ = 0 never passes the test |z|² > 4. For example, c = (3, 3) has count 1 under any cap ≥ 2, because z₁ = c already passes it (`Escape.FarPointEscapesAtStepOne`, `Escape.AtLeastOneStep`).

## Model

| member | source | states |
|---|---|---|
| Escape.Solve | mandelbrot.py:41-52 | The result is the escape count. With a cap ≤ 0 it is the cap. Otherwise it lies in [0, cap], no orbit value before it escaped, and a result below the cap is the first step whose value has \|z\|² > 4. It equals `EscapeTime`. |
| Escape.EscapeTimeIsFirstEscape | mandelbrot.c:266-291 | The recursive reference `EscapeTime` meets the same first-escape characterisation for every point and cap. |
| Escape.OriginNeverEscapes | mandelbrot.c:271-283 | c = (0, 0) returns the cap. |
| Escape.AtLeastOneStep | clang/mandelbrot.c:238-250 | With a cap ≥ 1 the count is at least 1 and at most the cap, because z₀ = 0 never passes the test. |
| Escape.FarPointEscapesAtStepOne | mandelbrot.py:44-48 | A point c with \|c\|² > 4 has count exactly 1 under any cap ≥ 2. |
| Viewport.PxInside | mandelbrot.c:253-257 | For 0 ≤ px < width and a positive range, the x coordinate lies strictly inside (x_min, x_min + x_range). |
| Viewport.PxIncreasing | mandelbrot.c:253-257 | The x coordinate strictly increases with px. |
| Viewport.PyInside | mandelbrot.c:259-264 | For 0 ≤ py < height and a positive range, the y coordinate lies strictly inside (y_min, y_min + y_range). |
| Viewport.PyDecreasing | mandelbrot.c:259-264 | The y coordinate strictly decreases as py grows, so row 0 is at the top. |
| Image.RowMajorIndexInBounds | mandelbrot.c:302 | The renderers' index py·width + px is in [0, width·height) for every pixel of the grid, and it gives back px and py, so distinct pixels get distinct cells. |
| Image.Image.constructor | clang/image.c:28-40 | `image_new` yields width·height cells that all read as zero, and header fields width, height and mode that read as 0 because they are never assigned. |
| Image.Image.GetPixel | clang/image.c:5-13 | Returns the cell at x·(header width) + y. |
| Image.Image.SetPixel | clang/image.c:16-25 | Writes p to the cell at x·(header width) + y and changes no other cell. |
| Image.SetThenGet | clang/image.c:5-25 | Reading a pixel right after writing it returns the value written. |
| Image.Downscale | clang/image.c:49-58 | Returns NULL whether or not it is given an image. |
| Image.HeaderlessIndexIsRow | clang/image.c:5-40 | With the header width that `image_new` leaves at 0, pixel (x, y) is addressed as cell y, whatever x is. |
| Image.ColumnsShareACell | clang/image.c:5-40 | On a fresh 3×2 image, a write to pixel (0, 1) is what pixel (2, 1) reads back. |
| Image.TransposedIndexOverflows | clang/image.c:23-24 | If the header width W were set, with W > height, the pixel (W − 1, height − 1) would be addressed past the last cell. |
| Image.TransposedWriteAliases | clang/image.c:5-25 | If the header width W were set, with 2 ≤ W < height, a write to pixel (0, W) would be read back at the distinct pixel (1, 0). |
| Options.UsageExactly | clang/main.c:45-110 | The usage exit is taken exactly in these cases: width < 16; iterations < 1; threads < 1; a second positional argument; an end of arguments without exactly one positional argument. |
| Options.Apply | clang/main.c:41-117 | ARGP_ERR_UNKNOWN is returned exactly for unrecognised keys. Such a key, and the end of the arguments, leave the record unchanged. Only a positional argument sets the file name. A key that is accepted never breaks width ≥ 16, iterations ≥ 1 or threads ≥ 1. |
| Options.Run | clang/main.c:136-138 | An empty command line changes nothing. A run of callbacks with no usage exit keeps width ≥ 16, iterations ≥ 1 and threads ≥ 1. |
| Options.RunValid | clang/main.c:41-117 | A sequence of callbacks with no usage exit keeps the thresholds, and sets the file name once the end of the arguments has been accepted. |
| Options.CommandLineValid | clang/main.c:121-138 | Starting from `main`'s defaults, a parse that gets through leaves valid numeric options, and a file name once the end of the arguments has been accepted. |
| Options.Arguments.constructor | clang/main.c:123-134 | The defaults: width 300, iterations 100, threads 1, flags 0, viewport −2.5/1.0/−1.0/1.0, no file name. |
| Options.Arguments.ParseOpt | clang/main.c:41-117 | The record after the call and the returned status are those of `Apply`: one field set per key, the usage exit, or ARGP_ERR_UNKNOWN. |
| Render.Round | mandelbrot.c:48-50 | The model of C `round` is within one half of its argument. |
| Render.AspectHeight | mandelbrot.c:48-50 | The height is within half a pixel of width·y_range/x_range. |
| Render.RenderSize | mandelbrot.c:44-77 | Without supersampling, the width is kept and the height is within half a pixel of width·y_range/x_range. With supersampling, width and height are both doubled and even, and the height is within one pixel of the exact ratio. |
| Render.Claim | mandelbrot.c:83-94 | A row is handed out only when the cursor is below the height; it is the cursor, which then moves on by one. At or past the height, −1 and the cursor unchanged. The cursor never passes the height. |
| Render.ClaimsAre | mandelbrot.c:83-94 | Successive claims from any cursor hand out cursor, cursor + 1, … up to height − 1 and then −1. The cursor stops at the height. |
| Render.EachRowExactlyOnce | clang/mandelbrot.c:69-84 | From the zero-initialised cursor, any k ≥ height claims: hand out every row, with no row twice; then return −1; and leave the cursor at the height. |
| Render.Renderer.constructor | mandelbrot.c:6-27 | The starting globals: the default viewport, supersampling 0, other numbers zero, no image, cursor 0. |
| Render.Renderer.Init | mandelbrot.c:37-78 | Copies the options and derives x_range and y_range. Sets (width, height) to the aspect-derived size, doubled under supersampling. Leaves the image and the cursor unchanged. |
| Render.Renderer.GetNextRow | mandelbrot.c:83-94 | Below the height it returns the old cursor and advances the cursor by one. Otherwise it returns −1 and leaves the cursor unchanged. |
| Render.Renderer.GetProgress | mandelbrot.c:97-108 | Returns the cursor and changes no state. |
| Render.Renderer.PxToCoordinate | clang/mandelbrot.c:218-222 | For an in-range column and a positive x_range, the result lies strictly inside the viewport's x interval. |
| Render.Renderer.PyToCoordinate | clang/mandelbrot.c:225-230 | For an in-range row and a positive y_range, the result lies strictly inside the viewport's y interval. |
| Render.Renderer.MSolve | mandelbrot.c:266-291 | Returns the first-escape count of the point under the global cap `n_iterations`. |
| Render.Renderer.ProcessPixel | mandelbrot.c:293-305 | Returns the escape count of the pixel's centre. Writes the cell py·width + px, and no other cell. The cell gets `colorize(count)` (HSV store) or the count itself (`.i32` store, clang/mandelbrot.c:261-273). |
| Render.Renderer.RenderRow | mandelbrot.c:237-245 | The column loop gives every cell of row py its value and leaves every other cell unchanged. |
| Render.Renderer.Thread | mandelbrot.c:227-248 | One worker drains the cursor to the height (or leaves it unchanged if already past it). Every cell in a row at or past the starting cursor gets its value; earlier rows are unchanged. |
| Render.Renderer.Calculate | mandelbrot.c:119-167 | Single worker: returns a fresh width×height image. Cells in rows at or past the starting cursor hold their values; cells in earlier rows stay zero. Afterwards the global image is NULL and the cursor is at the height (or unchanged if already past it). |
| Ranges.Lerp | colors/gradient.py:90-95 | `color_lerp` gives color1 at factor 0 and color2 at factor 1. With two equal colours it gives that colour at any factor. |
| Ranges.Pairs | colors/gradient.py:15-25 | Pairing gives len(items) − 1 ranges. Range k spans steps k and k + 1, with their colours through `to_hsv`. Each range ends where the next begins. The ranges start at the first step and end at the last. |
| Ranges.PrepareGradient | colors/old_colors.py:39-49 | The append loop of `perpare_gradient` builds exactly `Pairs(items)`. |
| Ranges.PairsWellFormed | colors/gradient.py:15-25 | At least two non-decreasing steps pair into a contiguous table with no reversed range. |
| Ranges.PairsNonEmpty | colors/old_colors.py:39-49 | Strictly increasing steps give only non-empty ranges. |
| Ranges.FirstContaining | colors/old_colors.py:67-71 | The front-to-back scan finds the first range holding the value, or reports that no range holds it. |
| Ranges.OnlyOwner | colors/gradient.py:51-62 | In a contiguous table, a range that holds a value is the only one that does. |
| Ranges.SpanCovered | colors/gradient.py:51-62 | A contiguous table has a range holding a value exactly when the value lies in [first v_min, last v_max). |
| Ranges.FactorInUnit | colors/gradient.py:56 | The interpolation factor of a value inside its range lies in [0, 1), and is 0 at the range's start. |
| Ranges.ColorAtStart | colors/gradient.py:56-57 | A value at the start of a non-empty range gets `to_rgb(color1)`. |
| Gradient.CreateGradient | colors/gradient.py:28-45 | The loop-built table equals the pairing of the step list `GradientSteps`. |
| Gradient.PassCountClosed | colors/gradient.py:33-40 | Starting at counter i, the loop makes 0 passes when iterations − i ≤ 51, and otherwise (iterations − i − 52) div 50 + 1 passes. |
| Gradient.Passes | colors/gradient.py:32-40 | Starting at counter i and colour c, the loop appends two steps per pass. Pass k appends steps at i + 50k + 35 and i + 50k + 50, both in palette colour (c + k) mod 6. |
| Gradient.GradientSteps | colors/gradient.py:29-42 | The step list is (0, dark blue), then the palette pairs, then (iterations − 1, black) and (iterations + 2, black). |
| Gradient.Gradient | colors/gradient.py:28-45 | The table has 2k + 2 ranges for k passes. It runs from 0 and ends with the black range [iterations − 1, iterations + 2). It is searchable for iterations ≥ 1. |
| Gradient.StepsOrdered | colors/gradient.py:30-42 | The step indices never decrease for iterations ≥ 1, and strictly increase for iterations ≥ 2. |
| Gradient.GradientShape | colors/gradient.py:29-44 | The table has exactly 2 ranges when iterations ≤ 51. Every range is non-empty for iterations ≥ 2. At iterations = 1 the first range is the empty [0, 0). |
| Gradient.Colorize | colors/gradient.py:50-62 | On a searchable table and a value in its span, the binary search stops on the one range holding the value (invariant imin ≤ owner < imax). It returns that range's interpolated colour. |
| Gradient.GradientCovers | colors/gradient.py:30-42 | For iterations ≥ 1, a range holds the value exactly when 0 ≤ value < iterations + 2. |
| Gradient.OutsideNeverFound | colors/gradient.py:52-62 | A value outside the span lies in no range, so the search loop never reaches its only exit. |
| Gradient.InSetIsBlack | colors/gradient.py:41-42 | Values in [iterations − 1, iterations + 2) are coloured `to_rgb(to_hsv(black))`. |
| Gradient.StepValueGetsStepColour | colors/gradient.py:55-57 | A value equal to the start of a non-empty range gets exactly that range's first colour. |
| Gradient.HundredIterations | colors/gradient.py:28-45 | A cap of 100 gives the steps 0, 35, 50, 99, 102 and 4 ranges. |
| Gradient.TwoHundredIterations | colors/gradient.py:28-45 | A cap of 200 gives 8 ranges, and the third pass starts at 135 in the third palette colour. |
| OldColors.Gradients | colors/old_colors.py:51-62 | GRADIENTS has 9 contiguous, non-empty ranges tiling [0, 1.00001). The last one is black over [0.99991, 1.00001). |
| OldColors.ColorizeGradient | colors/old_colors.py:64-71 | The for-loop scan returns the interpolated colour of the first range holding value/iterations, or black when no range holds it. |
| OldColors.OutsideIsBlack | colors/old_colors.py:67-71 | A range holds the fraction exactly when it lies in [0, 1.00001). Any other fraction is coloured black. |
| OldColors.CapIsBlack | colors/old_colors.py:58-62 | A count equal to the cap (fraction 1) is coloured `to_rgb(to_hsv(black))`. |
| BlackAndWhite.ColorizeBlackAndWhite | py3/colors/black_and_white.py:3-7 | Black when value + 1 ≥ iterations. Otherwise three equal components equal to ⌊value/iterations·255⌋, which lies in [0, 254] for a non-negative count. |
| BlackAndWhite.GreyLevelMonotone | py3/colors/black_and_white.py:6 | For a positive cap, the grey level never decreases as the count grows. |
| BlackAndWhite.CreateColorizeBlackAndWhite | py3/colors/black_and_white.py:10-13 | The closure from `create_colorize_black_and_white(n)` accepts every count the function accepts, and returns the same colour. |
| PyMandelbrot.PixelToCoordinate | mandelbrot.py:31-38 | In-range pixels map strictly inside (−2.5, 1) × (−1, 1). |
| PyMandelbrot.PixelToCoordinateMonotone | mandelbrot.py:24-38 | x strictly increases with px, y strictly decreases with py, and x depends only on px. |
| PyMandelbrot.Colorize | mandelbrot.py:54-55 | Gives 0 at count 0 and 255 at the cap, and stays within [0, 255] for counts in [0, cap]. |
| PyMandelbrot.ProcessPixel | mandelbrot.py:58-62 | Returns its own (px, py) together with the first-escape count of the pixel's centre. |
| PyMandelbrot.PixelColour | mandelbrot.py:103-105 | The sequential loop body computes `colorize(solve(pixel_to_coordinate(..)))`, a level in [0, 255] for a positive cap. |

## Left out

- Threads: the pthread mutex, thread creation and join, and the worker pool of `mandelbrot_calculate` (mandelbrot.c:119-167). The cursor is claimed one call at a time, and one worker runs. `Render.Claims` describes the row sequence whichever worker makes each claim.
- The progress thread `mandelbrot_progress_thread`: timed polling and printing.
- IEEE doubles: coordinates, the escape loop, the lerp and the grey level are over `real`. C `round` is modelled exactly on reals.
- int32 wrap-around: the model does not capture overflow of `width * 2`, `width * height` or `py * width + px`. All integers are unbounded.
- `to_hsv`, `to_rgb`, `normalize` and `quantify`: `colorsys` plus rounding. These are parameters of the colouring members.
- The C `colorize` and `colorize_init` of colors.h: their implementation is not part of this model. `colorize` is the `StoreColour` parameter, and `colorize_init` is not modelled.
- The verbose printout in `mandelbrot_init`, the `debug` lines, and the per-row maximum `i` in `mandelbrot_thread`, which is only printed.
- `atoi` and `strtod`: a key carries the number its conversion produced. `argp_usage` ends the process, so the model reports `Usage` and stops the run.
- argp's driver is not modelled. `Options.Run` feeds the callbacks in order and counts positional arguments.
- `mandelbrot()` and the `__main__` block of mandelbrot.py: PIL image output, the multiprocessing pool and the progress bar.
- `create_colorize_gradient` returns a closure over its table. `Gradient.Colorize` takes the table as a parameter, and the closure's unused `iterations` argument is dropped.
- Render.RenderSize: requires x_max ≠ x_min. With equal bounds the source divides by a zero x_range and rounds the infinite or NaN quotient into an int32 height (mandelbrot.c:48-50); `parse_opt` does not check the order of the bounds (clang/main.c:81-95). Reals have no infinity to model this with.
- Render.Renderer.Init: requires x_max ≠ x_min, for the same reason as `Render.RenderSize`.
- Render.Renderer.Thread: requires a height ≥ 0. A reversed y viewport (y_max < y_min) gives a negative height, which the source passes on to `image_new` (clang/image.c:35). Here the requirement follows from the buffer holding width·height cells with width > 0.
- Render.Renderer.Calculate: requires a height ≥ 0, because a Dafny array cannot have the negative size that a reversed y viewport would give `image_new` (clang/image.c:35).
- OldColors.ColorizeGradient: requires a non-zero cap. With a cap of 0 the source's `value / iterations` raises ZeroDivisionError.
- PyMandelbrot.Colorize: requires a non-zero cap. With a cap of 0 the source raises ZeroDivisionError.
- BlackAndWhite.ColorizeBlackAndWhite: requires a non-zero cap below the black threshold. There, a cap of 0 makes the source raise ZeroDivisionError.
- Python default arguments (`iterations=512` on `solve` and `colorize`, `iterations=1024` on `colorize_black_and_white` and `colorize_gradient`, `width=None, height=None` on `pixel_to_coordinate`, and `None` for all three on `process_pixel`): every call in the code passes them, so the model always takes them explicitly.
- Gradient.Colorize: requires a searchable table and a value in its span. Outside the span the source loops forever, which `Gradient.OutsideNeverFound` states.
- `image_destroy`, PNG output, utils.c and clang/utils.h (allocation wrappers and logging), clang/colors.c, and colors/__init__.py.
- The header declares `image_new` with a mode argument, but clang/image.c defines it with two. The two-argument definition is modelled.

## Findings

| source | as written | input that shows it | evidently intended | confidence | as-written member | corrected member |
|---|---|---|---|---|---|---|
| clang/image.c:11-12, clang/image.c:23-24 | `image_get_pixel` and `image_set_pixel` address pixel (x, y) as x·width + y, with x and y transposed | As built, `image_new` never sets the header width, so it reads 0 and pixel (x, y) is addressed as cell y: on a fresh 3×2 image, pixels (0, 1) and (2, 1) share cell 1, so a write to one overwrites the other (`Image.ColumnsShareACell`), and nothing overflows. With the header width set to W, which `image_new` in clang/image.c never sets and no caller in clang/ assigns, pixel (W − 1, height − 1) of a wider image would overflow (`Image.TransposedIndexOverflows`) | y·width + x, the layout the renderers write (py·width + px) | not executed | Image.ColumnsShareACell | Image.RowMajorIndexInBounds |
