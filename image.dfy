/** The pixel buffer of the C draft (clang/image.c, clang/image.h): a header
    with width, height and mode followed by width * height pixels, each a
    union of an RGBA value, an HSVA value, a grey byte and a 32-bit count.
    The union is modelled as a tagged variant. */
module Image {

  newtype byte = x: int | 0 <= x < 256

  datatype Rgb = Rgb(r: byte, g: byte, b: byte, a: byte)

  datatype Hsv = Hsv(h: byte, s: byte, v: byte, a: byte)

  /** `union pixel`: which member was last written is the tag. */
  datatype Pixel =
    | RgbPixel(rgb: Rgb)
    | HsvPixel(hsv: Hsv)
    | GreyPixel(grey: byte)
    | I32Pixel(i32: int)

  /** What the zeroing allocator leaves in a cell (every member reads as zero). */
  const ZeroPixel := I32Pixel(0)

  /** Row-major position of column `x`, row `y`: the layout the renderers
      write (`py * width + px`). */
  function RowMajorIndex(x: int, y: int, width: int): int {
    y * width + x
  }

  /** Row-major indexing is a bijection between the width x height grid and
      [0, width * height): every cell is in bounds and gives back its column
      and row. */
  lemma RowMajorIndexInBounds(x: int, y: int, width: int, height: int)
    requires 0 <= x < width && 0 <= y < height
    ensures 0 <= RowMajorIndex(x, y, width) < width * height
    ensures RowMajorIndex(x, y, width) / width == y
    ensures RowMajorIndex(x, y, width) % width == x
  {
    var k := y * width + x;
    MulMonotone(y + 1, height, width);
    assert k < (y + 1) * width;
    DivModUnique(k, width, y, x);
  }

  lemma MulMonotone(a: int, b: int, width: int)
    requires a <= b && 0 <= width
    ensures a * width <= b * width
  {
    assert b * width - a * width == (b - a) * width;
  }

  lemma DivModUnique(k: int, width: int, q: int, r: int)
    requires 0 <= r < width && k == q * width + r
    ensures k / width == q && k % width == r
  {
    var q', r' := k / width, k % width;
    assert (q - q') * width == r' - r;
    if q > q' {
      MulAtLeast(q - q', width);
    } else if q < q' {
      MulAtLeast(q' - q, width);
    }
  }

  lemma MulAtLeast(n: int, width: int)
    requires 1 <= n && 0 <= width
    ensures n * width >= width
  {
    assert n * width == (n - 1) * width + width;
  }

  /** `image_t`. */
  class Image {
    var width: int
    var height: int
    var mode: int
    var pixels: array<Pixel>

    /** `image_new`: one zeroing allocation of the header and width * height
        cells. The header's width, height and mode are never assigned, so
        they read as zero. */
    constructor (width: int, height: int)
      requires 0 <= width && 0 <= height
      ensures this.width == 0 && this.height == 0 && mode == 0
      ensures fresh(pixels) && pixels.Length == width * height
      ensures forall k :: 0 <= k < pixels.Length ==> pixels[k] == ZeroPixel
    {
      this.width, this.height, mode := 0, 0, 0;
      pixels := new Pixel[width * height](_ => ZeroPixel);
    }

    /** The cell `image_get_pixel` and `image_set_pixel` address for (x, y),
        using the header's width. */
    function Index(x: int, y: int): int
      reads this`width
    {
      x * width + y
    }

    /** `image_get_pixel`. */
    method GetPixel(x: int, y: int) returns (p: Pixel)
      requires 0 <= Index(x, y) < pixels.Length
      ensures p == pixels[Index(x, y)]
    {
      p := pixels[x * width + y];
    }

    /** `image_set_pixel`: writes one cell and leaves every other one as it was. */
    method SetPixel(x: int, y: int, p: Pixel)
      requires 0 <= Index(x, y) < pixels.Length
      modifies pixels
      ensures pixels[Index(x, y)] == p
      ensures forall k :: 0 <= k < pixels.Length && k != Index(x, y) ==> pixels[k] == old(pixels[k])
    {
      pixels[x * width + y] := p;
    }
  }

  /** Reading back the cell just written gives the value written. */
  method SetThenGet(img: Image, x: int, y: int, p: Pixel) returns (q: Pixel)
    requires 0 <= img.Index(x, y) < img.pixels.Length
    modifies img.pixels
    ensures q == p
  {
    img.SetPixel(x, y, p);
    q := img.GetPixel(x, y);
  }

  /** `image_downscale`: not implemented; whatever it is given, it logs and
      returns NULL. */
  method Downscale(img: Image?) returns (r: Image?)
    ensures r == null
  {
    r := null;
  }

  /** As built, `image_new` never sets the header's width, so (x, y) is
      addressed as cell y: every column of a row shares one cell. */
  lemma HeaderlessIndexIsRow(img: Image, x: int, y: int)
    requires img.width == 0
    ensures img.Index(x, y) == y
  {
  }

  /** On a fresh 3 x 2 image, writing pixel (0, 1) overwrites what pixel
      (2, 1) reads: both are cell 1. */
  method ColumnsShareACell(p: Pixel) returns (q: Pixel)
    ensures q == p
  {
    var img := new Image(3, 2);
    img.SetPixel(0, 1, p);
    q := img.GetPixel(2, 1);
  }

  /** Were the header width set to the image's width W, the transposed
      address x * W + y would put the bottom-right pixel (W - 1, height - 1)
      of a wider than tall image past the last cell. */
  lemma TransposedIndexOverflows(img: Image, height: int)
    requires 0 < height < img.width && img.pixels.Length == img.width * height
    ensures img.Index(img.width - 1, height - 1) >= img.pixels.Length
  {
    var w := img.width;
    MulAtLeast(w - height, w - 1);
    assert (w - 1) * w + (height - 1) - w * height == (w - height) * (w - 1) - 1;
  }

  /** Were the header width set to the image's width W >= 2, a taller than
      wide image would let a write to pixel (0, W) be read back at the
      distinct pixel (1, 0). */
  method TransposedWriteAliases(img: Image, height: int, p: Pixel) returns (q: Pixel)
    requires 2 <= img.width < height && img.pixels.Length == img.width * height
    modifies img.pixels
    ensures q == p
  {
    MulAtLeast(height, img.width);
    img.SetPixel(0, img.width, p);
    q := img.GetPixel(1, 0);
  }
}
