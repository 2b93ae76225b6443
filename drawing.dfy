/** What the generator paints. Rasterisation is not modelled: a canvas
    holds the drawing commands painted on it, bottom first, and the pixels
    read back from it (`getImageData`) are supplied separately as an
    `Image`. `drawModule` is modelled as the primitive it fills. */
module Drawing {
  import opened Wrappers
  import opened Colour

  /** `Math.round`: halves round up. */
  function Round(x: real): (n: int)
    ensures n as real - 0.5 <= x < n as real + 0.5
  {
    (x + 0.5).Floor
  }

  function MinInt(a: int, b: int): int { if a <= b then a else b }
  function MaxInt(a: int, b: int): int { if a >= b then a else b }
  function MinReal(a: real, b: real): real { if a <= b then a else b }
  function MaxReal(a: real, b: real): real { if a >= b then a else b }

  /** A row-major RGBA buffer, four bytes per pixel. */
  datatype Image = Image(width: nat, height: nat, data: seq<byte>) {
    predicate WellFormed() {
      |data| == 4 * width * height
    }
  }

  /** Byte offset of pixel (x, y), as `(y * width + x) * 4`. */
  function PixelIndex(img: Image, x: int, y: int): int {
    (y * img.width + x) * 4
  }

  /** The classifier applied to pixel (x, y) of an image. */
  predicate IsModuleAt(img: Image, x: int, y: int, dark: Rgb, light: Rgb) {
    IsModulePixel(img.data, PixelIndex(img, x, y), dark, light)
  }

  /** A pixel inside a well-formed image is inside its buffer. */
  lemma PixelIndexInside(img: Image, x: int, y: int)
    requires img.WellFormed()
    requires 0 <= x < img.width && 0 <= y < img.height
    ensures 0 <= PixelIndex(img, x, y) && PixelIndex(img, x, y) + 3 < |img.data|
  {
    var i := y * img.width + x;
    CellBelowArea(x, y, img.width, img.height);
    assert |img.data| == 4 * (img.height * img.width);
    assert PixelIndex(img, x, y) == i * 4;
  }

  /** Row-major numbering maps a cell of a w-by-h grid below w * h. */
  lemma CellBelowArea(x: int, y: int, w: int, h: int)
    requires 0 <= x < w && 0 <= y < h
    ensures 0 <= y * w + x < h * w
  {
    MulLe(0, y, w);
    MulLe(y + 1, h, w);
    assert (y + 1) * w == y * w + w;
  }

  /** Multiplying by a non-negative factor keeps order. */
  lemma MulLe(a: int, b: int, c: int)
    requires a <= b && 0 <= c
    ensures a * c <= b * c
  {
    var d := b - a;
    assert b * c == a * c + d * c;
  }

  datatype Point = Point(x: real, y: real)

  /** The filled shapes `drawModule` emits. */
  datatype Primitive =
    | RoundedSquare(x: real, y: real, size: real, radius: real)
    | Disc(centre: Point, radius: real)
    | Diamond(top: Point, right: Point, bottom: Point, left: Point)
    | Square(x: real, y: real, size: real)

  predicate InSquare(p: Point, x: real, y: real, size: real) {
    x <= p.x <= x + size && y <= p.y <= y + size
  }

  /** The primitive lies inside the cell [x, x+size] x [y, y+size]. */
  predicate InsideCell(p: Primitive, x: real, y: real, size: real) {
    match p
    case RoundedSquare(px, py, ps, r) => px == x && py == y && ps == size && 0.0 <= r <= size / 2.0
    case Disc(c, r) => 0.0 <= r && x <= c.x - r && c.x + r <= x + size && y <= c.y - r && c.y + r <= y + size
    case Diamond(t, rt, b, l) =>
      InSquare(t, x, y, size) && InSquare(rt, x, y, size) && InSquare(b, x, y, size) && InSquare(l, x, y, size)
    case Square(px, py, ps) => px == x && py == y && ps == size
  }

  /** `drawModule(ctx, x, y, size, shape)`. */
  function DrawModule(x: real, y: real, size: real, shape: string): (p: Primitive)
    ensures size >= 0.0 ==> InsideCell(p, x, y, size)
    ensures p.Disc? ==> p.centre == Point(x + size / 2.0, y + size / 2.0)
    ensures p.Square? <==> shape !in {"rounded", "circle", "diamond", "dots"}
  {
    var centre := Point(x + size / 2.0, y + size / 2.0);
    match shape
    case "rounded" => RoundedSquare(x, y, size, size * 0.15)
    case "circle" => Disc(centre, size * 0.4)
    case "diamond" =>
      Diamond(Point(centre.x, y + size * 0.1), Point(x + size * 0.9, centre.y),
              Point(centre.x, y + size * 0.9), Point(x + size * 0.1, centre.y))
    case "dots" => Disc(centre, size * 0.3)
    case _ => Square(x, y, size)
  }

  /** The tags the generator writes into `canvas.dataset`. The numeric tags
      are kept as the numbers written, not as their decimal strings. */
  datatype Dataset = Dataset(margin: Option<nat>, qrSize: Option<nat>,
                             hasFrame: Option<string>, frameText: Option<string>)

  /** One drawing command on a canvas. */
  datatype Layer =
    | Bitmap(img: Image)                                            // the QR library's own rendering
    | Fill(x: int, y: int, w: int, h: int, colour: string)         // fillRect
    | Shapes(colour: string, prims: seq<Primitive>)                // drawModule calls
    | RoundedBox(x: int, y: int, w: int, h: int, radius: real, colour: string)
    | Caption(text: string, cx: real, cy: real, size: nat, colour: string)
    | Picture(x: int, y: int, w: int, h: int, content: seq<Layer>)  // drawImage of another canvas

  /** An HTML canvas: its size, what is painted on it, and its data tags. */
  class Canvas {
    var width: nat
    var height: nat
    var layers: seq<Layer>
    var dataset: Dataset

    /** A fresh canvas of the given size with nothing painted. */
    constructor (w: nat, h: nat)
      ensures width == w && height == h && layers == []
      ensures dataset == Dataset(None, None, None, None)
    {
      width, height, layers := w, h, [];
      dataset := Dataset(None, None, None, None);
    }
  }
}
