/** Module-size detection and shape re-rendering of the QR generator
    (`applyModuleShape` in js/qrGenerator.js). The first module pixel is
    found in row-major order, the run of module pixels to its right gives
    the finder-pattern width, a seventh of it (at least 1) is the module
    size, and every cell of the implied grid whose centre sample is a
    module receives one `drawModule` primitive. */
module Shape {
  import opened Wrappers
  import opened Colour
  import opened Grid
  import opened Drawing

  /** The first module pixel of row `y` at or after column `x`. */
  function ScanRow(img: Image, y: nat, x: nat, dark: Rgb, light: Rgb): (r: Option<nat>)
    ensures r.Some? ==> x <= r.value < img.width && IsModuleAt(img, r.value, y, dark, light)
    ensures r.Some? ==> forall k :: x <= k < r.value ==> !IsModuleAt(img, k, y, dark, light)
    ensures r.None? ==> forall k :: x <= k < img.width ==> !IsModuleAt(img, k, y, dark, light)
    decreases img.width - x
  {
    if x >= img.width then None
    else if IsModuleAt(img, x, y, dark, light) then Some(x)
    else ScanRow(img, y, x + 1, dark, light)
  }

  /** The first module pixel, in row-major order, of the rows from `y` on,
      as a pair (x, y). */
  function ScanRows(img: Image, y: nat, dark: Rgb, light: Rgb): (r: Option<(nat, nat)>)
    ensures r.Some? ==> y <= r.value.1 < img.height && r.value.0 < img.width
    ensures r.Some? ==> IsModuleAt(img, r.value.0, r.value.1, dark, light)
    ensures r.Some? ==> forall yy, xx :: y <= yy < r.value.1 && 0 <= xx < img.width ==> !IsModuleAt(img, xx, yy, dark, light)
    ensures r.Some? ==> forall xx :: 0 <= xx < r.value.0 ==> !IsModuleAt(img, xx, r.value.1, dark, light)
    ensures r.None? ==> forall yy, xx :: y <= yy < img.height && 0 <= xx < img.width ==> !IsModuleAt(img, xx, yy, dark, light)
    decreases img.height - y
  {
    if y >= img.height then None
    else match ScanRow(img, y, 0, dark, light)
      case Some(x) => Some((x, y))
      case None => ScanRows(img, y + 1, dark, light)
  }

  /** The number of consecutive module pixels on row `y` from column `x`,
      stopping at the first background pixel or the right edge. */
  function RunFrom(img: Image, y: nat, x: nat, dark: Rgb, light: Rgb): (n: nat)
    ensures x < img.width ==> x + n <= img.width
    ensures x >= img.width ==> n == 0
    ensures x + n < img.width ==> !IsModuleAt(img, x + n, y, dark, light)
    decreases img.width - x
  {
    if x >= img.width || !IsModuleAt(img, x, y, dark, light) then 0
    else 1 + RunFrom(img, y, x + 1, dark, light)
  }

  /** Every pixel of the run is a module pixel. */
  lemma {:induction false} RunFromModules(img: Image, y: nat, x: nat, dark: Rgb, light: Rgb)
    ensures forall k :: x <= k < x + RunFrom(img, y, x, dark, light) ==> IsModuleAt(img, k, y, dark, light)
    decreases img.width - x
  {
    if x < img.width && IsModuleAt(img, x, y, dark, light) {
      RunFromModules(img, y, x + 1, dark, light);
    }
  }

  /** `Math.max(1, run / 7)`: the finder pattern is seven modules wide. */
  function ModuleSize(run: nat): (s: real)
    ensures s >= 1.0
    ensures run >= 7 ==> s * 7.0 == run as real
  {
    MaxReal(1.0, run as real / 7.0)
  }

  /** `Math.round(canvas.width / moduleSize)`: the number of modules per side. */
  function ModuleCount(width: nat, s: real): (n: nat)
    requires s >= 1.0
    ensures n as real - 0.5 <= width as real / s < n as real + 0.5
  {
    Round(width as real / s)
  }

  /** `Math.round(col * moduleSize)`: the pixel origin of a cell. */
  function CellOrigin(i: nat, s: real): int {
    Round(i as real * s)
  }

  /** `Math.min(Math.floor(origin + moduleSize / 2), limit - 1)`. */
  function SampleCoord(origin: real, s: real, limit: int): int {
    MinInt((origin + s / 2.0).Floor, limit - 1)
  }

  /** The centre sample of cell (row, col) is a module pixel. */
  predicate SampleIsModule(img: Image, s: real, row: nat, col: nat, dark: Rgb, light: Rgb) {
    IsModuleAt(img, SampleCoord(CellOrigin(col, s) as real, s, img.width),
               SampleCoord(CellOrigin(row, s) as real, s, img.height), dark, light)
  }

  /** The cell (row, col) is drawn. */
  function ShapeKeep(img: Image, s: real, dark: Rgb, light: Rgb): (nat, nat) -> bool {
    (row: nat, col: nat) => SampleIsModule(img, s, row, col, dark, light)
  }

  /** The primitive drawn for the cell (row, col). */
  function ShapeAt(s: real, shape: string): (nat, nat) -> Primitive {
    (row: nat, col: nat) => DrawModule(CellOrigin(col, s) as real, CellOrigin(row, s) as real, s, shape)
  }

  /** The re-rendered QR: module size, module count, and the primitives. */
  datatype ShapeLayer = ShapeLayer(moduleSize: real, moduleCount: nat, prims: seq<Primitive>)

  /** What `applyModuleShape` draws for an image, or `None` when it leaves
      the canvas alone (a colour does not parse, or no pixel is a module). */
  function ShapedGrid(img: Image, shape: string, colorDark: string, colorLight: string): (r: Option<ShapeLayer>)
    ensures r.Some? ==> r.value.moduleSize >= 1.0
  {
    match (HexToRgb(colorDark), HexToRgb(colorLight))
    case (Some(dark), Some(light)) =>
      (match ScanRows(img, 0, dark, light)
       case None => None
       case Some(first) =>
         var s := ModuleSize(RunFrom(img, first.1, first.0, dark, light));
         var n := ModuleCount(img.width, s);
         Some(ShapeLayer(s, n, MapCells(ShapeAt(s, shape), Cells(n, n, ShapeKeep(img, s, dark, light))))))
    case _ => None
  }

  /** The canvas is left untouched exactly when a colour fails to parse or
      no pixel of the image is classified as a module. */
  lemma ShapedGridUntouched(img: Image, shape: string, colorDark: string, colorLight: string)
    ensures ShapedGrid(img, shape, colorDark, colorLight).None? <==>
      (!IsHexColour(colorDark) || !IsHexColour(colorLight) ||
       forall yy, xx :: 0 <= yy < img.height && 0 <= xx < img.width ==>
         !IsModuleAt(img, xx, yy, HexToRgb(colorDark).value, HexToRgb(colorLight).value))
  {
  }

  /** A cell origin is never negative, and the clamped centre sample of
      every cell lies inside a dimension of at least one pixel. */
  lemma SampleInside(i: nat, s: real, limit: nat)
    requires s >= 1.0 && limit >= 1
    ensures CellOrigin(i, s) >= 0
    ensures 0 <= SampleCoord(CellOrigin(i, s) as real, s, limit) < limit
  {
    assert i as real * s >= 0.0;
  }

  /** When a grid is detected the image is not empty, so by `SampleInside`
      every sample of the cell loops reads a pixel of the buffer. */
  lemma ShapedGridSamplesInside(img: Image, shape: string, colorDark: string, colorLight: string, row: nat, col: nat)
    requires img.WellFormed()
    requires ShapedGrid(img, shape, colorDark, colorLight).Some?
    ensures var s := ShapedGrid(img, shape, colorDark, colorLight).value.moduleSize;
      var x := SampleCoord(CellOrigin(col, s) as real, s, img.width);
      var y := SampleCoord(CellOrigin(row, s) as real, s, img.height);
      0 <= x < img.width && 0 <= y < img.height &&
      0 <= PixelIndex(img, x, y) && PixelIndex(img, x, y) + 3 < |img.data|
  {
    var s := ShapedGrid(img, shape, colorDark, colorLight).value.moduleSize;
    SampleInside(col, s, img.width);
    SampleInside(row, s, img.height);
    PixelIndexInside(img, SampleCoord(CellOrigin(col, s) as real, s, img.width), SampleCoord(CellOrigin(row, s) as real, s, img.height));
  }

  /** A shape is drawn at the origin of cell (row, col) of an n x n grid
      exactly when the centre sample of that cell is a module, and every
      primitive drawn is the shape of such a cell. */
  lemma DrawsExactly(img: Image, s: real, n: nat, shape: string, dark: Rgb, light: Rgb)
    ensures var prims := MapCells(ShapeAt(s, shape), Cells(n, n, ShapeKeep(img, s, dark, light)));
      (forall row: nat, col: nat | row < n && col < n && SampleIsModule(img, s, row, col, dark, light) ::
         DrawModule(CellOrigin(col, s) as real, CellOrigin(row, s) as real, s, shape) in prims) &&
      (forall k | 0 <= k < |prims| :: exists row: nat, col: nat ::
         row < n && col < n && SampleIsModule(img, s, row, col, dark, light) &&
         prims[k] == DrawModule(CellOrigin(col, s) as real, CellOrigin(row, s) as real, s, shape))
  {
    var keep := ShapeKeep(img, s, dark, light);
    var cs := Cells(n, n, keep);
    var prims := MapCells(ShapeAt(s, shape), cs);
    CellsSound(n, n, keep);
    forall row: nat, col: nat | row < n && col < n && SampleIsModule(img, s, row, col, dark, light)
      ensures DrawModule(CellOrigin(col, s) as real, CellOrigin(row, s) as real, s, shape) in prims
    {
      CellsExactly(n, n, keep, row, col);
      var k :| 0 <= k < |cs| && cs[k] == (row, col);
      assert prims[k] == ShapeAt(s, shape)(row, col);
    }
    forall k | 0 <= k < |prims|
      ensures exists row: nat, col: nat ::
         row < n && col < n && SampleIsModule(img, s, row, col, dark, light) &&
         prims[k] == DrawModule(CellOrigin(col, s) as real, CellOrigin(row, s) as real, s, shape)
    {
      var row, col := cs[k].0, cs[k].1;
      assert row < n && col < n && keep(row, col);
      assert SampleIsModule(img, s, row, col, dark, light);
      assert prims[k] == ShapeAt(s, shape)(row, col);
    }
  }

  /** The labelled scan of `applyModuleShape` for the first module pixel
      in row-major order. */
  method FindFirstModule(img: Image, dark: Rgb, light: Rgb) returns (first: Option<(nat, nat)>)
    ensures first == ScanRows(img, 0, dark, light)
  {
    var startX, startY := 0, 0;
    var foundModule := false;
    var y := 0;
    label outer: while y < img.height
      invariant 0 <= y <= img.height
      invariant ScanRows(img, 0, dark, light) == ScanRows(img, y, dark, light)
      invariant !foundModule
    {
      var x := 0;
      while x < img.width
        invariant 0 <= x <= img.width
        invariant ScanRow(img, y, 0, dark, light) == ScanRow(img, y, x, dark, light)
      {
        if IsModulePixel(img.data, (y * img.width + x) * 4, dark, light) {
          startX, startY, foundModule := x, y, true;
          assert ScanRows(img, 0, dark, light) == Some((startX, startY));
          break outer;
        }
        x := x + 1;
      }
      y := y + 1;
    }
    first := if foundModule then Some((startX, startY)) else None;
  }

  /** The run-counting loop: consecutive module pixels from the first one. */
  method MeasureRun(img: Image, startX: nat, startY: nat, dark: Rgb, light: Rgb) returns (run: nat)
    ensures run == RunFrom(img, startY, startX, dark, light)
  {
    run := 0;
    var x := startX;
    while x < img.width
      invariant startX <= x
      invariant x < img.width || x == startX || x == img.width
      invariant RunFrom(img, startY, startX, dark, light) == run + RunFrom(img, startY, x, dark, light)
    {
      RunFromAt(img, startY, x, dark, light);
      if IsModulePixel(img.data, (startY * img.width + x) * 4, dark, light) {
        run := run + 1;
      } else {
        break;
      }
      x := x + 1;
    }
  }

  /** One step of the run, in the loop's own terms. */
  lemma RunFromAt(img: Image, y: nat, x: nat, dark: Rgb, light: Rgb)
    requires x < img.width
    ensures RunFrom(img, y, x, dark, light) ==
      if IsModulePixel(img.data, (y * img.width + x) * 4, dark, light) then 1 + RunFrom(img, y, x + 1, dark, light) else 0
  {
  }

  /** The primitives drawn for the cells the loops have visited before
      cell (row, col). */
  function DrawnSoFar(img: Image, s: real, n: nat, shape: string, dark: Rgb, light: Rgb, row: nat, col: nat): seq<Primitive> {
    MapCells(ShapeAt(s, shape), Cells(row, n, ShapeKeep(img, s, dark, light)) + RowCells(row, col, ShapeKeep(img, s, dark, light)))
  }

  lemma CellStep(img: Image, s: real, n: nat, shape: string, dark: Rgb, light: Rgb, row: nat, col: nat)
    ensures DrawnSoFar(img, s, n, shape, dark, light, row, col + 1) ==
      DrawnSoFar(img, s, n, shape, dark, light, row, col) +
      (if SampleIsModule(img, s, row, col, dark, light)
       then [DrawModule(CellOrigin(col, s) as real, CellOrigin(row, s) as real, s, shape)] else [])
  {
    var keep := ShapeKeep(img, s, dark, light);
    CellsUpToNext(n, keep, row, col);
    MapCellsAppend(ShapeAt(s, shape), CellsUpTo(n, keep, row, col), if keep(row, col) then [(row, col)] else []);
  }

  lemma RowStep(img: Image, s: real, n: nat, shape: string, dark: Rgb, light: Rgb, row: nat)
    ensures DrawnSoFar(img, s, n, shape, dark, light, row, n) == DrawnSoFar(img, s, n, shape, dark, light, row + 1, 0)
  {
    CellsUpToNextRow(n, ShapeKeep(img, s, dark, light), row);
  }

  /** The redraw loops: one primitive per cell whose centre sample is a
      module, rows outer and columns inner. */
  method DrawCells(img: Image, moduleSize: real, moduleCount: nat, shape: string, dark: Rgb, light: Rgb)
    returns (prims: seq<Primitive>)
    ensures prims == MapCells(ShapeAt(moduleSize, shape), Cells(moduleCount, moduleCount, ShapeKeep(img, moduleSize, dark, light)))
  {
    prims := [];
    for row := 0 to moduleCount
      invariant prims == DrawnSoFar(img, moduleSize, moduleCount, shape, dark, light, row, 0)
    {
      prims := DrawRow(img, moduleSize, moduleCount, shape, dark, light, row, prims);
      RowStep(img, moduleSize, moduleCount, shape, dark, light, row);
    }
    DrawnAll(img, moduleSize, moduleCount, shape, dark, light);
  }

  /** The inner loop of the redraw, over the columns of one row. */
  method DrawRow(img: Image, moduleSize: real, moduleCount: nat, shape: string, dark: Rgb, light: Rgb, row: nat,
                 before: seq<Primitive>) returns (prims: seq<Primitive>)
    requires before == DrawnSoFar(img, moduleSize, moduleCount, shape, dark, light, row, 0)
    ensures prims == DrawnSoFar(img, moduleSize, moduleCount, shape, dark, light, row, moduleCount)
  {
    prims := before;
    for col := 0 to moduleCount
      invariant prims == DrawnSoFar(img, moduleSize, moduleCount, shape, dark, light, row, col)
    {
      var x := CellOrigin(col, moduleSize);
      var y := CellOrigin(row, moduleSize);
      CellStep(img, moduleSize, moduleCount, shape, dark, light, row, col);
      if SampleIsModule(img, moduleSize, row, col, dark, light) {
        prims := prims + [DrawModule(x as real, y as real, moduleSize, shape)];
      }
    }
  }

  /** After the last row nothing of a partial row is left. */
  lemma DrawnAll(img: Image, s: real, n: nat, shape: string, dark: Rgb, light: Rgb)
    ensures DrawnSoFar(img, s, n, shape, dark, light, n, 0) == MapCells(ShapeAt(s, shape), Cells(n, n, ShapeKeep(img, s, dark, light)))
  {
    var keep := ShapeKeep(img, s, dark, light);
    assert Cells(n, n, keep) + RowCells(n, 0, keep) == Cells(n, n, keep);
  }

  /** The computation of `applyModuleShape` up to painting. */
  method RenderShapes(img: Image, shape: string, colorDark: string, colorLight: string)
    returns (r: Option<ShapeLayer>)
    ensures r == ShapedGrid(img, shape, colorDark, colorLight)
  {
    var darkRgb := HexToRgb(colorDark);
    var lightRgb := HexToRgb(colorLight);
    if darkRgb.None? || lightRgb.None? {
      return None;
    }
    var dark, light := darkRgb.value, lightRgb.value;
    var first := FindFirstModule(img, dark, light);
    if first.None? {
      return None;
    }
    var run := MeasureRun(img, first.value.0, first.value.1, dark, light);
    var moduleSize := ModuleSize(run);
    var moduleCount := ModuleCount(img.width, moduleSize);
    var prims := DrawCells(img, moduleSize, moduleCount, shape, dark, light);
    r := Some(ShapeLayer(moduleSize, moduleCount, prims));
  }

  /** `applyModuleShape(canvas, shape, colorDark, colorLight)`: when a grid
      is detected the canvas is cleared and repainted with a light
      background and the shapes; otherwise it is left untouched. `pixels`
      is what `getImageData` returns for the canvas. */
  method ApplyModuleShape(canvas: Canvas, pixels: Image, shape: string, colorDark: string, colorLight: string)
    requires pixels.width == canvas.width && pixels.height == canvas.height
    modifies canvas`layers
    ensures ShapedGrid(pixels, shape, colorDark, colorLight).None? ==> canvas.layers == old(canvas.layers)
    ensures ShapedGrid(pixels, shape, colorDark, colorLight).Some? ==>
      canvas.layers == [Picture(0, 0, canvas.width, canvas.height,
                                [Fill(0, 0, canvas.width, canvas.height, colorLight),
                                 Shapes(colorDark, ShapedGrid(pixels, shape, colorDark, colorLight).value.prims)])]
  {
    var shaped := RenderShapes(pixels, shape, colorDark, colorLight);
    if shaped.Some? {
      canvas.layers := [Picture(0, 0, canvas.width, canvas.height,
                                [Fill(0, 0, canvas.width, canvas.height, colorLight),
                                 Shapes(colorDark, shaped.value.prims)])];
    }
  }
}
