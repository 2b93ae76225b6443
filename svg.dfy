/** Reconstruction of an SVG document from the pixels of a generated canvas
    (`detectModuleSize` and `canvasToSVG` in js/downloadManager.js). The
    module grid is re-derived from the pixels with a detector of its own,
    and one `<rect>` is written per cell whose centre sample is a module.
    JavaScript's conversion of a number to its decimal string is the
    parameter `num`. A colour that does not parse makes `isModulePixel`
    dereference `null` as soon as a cell is sampled; that `TypeError` is
    the result `None`. */
module Svg {
  import opened Wrappers
  import opened Text
  import opened Colour
  import opened Grid
  import opened Drawing
  import opened Shape
  import opened Compositor

  // ---------------------------------------------------------------------
  // detectModuleSize

  const Black := Rgb(0, 0, 0)
  const White := Rgb(255, 255, 255)

  /** The colours the detector classifies with: black and white unless
      both colours were given. */
  function DetectorColours(dark: Option<Rgb>, light: Option<Rgb>): (c: (Rgb, Rgb))
    ensures dark.Some? && light.Some? ==> c == (dark.value, light.value)
    ensures dark.None? || light.None? ==> c == (Black, White)
  {
    if dark.None? || light.None? then (Black, White) else (dark.value, light.value)
  }

  /** The first module pixel of row `y` in columns [x, end). */
  function FirstModuleIn(img: Image, y: nat, x: nat, end: int, dark: Rgb, light: Rgb): (r: Option<nat>)
    ensures r.Some? ==> x <= r.value < end && IsModuleAt(img, r.value, y, dark, light)
    ensures r.Some? ==> forall k :: x <= k < r.value ==> !IsModuleAt(img, k, y, dark, light)
    ensures r.None? ==> forall k :: x <= k < end ==> !IsModuleAt(img, k, y, dark, light)
    decreases end - x
  {
    if x >= end then None
    else if IsModuleAt(img, x, y, dark, light) then Some(x)
    else FirstModuleIn(img, y, x + 1, end, dark, light)
  }

  /** The first background pixel of row `y` in columns [x, end). */
  function FirstBackgroundIn(img: Image, y: nat, x: nat, end: int, dark: Rgb, light: Rgb): (r: Option<nat>)
    ensures r.Some? ==> x <= r.value < end && !IsModuleAt(img, r.value, y, dark, light)
    ensures r.Some? ==> forall k :: x <= k < r.value ==> IsModuleAt(img, k, y, dark, light)
    ensures r.None? ==> forall k :: x <= k < end ==> IsModuleAt(img, k, y, dark, light)
    decreases end - x
  {
    if x >= end then None
    else if !IsModuleAt(img, x, y, dark, light) then Some(x)
    else FirstBackgroundIn(img, y, x + 1, end, dark, light)
  }

  /** The size the detector derives from a measured run: a run longer than
      5 pixels is read as the 7-module finder pattern, and the size is at
      least 1. */
  function SizeFromRun(raw: nat): (s: real)
    ensures s >= 1.0
    ensures raw > 5 ==> s == MaxReal(1.0, raw as real / 7.0)
    ensures 1 <= raw <= 5 ==> s == raw as real
  {
    MaxReal(1.0, if raw > 5 then raw as real / 7.0 else raw as real)
  }

  /** The size measured on row `offset` with the colours `d` and `l`. */
  function MeasuredSize(img: Image, offset: nat, d: Rgb, l: Rgb): (s: real)
    ensures s >= 1.0
  {
    var end := img.width - offset;
    match FirstModuleIn(img, offset, offset, end, d, l)
    case None => 1.0
    case Some(first) =>
      match FirstBackgroundIn(img, offset, first + 1, end, d, l)
      case None => 1.0
      case Some(x) => SizeFromRun(x - first)
  }

  /** `detectModuleSize(imageData, offset, colorDarkRgb, colorLightRgb)`. */
  function DetectedSize(img: Image, offset: nat, dark: Option<Rgb>, light: Option<Rgb>): (s: real)
    ensures s >= 1.0
  {
    var c := DetectorColours(dark, light);
    MeasuredSize(img, offset, c.0, c.1)
  }

  /** Only row `offset` is scanned, over columns [offset, width - offset):
      without a module pixel there the size is 1. */
  lemma NoModuleMeansUnitSize(img: Image, offset: nat, d: Rgb, l: Rgb)
    requires forall k :: offset <= k < img.width - offset ==> !IsModuleAt(img, k, offset, d, l)
    ensures MeasuredSize(img, offset, d, l) == 1.0
  {
  }

  /** A run of module pixels that reaches the end of the scanned range
      also gives size 1. */
  lemma OpenRunMeansUnitSize(img: Image, offset: nat, d: Rgb, l: Rgb, first: nat)
    requires offset <= first < img.width - offset && IsModuleAt(img, first, offset, d, l)
    requires forall k :: offset <= k < first ==> !IsModuleAt(img, k, offset, d, l)
    requires forall k :: first < k < img.width - offset ==> IsModuleAt(img, k, offset, d, l)
    ensures MeasuredSize(img, offset, d, l) == 1.0
  {
    assert FirstModuleIn(img, offset, offset, img.width - offset, d, l) == Some(first);
  }

  /** Otherwise the run starting at the first module pixel `first` ends at
      the first background pixel `x`, and the size comes from `x - first`. */
  lemma ClosedRunSize(img: Image, offset: nat, d: Rgb, l: Rgb, first: nat, x: nat)
    requires offset <= first < img.width - offset && IsModuleAt(img, first, offset, d, l)
    requires forall k :: offset <= k < first ==> !IsModuleAt(img, k, offset, d, l)
    requires first < x < img.width - offset && !IsModuleAt(img, x, offset, d, l)
    requires forall k :: first < k < x ==> IsModuleAt(img, k, offset, d, l)
    ensures MeasuredSize(img, offset, d, l) == SizeFromRun(x - first)
  {
    assert FirstModuleIn(img, offset, offset, img.width - offset, d, l) == Some(first);
    assert FirstBackgroundIn(img, offset, first + 1, img.width - offset, d, l) == Some(x);
  }

  /** The two detectors disagree on short runs: `applyModuleShape` divides
      every run by 7, while `detectModuleSize` keeps a run of 2 to 5 pixels
      as the size itself. */
  lemma DetectorsDisagreeOnShortRuns(raw: nat)
    requires 2 <= raw <= 5
    ensures ModuleSize(raw) == 1.0 && SizeFromRun(raw) == raw as real
  {
  }

  /** On a run of at least 7 pixels both detectors give `raw / 7`. */
  lemma DetectorsAgreeOnFinderRuns(raw: nat)
    requires raw >= 7
    ensures ModuleSize(raw) == SizeFromRun(raw) == raw as real / 7.0
  {
  }

  /** The search loop of `detectModuleSize`. */
  method FindModuleInRow(img: Image, y: nat, x0: nat, end: int, dark: Rgb, light: Rgb) returns (first: Option<nat>)
    ensures first == FirstModuleIn(img, y, x0, end, dark, light)
  {
    var x := x0;
    while x < end
      invariant x0 <= x
      invariant FirstModuleIn(img, y, x0, end, dark, light) == FirstModuleIn(img, y, x, end, dark, light)
      decreases end - x
    {
      if IsModulePixel(img.data, (y * img.width + x) * 4, dark, light) {
        return Some(x);
      }
      x := x + 1;
    }
    return None;
  }

  /** The run loop of `detectModuleSize`. */
  method FindBackgroundInRow(img: Image, y: nat, x0: nat, end: int, dark: Rgb, light: Rgb) returns (stop: Option<nat>)
    ensures stop == FirstBackgroundIn(img, y, x0, end, dark, light)
  {
    var x := x0;
    while x < end
      invariant x0 <= x
      invariant FirstBackgroundIn(img, y, x0, end, dark, light) == FirstBackgroundIn(img, y, x, end, dark, light)
      decreases end - x
    {
      if !IsModulePixel(img.data, (y * img.width + x) * 4, dark, light) {
        return Some(x);
      }
      x := x + 1;
    }
    return None;
  }

  /** `detectModuleSize`, with its mutable `moduleSize` starting at 1. */
  method DetectModuleSize(img: Image, startOffset: nat, colorDarkRgb: Option<Rgb>, colorLightRgb: Option<Rgb>)
    returns (moduleSize: real)
    ensures moduleSize == DetectedSize(img, startOffset, colorDarkRgb, colorLightRgb)
  {
    var dark, light := Black, White;
    if colorDarkRgb.Some? && colorLightRgb.Some? {
      dark, light := colorDarkRgb.value, colorLightRgb.value;
    }
    moduleSize := MeasureSize(img, startOffset, dark, light);
  }

  /** The scan of `detectModuleSize` once its colours are chosen. */
  method MeasureSize(img: Image, offset: nat, dark: Rgb, light: Rgb) returns (moduleSize: real)
    ensures moduleSize == MeasuredSize(img, offset, dark, light)
  {
    var first := FindModuleInRow(img, offset, offset, img.width - offset, dark, light);
    if first.None? {
      return 1.0;
    }
    var run := 1;
    var stop := FindBackgroundInRow(img, offset, first.value + 1, img.width - offset, dark, light);
    if stop.Some? {
      run := stop.value - first.value;
    }
    moduleSize := run as real;
    if run > 5 {
      moduleSize := moduleSize / 7.0;
    }
    moduleSize := MaxReal(1.0, moduleSize);
  }

  // ---------------------------------------------------------------------
  // The SVG document

  /** The elements `canvasToSVG` writes. */
  datatype Element =
    | Background(canvasWidth: nat, canvasHeight: nat, fill: string)       // unframed light background
    | Outline(outerWidth: nat, outerHeight: nat, radius: real, fill: string)  // dark rounded frame at (0, 0)
    | Window(innerX: nat, innerY: nat, innerWidth: int, innerHeight: int, radius: real, fill: string)
    | ModuleRect(x: real, y: real, size: real, fill: string)              // one dark module
    | Label(textX: real, textY: real, fontSize: nat, fill: string, text: string)  // the frame caption

  function Attr(name: string, value: string): string {
    " " + name + "=\"" + value + "\""
  }

  function Num(n: int, num: real -> string): string {
    num(n as real)
  }

  function Render(e: Element, num: real -> string): string {
    match e
    case Background(w, h, fill) =>
      "<rect" + Attr("width", Num(w, num)) + Attr("height", Num(h, num)) + Attr("fill", fill) + "/>"
    case Outline(w, h, r, fill) =>
      "<rect x=\"0\" y=\"0\"" + Attr("width", Num(w, num)) + Attr("height", Num(h, num)) +
      Attr("rx", num(r)) + Attr("ry", num(r)) + Attr("fill", fill) + "/>"
    case Window(x, y, w, h, r, fill) =>
      "<rect" + Attr("x", Num(x, num)) + Attr("y", Num(y, num)) + Attr("width", Num(w, num)) + Attr("height", Num(h, num)) +
      Attr("rx", num(r)) + Attr("ry", num(r)) + Attr("fill", fill) + "/>"
    case ModuleRect(x, y, size, fill) =>
      "<rect" + Attr("x", num(x)) + Attr("y", num(y)) + Attr("width", num(size)) + Attr("height", num(size)) +
      Attr("fill", fill) + "/>"
    case Label(x, y, size, fill, text) =>
      LabelOpen(x, y, size, fill, num) + ">" + text + "</text>"
  }

  function LabelOpen(x: real, y: real, size: nat, fill: string, num: real -> string): string {
    "<text" + Attr("x", num(x)) + Attr("y", num(y)) + Attr("font-family", "'JetBrains Mono', monospace") +
    Attr("font-size", Num(size, num)) + Attr("font-weight", "bold") + Attr("text-anchor", "middle") +
    Attr("fill", fill)
  }

  /** The caption is written verbatim, without escaping, as the content of
      the `<text>` element. */
  lemma LabelVerbatim(x: real, y: real, size: nat, fill: string, text: string, num: real -> string)
    ensures Contains(Render(Label(x, y, size, fill, text), num), ">" + text + "</text>")
  {
    var head := LabelOpen(x, y, size, fill, num);
    var t := head + ">" + text + "</text>";
    assert t[|head|..|head| + |">" + text + "</text>"|] == ">" + text + "</text>";
    assert OccursAt(t, ">" + text + "</text>", |head|);
  }

  /** The elements written one after the other by `render`. */
  function WriteAll(es: seq<Element>, render: Element -> string): string {
    if es == [] then "" else WriteAll(es[..|es| - 1], render) + render(es[|es| - 1])
  }

  lemma WriteAllSnoc(es: seq<Element>, e: Element, render: Element -> string)
    ensures WriteAll(es + [e], render) == WriteAll(es, render) + render(e)
  {
    assert (es + [e])[..|es|] == es;
  }

  lemma {:induction false} WriteAllConcat(a: seq<Element>, b: seq<Element>, render: Element -> string)
    ensures WriteAll(a + b, render) == WriteAll(a, render) + WriteAll(b, render)
    decreases |b|
  {
    if b == [] {
      assert a + b == a;
    } else {
      var b' := b[..|b| - 1];
      assert a + b == (a + b') + [b[|b| - 1]];
      WriteAllSnoc(a + b', b[|b| - 1], render);
      WriteAllConcat(a, b', render);
    }
  }

  /** `Render` with the number formatting fixed. */
  function Renderer(num: real -> string): Element -> string {
    e => Render(e, num)
  }

  /** The elements written one after the other. */
  function RenderAll(es: seq<Element>, num: real -> string): string {
    WriteAll(es, Renderer(num))
  }

  const XmlDeclaration := "<?xml version=\"1.0\" encoding=\"UTF-8\"?>"

  /** The opening tag: width, height and `viewBox="0 0 W H"` from the canvas. */
  function SvgOpen(w: nat, h: nat, num: real -> string): string {
    "<svg xmlns=\"http://www.w3.org/2000/svg\"" + Attr("width", Num(w, num)) + Attr("height", Num(h, num)) +
    Attr("viewBox", "0 0 " + Num(w, num) + " " + Num(h, num)) + ">"
  }

  /** A whole document of a `w` x `h` canvas. */
  function Document(w: nat, h: nat, es: seq<Element>, num: real -> string): (d: string)
    ensures StartsWith(d, XmlDeclaration + SvgOpen(w, h, num))
    ensures |d| >= 6 && d[|d| - 6..] == "</svg>"
  {
    var head := XmlDeclaration + SvgOpen(w, h, num);
    var d := head + RenderAll(es, num) + "</svg>";
    assert d[..|head|] == head;
    d
  }

  // ---------------------------------------------------------------------
  // The unframed path

  /** `parseInt(canvas.dataset.margin) || 0`. */
  function MarginTag(d: Dataset): nat {
    d.margin.GetOr(0)
  }

  /** `parseInt(canvas.dataset.qrSize) || canvas.width`. */
  function QrSizeTag(d: Dataset, width: nat): (n: nat)
    ensures d.qrSize.None? || d.qrSize == Some(0) ==> n == width
  {
    if d.qrSize.Some? && d.qrSize.value != 0 then d.qrSize.value else width
  }

  /** The number of naturals below `x`: the iterations of
      `for (let row = 0; row < x; row++)`. */
  function CountBelow(x: real): (n: nat)
    ensures n as real >= x
    ensures n > 0 ==> (n - 1) as real < x
  {
    if x <= 0.0 then 0
    else if x.Floor as real == x then x.Floor
    else x.Floor + 1
  }

  /** `pixelX = offset + col * moduleSize`. */
  function CellPos(offset: int, i: nat, s: real): real {
    offset as real + i as real * s
  }

  /** The clamped centre sample of cell (row, col) is a module. */
  predicate CellIsModule(img: Image, offset: int, s: real, row: nat, col: nat, dark: Rgb, light: Rgb) {
    IsModuleAt(img, SampleCoord(CellPos(offset, col, s), s, img.width),
               SampleCoord(CellPos(offset, row, s), s, img.height), dark, light)
  }

  function PlainKeep(img: Image, margin: nat, s: real, dark: Rgb, light: Rgb): (nat, nat) -> bool {
    (row: nat, col: nat) => CellIsModule(img, margin, s, row, col, dark, light)
  }

  /** The rectangle of cell (row, col): `s` x `s` at (offset + col s, offset + row s). */
  function RectAt(offset: int, s: real, fill: string): (nat, nat) -> Element {
    (row: nat, col: nat) => ModuleRect(CellPos(offset, col, s), CellPos(offset, row, s), s, fill)
  }

  /** The grid of the unframed path. */
  datatype PlainGrid = PlainGrid(margin: nat, qrSize: nat, moduleSize: real, count: nat)

  function PlainGridFor(img: Image, d: Dataset, dark: Option<Rgb>, light: Option<Rgb>): (g: PlainGrid)
    ensures g.moduleSize >= 1.0
  {
    var margin := MarginTag(d);
    var qrSize := QrSizeTag(d, img.width);
    var s := DetectedSize(img, margin, dark, light);
    PlainGrid(margin, qrSize, s, CountBelow(qrSize as real / s))
  }

  /** What the unframed path returns. */
  function PlainSvg(img: Image, d: Dataset, colorDark: string, colorLight: string, num: real -> string): Option<string> {
    var dark, light := HexToRgb(colorDark), HexToRgb(colorLight);
    var g := PlainGridFor(img, d, dark, light);
    if (dark.None? || light.None?) && g.count > 0 then None
    else
      var keep := PlainKeep(img, g.margin, g.moduleSize, dark.GetOr(Black), light.GetOr(White));
      Some(Document(img.width, img.height,
                    [Background(img.width, img.height, colorLight)] +
                    MapCells(RectAt(g.margin, g.moduleSize, colorDark), Cells(g.count, g.count, keep)), num))
  }

  /** The unframed module rectangles written before cell (row, col). */
  /** The unframed grid's module size is the one detected from the
      margin. */
  lemma PlainGridSize(img: Image, d: Dataset, dark: Option<Rgb>, light: Option<Rgb>)
    ensures PlainGridFor(img, d, dark, light).moduleSize == DetectedSize(img, MarginTag(d), dark, light)
  {
  }

  function PlainSoFar(img: Image, g: PlainGrid, colorDark: string, dark: Rgb, light: Rgb, row: nat, col: nat): seq<Element> {
    MapCells(RectAt(g.margin, g.moduleSize, colorDark),
             Cells(row, g.count, PlainKeep(img, g.margin, g.moduleSize, dark, light)) +
             RowCells(row, col, PlainKeep(img, g.margin, g.moduleSize, dark, light)))
  }

  lemma PlainStep(img: Image, g: PlainGrid, colorDark: string, dark: Rgb, light: Rgb, row: nat, col: nat)
    ensures PlainSoFar(img, g, colorDark, dark, light, row, col + 1) ==
      PlainSoFar(img, g, colorDark, dark, light, row, col) +
      (if CellIsModule(img, g.margin, g.moduleSize, row, col, dark, light)
       then [ModuleRect(CellPos(g.margin, col, g.moduleSize), CellPos(g.margin, row, g.moduleSize), g.moduleSize, colorDark)]
       else [])
  {
    var keep := PlainKeep(img, g.margin, g.moduleSize, dark, light);
    CellsUpToNext(g.count, keep, row, col);
    MapCellsAppend(RectAt(g.margin, g.moduleSize, colorDark), CellsUpTo(g.count, keep, row, col),
                   if keep(row, col) then [(row, col)] else []);
  }

  /** Writing a module cell extends the unframed text by its rectangle. */
  lemma PlainWriteKept(img: Image, g: PlainGrid, colorDark: string, dark: Rgb, light: Rgb, row: nat, col: nat,
                       head: string, render: Element -> string)
    requires CellIsModule(img, g.margin, g.moduleSize, row, col, dark, light)
    ensures head + WriteAll(PlainSoFar(img, g, colorDark, dark, light, row, col + 1), render) ==
      head + WriteAll(PlainSoFar(img, g, colorDark, dark, light, row, col), render) +
      render(ModuleRect(CellPos(g.margin, col, g.moduleSize), CellPos(g.margin, row, g.moduleSize), g.moduleSize, colorDark))
  {
    PlainStep(img, g, colorDark, dark, light, row, col);
    var sofar := PlainSoFar(img, g, colorDark, dark, light, row, col);
    var rect := ModuleRect(CellPos(g.margin, col, g.moduleSize), CellPos(g.margin, row, g.moduleSize), g.moduleSize, colorDark);
    WriteAllSnoc(sofar, rect, render);
    Append(head, WriteAll(sofar, render), render(rect));
  }

  /** A light cell leaves it as it is. */
  lemma PlainWriteSkipped(img: Image, g: PlainGrid, colorDark: string, dark: Rgb, light: Rgb, row: nat, col: nat)
    requires !CellIsModule(img, g.margin, g.moduleSize, row, col, dark, light)
    ensures PlainSoFar(img, g, colorDark, dark, light, row, col + 1) == PlainSoFar(img, g, colorDark, dark, light, row, col)
  {
    PlainStep(img, g, colorDark, dark, light, row, col);
    var sofar := PlainSoFar(img, g, colorDark, dark, light, row, col);
    assert sofar + [] == sofar;
  }

  lemma PlainRowStep(img: Image, g: PlainGrid, colorDark: string, dark: Rgb, light: Rgb, row: nat)
    ensures PlainSoFar(img, g, colorDark, dark, light, row, g.count) == PlainSoFar(img, g, colorDark, dark, light, row + 1, 0)
  {
    CellsUpToNextRow(g.count, PlainKeep(img, g.margin, g.moduleSize, dark, light), row);
  }

  /** The module loops of the unframed path, appending to `svg` what
      `render` writes for each module. A colour that failed to parse gives
      `None` as soon as a cell is sampled, that is, whenever the grid is
      not empty. */
  method PlainModules(img: Image, g: PlainGrid, colorDark: string, darkRgb: Option<Rgb>, lightRgb: Option<Rgb>,
                      head: string, render: Element -> string)
    returns (svg: Option<string>)
    ensures (darkRgb.None? || lightRgb.None?) && g.count > 0 ==> svg.None?
    ensures !((darkRgb.None? || lightRgb.None?) && g.count > 0) ==>
      svg == Some(head + WriteAll(MapCells(RectAt(g.margin, g.moduleSize, colorDark),
                                           Cells(g.count, g.count, PlainKeep(img, g.margin, g.moduleSize,
                                                                             darkRgb.GetOr(Black), lightRgb.GetOr(White)))), render))
  {
    if (darkRgb.None? || lightRgb.None?) && g.count > 0 {
      // cell (0, 0) is sampled first and dereferences the missing colour
      return None;
    }
    var out := PlainLoops(img, g, colorDark, darkRgb.GetOr(Black), lightRgb.GetOr(White), head, render);
    svg := Some(out);
  }

  /** The two module loops of the unframed path once both colours are
      known. */
  method PlainLoops(img: Image, g: PlainGrid, colorDark: string, dark: Rgb, light: Rgb,
                    head: string, render: Element -> string)
    returns (out: string)
    ensures out == head + WriteAll(MapCells(RectAt(g.margin, g.moduleSize, colorDark),
                                            Cells(g.count, g.count, PlainKeep(img, g.margin, g.moduleSize, dark, light))), render)
  {
    out := head;
    for row := 0 to g.count
      invariant out == head + WriteAll(PlainSoFar(img, g, colorDark, dark, light, row, 0), render)
    {
      out := PlainRow(img, g, colorDark, dark, light, row, head, out, render);
    }
    CellsUpToEnd(g.count, g.count, PlainKeep(img, g.margin, g.moduleSize, dark, light));
  }

  /** One pass of the inner loop: the rectangles of row `row`. */
  method PlainRow(img: Image, g: PlainGrid, colorDark: string, dark: Rgb, light: Rgb, row: nat,
                  head: string, out0: string, render: Element -> string)
    returns (out: string)
    requires out0 == head + WriteAll(PlainSoFar(img, g, colorDark, dark, light, row, 0), render)
    ensures out == head + WriteAll(PlainSoFar(img, g, colorDark, dark, light, row + 1, 0), render)
  {
    out := out0;
    for col := 0 to g.count
      invariant out == head + WriteAll(PlainSoFar(img, g, colorDark, dark, light, row, col), render)
    {
      out := PlainWriteCell(img, g, colorDark, dark, light, row, col, head, out, render);
    }
    PlainRowStep(img, g, colorDark, dark, light, row);
  }

  /** The body of the inner loop for cell (row, col): sample the centre
      and append the rectangle when it is a module. */
  method PlainWriteCell(img: Image, g: PlainGrid, colorDark: string, dark: Rgb, light: Rgb, row: nat, col: nat,
                        head: string, out0: string, render: Element -> string)
    returns (out: string)
    requires out0 == head + WriteAll(PlainSoFar(img, g, colorDark, dark, light, row, col), render)
    ensures out == head + WriteAll(PlainSoFar(img, g, colorDark, dark, light, row, col + 1), render)
  {
    var s := g.moduleSize;
    out := out0;
    var pixelX := CellPos(g.margin, col, s);
    var pixelY := CellPos(g.margin, row, s);
    var sampleX := SampleCoord(pixelX, s, img.width);
    var sampleY := SampleCoord(pixelY, s, img.height);
    if IsModuleAt(img, sampleX, sampleY, dark, light) {
      PlainWriteKept(img, g, colorDark, dark, light, row, col, head, render);
      out := out + render(ModuleRect(pixelX, pixelY, s, colorDark));
    } else {
      PlainWriteSkipped(img, g, colorDark, dark, light, row, col);
    }
  }

  // ---------------------------------------------------------------------
  // The framed path

  /** The geometry the framed path computes from the width of the framed
      canvas itself. */
  datatype FramedGrid = FramedGrid(sizes: FrameSizes, borderRadius: real, qrStart: nat, qrEndX: int, qrEndY: int,
                                   moduleSize: real, count: nat)

  function FramedGridFor(img: Image, dark: Option<Rgb>, light: Option<Rgb>): (g: FramedGrid)
    ensures g.moduleSize >= 1.0
    ensures g.sizes == SizesFor(img.width) && g.borderRadius == BorderRadius(img.width)
  {
    var z := SizesFor(img.width);
    var qrStart := z.frameMargin + z.frameWidth;
    var qrEndX := img.width - z.frameMargin - z.frameWidth;
    var qrEndY := img.height - z.frameMargin - z.frameWidth - z.textAreaHeight;
    var s := DetectedSize(img, qrStart, dark, light);
    var modules := Round((qrEndX - qrStart) as real / s);
    FramedGrid(z, BorderRadius(img.width), qrStart, qrEndX, qrEndY, s, if modules < 0 then 0 else modules)
  }

  /** `pixelX < qrEndX && pixelY < qrEndY` and the centre sample is a module. */
  predicate FramedCell(img: Image, g: FramedGrid, row: nat, col: nat, dark: Rgb, light: Rgb) {
    CellPos(g.qrStart, col, g.moduleSize) < g.qrEndX as real &&
    CellPos(g.qrStart, row, g.moduleSize) < g.qrEndY as real &&
    CellIsModule(img, g.qrStart, g.moduleSize, row, col, dark, light)
  }

  function FramedKeep(img: Image, g: FramedGrid, dark: Rgb, light: Rgb): (nat, nat) -> bool {
    (row: nat, col: nat) => FramedCell(img, g, row, col, dark, light)
  }

  /** Some cell passes the `pixelX < qrEndX && pixelY < qrEndY` guard. */
  predicate AnyCellInside(g: FramedGrid) {
    g.count > 0 && g.qrStart < g.qrEndX && g.qrStart < g.qrEndY
  }

  /** The frame and window rectangles, before the modules. */
  function FrameElements(img: Image, g: FramedGrid, colorDark: string, colorLight: string): seq<Element> {
    var fw := g.sizes.frameWidth;
    [Outline(img.width, img.height, g.borderRadius, colorDark),
     Window(fw, fw, img.width - fw * 2, img.height - fw * 2 - g.sizes.textAreaHeight,
            InnerRadius(g.borderRadius, fw), colorLight)]
  }

  /** The caption, centred in the band below the window. */
  function LabelElement(img: Image, g: FramedGrid, colorLight: string, frameText: string): Element {
    Label(img.width as real / 2.0, img.height as real - g.sizes.textAreaHeight as real / 2.0,
          g.sizes.textHeight, colorLight, frameText)
  }

  /** What the framed path returns. */
  function FramedSvg(img: Image, frameText: string, colorDark: string, colorLight: string, num: real -> string): Option<string> {
    var dark, light := HexToRgb(colorDark), HexToRgb(colorLight);
    var g := FramedGridFor(img, dark, light);
    if (dark.None? || light.None?) && AnyCellInside(g) then None
    else
      var keep := FramedKeep(img, g, dark.GetOr(Black), light.GetOr(White));
      Some(Document(img.width, img.height,
                    FrameElements(img, g, colorDark, colorLight) +
                    MapCells(RectAt(g.qrStart, g.moduleSize, colorDark), Cells(g.count, g.count, keep)) +
                    [LabelElement(img, g, colorLight, frameText)], num))
  }

  /** The framed grid's module size is the one detected from the start of
      the QR area, inside the frame. */
  lemma FramedGridSize(img: Image, dark: Option<Rgb>, light: Option<Rgb>)
    ensures var z := SizesFor(img.width);
      FramedGridFor(img, dark, light).moduleSize == DetectedSize(img, z.frameMargin + z.frameWidth, dark, light)
  {
  }

  function FramedSoFar(img: Image, g: FramedGrid, colorDark: string, dark: Rgb, light: Rgb, row: nat, col: nat): seq<Element> {
    MapCells(RectAt(g.qrStart, g.moduleSize, colorDark),
             Cells(row, g.count, FramedKeep(img, g, dark, light)) + RowCells(row, col, FramedKeep(img, g, dark, light)))
  }

  lemma FramedStep(img: Image, g: FramedGrid, colorDark: string, dark: Rgb, light: Rgb, row: nat, col: nat)
    ensures FramedSoFar(img, g, colorDark, dark, light, row, col + 1) ==
      FramedSoFar(img, g, colorDark, dark, light, row, col) +
      (if FramedCell(img, g, row, col, dark, light)
       then [ModuleRect(CellPos(g.qrStart, col, g.moduleSize), CellPos(g.qrStart, row, g.moduleSize), g.moduleSize, colorDark)]
       else [])
  {
    var keep := FramedKeep(img, g, dark, light);
    CellsUpToNext(g.count, keep, row, col);
    MapCellsAppend(RectAt(g.qrStart, g.moduleSize, colorDark), CellsUpTo(g.count, keep, row, col),
                   if keep(row, col) then [(row, col)] else []);
  }

  lemma FramedRowStep(img: Image, g: FramedGrid, colorDark: string, dark: Rgb, light: Rgb, row: nat)
    ensures FramedSoFar(img, g, colorDark, dark, light, row, g.count) == FramedSoFar(img, g, colorDark, dark, light, row + 1, 0)
  {
    CellsUpToNextRow(g.count, FramedKeep(img, g, dark, light), row);
  }

  /** A cell that passes the guard means cell (0, 0) passes it too. */
  lemma GuardedCellMeansAny(g: FramedGrid, row: nat, col: nat)
    requires g.moduleSize >= 1.0 && row < g.count && col < g.count
    requires CellPos(g.qrStart, col, g.moduleSize) < g.qrEndX as real
    requires CellPos(g.qrStart, row, g.moduleSize) < g.qrEndY as real
    ensures AnyCellInside(g)
  {
    assert col as real * g.moduleSize >= 0.0;
    assert row as real * g.moduleSize >= 0.0;
  }

  /** Writing a kept cell extends the framed text by its rectangle. */
  lemma FramedWriteKept(img: Image, g: FramedGrid, colorDark: string, dark: Rgb, light: Rgb, row: nat, col: nat,
                        head: string, render: Element -> string)
    requires FramedCell(img, g, row, col, dark, light)
    ensures head + WriteAll(FramedSoFar(img, g, colorDark, dark, light, row, col + 1), render) ==
      head + WriteAll(FramedSoFar(img, g, colorDark, dark, light, row, col), render) +
      render(ModuleRect(CellPos(g.qrStart, col, g.moduleSize), CellPos(g.qrStart, row, g.moduleSize), g.moduleSize, colorDark))
  {
    FramedStep(img, g, colorDark, dark, light, row, col);
    var sofar := FramedSoFar(img, g, colorDark, dark, light, row, col);
    var rect := ModuleRect(CellPos(g.qrStart, col, g.moduleSize), CellPos(g.qrStart, row, g.moduleSize), g.moduleSize, colorDark);
    WriteAllSnoc(sofar, rect, render);
    Append(head, WriteAll(sofar, render), render(rect));
  }

  /** Any other cell leaves it as it is. */
  lemma FramedWriteSkipped(img: Image, g: FramedGrid, colorDark: string, dark: Rgb, light: Rgb, row: nat, col: nat)
    requires !FramedCell(img, g, row, col, dark, light)
    ensures FramedSoFar(img, g, colorDark, dark, light, row, col + 1) == FramedSoFar(img, g, colorDark, dark, light, row, col)
  {
    FramedStep(img, g, colorDark, dark, light, row, col);
    var sofar := FramedSoFar(img, g, colorDark, dark, light, row, col);
    assert sofar + [] == sofar;
  }

  /** The module loops of the framed path. Only cells whose corner lies
      before `qrEndX` and `qrEndY` are sampled, so a colour that failed to
      parse yields `None` exactly when such a cell exists. */
  method FramedModules(img: Image, g: FramedGrid, colorDark: string, darkRgb: Option<Rgb>, lightRgb: Option<Rgb>,
                       head: string, render: Element -> string)
    returns (svg: Option<string>)
    ensures (darkRgb.None? || lightRgb.None?) && AnyCellInside(g) ==> svg.None?
    ensures !((darkRgb.None? || lightRgb.None?) && AnyCellInside(g)) ==>
      svg == Some(head + WriteAll(MapCells(RectAt(g.qrStart, g.moduleSize, colorDark),
                                           Cells(g.count, g.count, FramedKeep(img, g, darkRgb.GetOr(Black), lightRgb.GetOr(White)))), render))
  {
    if (darkRgb.None? || lightRgb.None?) && AnyCellInside(g) {
      // cell (0, 0) passes the guard and its sample dereferences the missing colour
      return None;
    }
    var dark, light := darkRgb.GetOr(Black), lightRgb.GetOr(White);
    var out := head;
    for row := 0 to g.count
      invariant out == head + WriteAll(FramedSoFar(img, g, colorDark, dark, light, row, 0), render)
    {
      out := FramedRow(img, g, colorDark, dark, light, row, head, out, render);
    }
    CellsUpToEnd(g.count, g.count, FramedKeep(img, g, dark, light));
    svg := Some(out);
  }

  /** One pass of the inner loop of the framed path. */
  method FramedRow(img: Image, g: FramedGrid, colorDark: string, dark: Rgb, light: Rgb, row: nat,
                   head: string, out0: string, render: Element -> string)
    returns (out: string)
    requires out0 == head + WriteAll(FramedSoFar(img, g, colorDark, dark, light, row, 0), render)
    ensures out == head + WriteAll(FramedSoFar(img, g, colorDark, dark, light, row + 1, 0), render)
  {
    out := out0;
    for col := 0 to g.count
      invariant out == head + WriteAll(FramedSoFar(img, g, colorDark, dark, light, row, col), render)
    {
      out := FramedWriteCell(img, g, colorDark, dark, light, row, col, head, out, render);
    }
    FramedRowStep(img, g, colorDark, dark, light, row);
  }

  /** The body of the inner loop for cell (row, col): a cell whose corner
      lies inside the QR area is sampled, and its rectangle appended when it
      is a module. */
  method FramedWriteCell(img: Image, g: FramedGrid, colorDark: string, dark: Rgb, light: Rgb, row: nat, col: nat,
                         head: string, out0: string, render: Element -> string)
    returns (out: string)
    requires out0 == head + WriteAll(FramedSoFar(img, g, colorDark, dark, light, row, col), render)
    ensures out == head + WriteAll(FramedSoFar(img, g, colorDark, dark, light, row, col + 1), render)
  {
    var s := g.moduleSize;
    out := out0;
    var pixelX := CellPos(g.qrStart, col, s);
    var pixelY := CellPos(g.qrStart, row, s);
    if pixelX < g.qrEndX as real && pixelY < g.qrEndY as real {
      var sampleX := SampleCoord(pixelX, s, img.width);
      var sampleY := SampleCoord(pixelY, s, img.height);
      if IsModuleAt(img, sampleX, sampleY, dark, light) {
        FramedWriteKept(img, g, colorDark, dark, light, row, col, head, render);
        out := out + render(ModuleRect(pixelX, pixelY, s, colorDark));
      } else {
        FramedWriteSkipped(img, g, colorDark, dark, light, row, col);
      }
    } else {
      FramedWriteSkipped(img, g, colorDark, dark, light, row, col);
    }
  }

  // ---------------------------------------------------------------------
  // canvasToSVG

  /** The framed path is taken when the frame tag is "true" and the caption
      tag is not empty. */
  predicate IsFramed(d: Dataset) {
    d.hasFrame == Some("true") && d.frameText.Some? && d.frameText.value != ""
  }

  /** What `canvasToSVG(canvas, colorDark, colorLight)` returns for a canvas
      with tags `d` whose pixels are `img`. */
  function SvgFor(img: Image, d: Dataset, colorDark: string, colorLight: string, num: real -> string): Option<string> {
    if IsFramed(d) then FramedSvg(img, d.frameText.value, colorDark, colorLight, num)
    else PlainSvg(img, d, colorDark, colorLight, num)
  }

  /** `canvasToSVG`. `pixels` is what `getImageData` returns for the canvas. */
  method CanvasToSvg(canvas: Canvas, pixels: Image, colorDark: string, colorLight: string, num: real -> string)
    returns (svg: Option<string>)
    requires pixels.width == canvas.width && pixels.height == canvas.height
    ensures svg == SvgFor(pixels, canvas.dataset, colorDark, colorLight, num)
  {
    var hasFrame := canvas.dataset.hasFrame == Some("true");
    var frameText := canvas.dataset.frameText.GetOr("");
    if hasFrame && frameText != "" {
      svg := FramedToSvg(pixels, frameText, colorDark, colorLight, num);
    } else {
      svg := PlainToSvg(pixels, canvas.dataset, colorDark, colorLight, num);
    }
  }

  /** The framed branch of `canvasToSVG`. */
  method FramedToSvg(pixels: Image, frameText: string, colorDark: string, colorLight: string, num: real -> string)
    returns (svg: Option<string>)
    ensures svg == FramedSvg(pixels, frameText, colorDark, colorLight, num)
  {
    var render := Renderer(num);
    var head := XmlDeclaration + SvgOpen(pixels.width, pixels.height, num);
    var darkRgb, lightRgb := HexToRgb(colorDark), HexToRgb(colorLight);
    var z := SizesFor(pixels.width);
    var qrStart := z.frameMargin + z.frameWidth;
    var moduleSize := DetectModuleSize(pixels, qrStart, darkRgb, lightRgb);
    var g := FramedGridFor(pixels, darkRgb, lightRgb);
    FramedGridSize(pixels, darkRgb, lightRgb);
    assert moduleSize == g.moduleSize;
    var frame := FrameElements(pixels, g, colorDark, colorLight);
    var withFrame := head + render(frame[0]) + render(frame[1]);
    var body := FramedModules(pixels, g, colorDark, darkRgb, lightRgb, withFrame, render);
    if body.None? {
      return None;
    }
    var caption := LabelElement(pixels, g, colorLight, frameText);
    svg := Some(body.value + render(caption) + "</svg>");
    FramedText(head, "</svg>", frame,
               MapCells(RectAt(g.qrStart, g.moduleSize, colorDark),
                        Cells(g.count, g.count, FramedKeep(pixels, g, darkRgb.GetOr(Black), lightRgb.GetOr(White)))),
               caption, render);
  }

  /** The unframed branch of `canvasToSVG`. */
  method PlainToSvg(pixels: Image, d: Dataset, colorDark: string, colorLight: string, num: real -> string)
    returns (svg: Option<string>)
    ensures svg == PlainSvg(pixels, d, colorDark, colorLight, num)
  {
    var render := Renderer(num);
    var head := XmlDeclaration + SvgOpen(pixels.width, pixels.height, num);
    var darkRgb, lightRgb := HexToRgb(colorDark), HexToRgb(colorLight);
    var margin := MarginTag(d);
    var moduleSize := DetectModuleSize(pixels, margin, darkRgb, lightRgb);
    var g := PlainGridFor(pixels, d, darkRgb, lightRgb);
    PlainGridSize(pixels, d, darkRgb, lightRgb);
    assert moduleSize == g.moduleSize;
    var background := Background(pixels.width, pixels.height, colorLight);
    var body := PlainModules(pixels, g, colorDark, darkRgb, lightRgb, head + render(background), render);
    if body.None? {
      return None;
    }
    svg := Some(body.value + "</svg>");
    PlainText(head, "</svg>", background,
              MapCells(RectAt(g.margin, g.moduleSize, colorDark),
                       Cells(g.count, g.count, PlainKeep(pixels, g.margin, g.moduleSize, darkRgb.GetOr(Black), lightRgb.GetOr(White)))),
              render);
  }

  /** The framed document written piece by piece: frame, window, modules,
      caption. */
  lemma FramedText(head: string, tail: string, frame: seq<Element>, rects: seq<Element>, caption: Element,
                   render: Element -> string)
    requires |frame| == 2
    ensures head + render(frame[0]) + render(frame[1]) + WriteAll(rects, render) + render(caption) + tail ==
      head + WriteAll(frame + rects + [caption], render) + tail
  {
    WriteAllSnoc(frame + rects, caption, render);
    WriteAllConcat(frame, rects, render);
    WriteOne(frame[0], render);
    WriteAllSnoc([frame[0]], frame[1], render);
    assert [frame[0]] + [frame[1]] == frame;
  }

  /** The unframed document written piece by piece: background, modules. */
  lemma PlainText(head: string, tail: string, background: Element, rects: seq<Element>, render: Element -> string)
    ensures head + render(background) + WriteAll(rects, render) + tail == head + WriteAll([background] + rects, render) + tail
  {
    WriteOne(background, render);
    WriteAllConcat([background], rects, render);
  }

  lemma WriteOne(e: Element, render: Element -> string)
    ensures WriteAll([e], render) == render(e)
  {
    assert [e][..0] == [];
  }

  lemma Append(h: string, x: string, y: string)
    ensures h + x + y == h + (x + y)
  {
  }

  // ---------------------------------------------------------------------
  // The reconstructed frame against the drawn one

  /** The framed path recomputes the frame sizes from the width of the
      framed canvas, while `applyFrame` computed them from the width before
      framing. Below 150 pixels the two agree. */
  lemma FrameGeometryAgreesOnSmallCodes(width: nat, height: nat)
    requires width < 150
    ensures SizesFor(LayoutFor(width, height).framedWidth) == SizesFor(width)
  {
  }

  /** The two agree at the default size of 256 pixels. */
  lemma FrameGeometryAgreesAtDefaultSize()
    ensures SizesFor(LayoutFor(256, 256).framedWidth) == SizesFor(256)
  {
  }

  /** At 1000 pixels they disagree: the QR code was drawn 60 pixels in,
      but the module grid is searched from 66 pixels in. */
  lemma FrameGeometryDriftsOnLargeCodes()
    ensures LayoutFor(1000, 1000).qrX == 60
    ensures LayoutFor(1000, 1000).framedWidth == 1120
    ensures SizesFor(1120).frameMargin + SizesFor(1120).frameWidth == 66
  {
  }
}
