/** Composition of the final canvas by the generator (`generate`,
    `applyFrame`, `validateData` and `getOptimalErrorCorrection` in
    js/qrGenerator.js). The products `canvas.width * 0.02` and the like
    are taken as the exact quotients `W / 50`, ...; the QR library itself
    is not modelled, its rendering is an arbitrary image. */
module Compositor {
  import opened Wrappers
  import opened Text
  import opened Drawing
  import opened Shape
  import opened Caption

  /** `value || fallback` for a text option; an absent option is "". */
  function OrDefault(value: string, fallback: string): (r: string)
    ensures r != "" <==> value != "" || fallback != ""
  {
    if value != "" then value else fallback
  }

  /** The integer sizes `applyFrame` derives from the width of the canvas
      it frames. */
  datatype FrameSizes = FrameSizes(frameWidth: nat, frameMargin: nat, textHeight: nat, textAreaHeight: nat)

  /** `Math.max(3, Math.floor(W * 0.02))` and the three sizes after it:
      each size is its minimum on a narrow canvas, and otherwise 2 %, 4 %,
      6 % or 12 % of the width rounded down. */
  function SizesFor(width: nat): (z: FrameSizes)
    ensures z.frameWidth >= 3 && z.frameMargin >= 15 && z.textHeight >= 18 && z.textAreaHeight >= 40
    ensures width < 150 ==> z.frameWidth == 3
    ensures width >= 150 ==> z.frameWidth * 50 <= width < (z.frameWidth + 1) * 50
    ensures width < 375 ==> z.frameMargin == 15
    ensures width >= 375 ==> z.frameMargin * 25 <= width < (z.frameMargin + 1) * 25
    ensures 3 * width < 900 ==> z.textHeight == 18
    ensures 3 * width >= 900 ==> z.textHeight * 50 <= 3 * width < (z.textHeight + 1) * 50
    ensures 3 * width < 1000 ==> z.textAreaHeight == 40
    ensures 3 * width >= 1000 ==> z.textAreaHeight * 25 <= 3 * width < (z.textAreaHeight + 1) * 25
  {
    FrameSizes(MaxInt(3, width / 50), MaxInt(15, width / 25), MaxInt(18, 3 * width / 50), MaxInt(40, 3 * width / 25))
  }

  /** The frame sizes grow with the width. */
  lemma SizesMonotone(w1: nat, w2: nat)
    requires w1 <= w2
    ensures SizesFor(w1).frameWidth <= SizesFor(w2).frameWidth
    ensures SizesFor(w1).frameMargin <= SizesFor(w2).frameMargin
    ensures SizesFor(w1).textHeight <= SizesFor(w2).textHeight
    ensures SizesFor(w1).textAreaHeight <= SizesFor(w2).textAreaHeight
  {
    assert w1 / 50 <= w2 / 50;
    assert w1 / 25 <= w2 / 25;
    assert 3 * w1 / 50 <= 3 * w2 / 50;
    assert 3 * w1 / 25 <= 3 * w2 / 25;
  }

  /** `Math.min(15, newWidth * 0.025)`. */
  function BorderRadius(framedWidth: nat): (r: real)
    ensures 0.0 <= r <= 15.0
    ensures r * 40.0 <= framedWidth as real
  {
    MinReal(15.0, framedWidth as real / 40.0)
  }

  /** `Math.max(0, borderRadius - frameWidth)`. */
  function InnerRadius(borderRadius: real, frameWidth: nat): (r: real)
    ensures 0.0 <= r && r <= MaxReal(0.0, borderRadius)
  {
    MaxReal(0.0, borderRadius - frameWidth as real)
  }

  /** Everything `applyFrame` places, for a canvas of `width` x `height`. */
  datatype FrameLayout = FrameLayout(
    sizes: FrameSizes,
    framedWidth: nat, framedHeight: nat,
    borderRadius: real, innerX: nat, innerY: nat, innerWidth: int, innerHeight: int, innerRadius: real,
    qrX: nat, qrY: nat, textY: real)

  function LayoutFor(width: nat, height: nat): (g: FrameLayout)
    ensures g.sizes == SizesFor(width)
  {
    var z := SizesFor(width);
    var space := z.frameMargin * 2 + z.frameWidth * 2;
    var w, h := width + space, height + space + z.textAreaHeight;
    var br := BorderRadius(w);
    FrameLayout(z, w, h, br, z.frameWidth, z.frameWidth, w - z.frameWidth * 2, h - z.frameWidth * 2 - z.textAreaHeight,
                InnerRadius(br, z.frameWidth), z.frameMargin + z.frameWidth, z.frameMargin + z.frameWidth,
                h as real - z.textAreaHeight as real / 2.0)
  }

  /** The framed canvas grows by twice the margin and border on each axis
      and by the caption band vertically, the corner radius is at most 15
      and the inner radius never negative, and the QR sits inside the light
      window with exactly `frameMargin` of light on all four sides. */
  lemma LayoutGeometry(width: nat, height: nat)
    ensures var g := LayoutFor(width, height);
      var z := g.sizes;
      g.framedWidth == width + 2 * (z.frameMargin + z.frameWidth) &&
      g.framedHeight == height + 2 * (z.frameMargin + z.frameWidth) + z.textAreaHeight &&
      g.borderRadius <= 15.0 && g.innerRadius >= 0.0 &&
      g.qrX - g.innerX == z.frameMargin &&
      g.qrY - g.innerY == z.frameMargin &&
      (g.innerX + g.innerWidth) - (g.qrX + width) == z.frameMargin &&
      (g.innerY + g.innerHeight) - (g.qrY + height) == z.frameMargin &&
      g.framedHeight as real - g.textY == z.textAreaHeight as real / 2.0
  {
  }

  /** The caption band lies below the light window, inside the border. */
  lemma CaptionBelowWindow(width: nat, height: nat)
    ensures var g := LayoutFor(width, height);
      (g.innerY + g.innerHeight) as real < g.textY < g.framedHeight as real
  {
  }

  /** The drawing `applyFrame` paints over the whole framed canvas: light
      background, dark rounded border, light rounded window, the original
      canvas, and the caption centred in the band below. */
  function FrameContent(inner: seq<Layer>, width: nat, height: nat, caption: string, colorDark: string, colorLight: string): (c: seq<Layer>)
    ensures |c| == 5
    ensures c[3] == Picture(LayoutFor(width, height).qrX, LayoutFor(width, height).qrY, width, height, inner)
  {
    var g := LayoutFor(width, height);
    var light, dark := OrDefault(colorLight, "#ffffff"), OrDefault(colorDark, "#000000");
    [Fill(0, 0, g.framedWidth, g.framedHeight, light),
     RoundedBox(0, 0, g.framedWidth, g.framedHeight, g.borderRadius, dark),
     RoundedBox(g.innerX, g.innerY, g.innerWidth, g.innerHeight, g.innerRadius, light),
     Picture(g.qrX, g.qrY, width, height, inner),
     Caption(caption, g.framedWidth as real / 2.0, g.textY, g.sizes.textHeight, light)]
  }

  /** `applyFrame(canvas, options)`. With an empty caption nothing changes;
      otherwise the canvas is resized (which clears it), the framed drawing
      is copied onto it, and the frame tags are written. */
  method ApplyFrame(canvas: Canvas, opts: FrameOptions, decode: string -> Option<string>)
    modifies canvas
    ensures FrameCaption(opts, decode) == "" ==>
      canvas.width == old(canvas.width) && canvas.height == old(canvas.height) &&
      canvas.layers == old(canvas.layers) && canvas.dataset == old(canvas.dataset)
    ensures FrameCaption(opts, decode) != "" ==>
      var g := LayoutFor(old(canvas.width), old(canvas.height));
      canvas.width == g.framedWidth && canvas.height == g.framedHeight &&
      canvas.layers == [Picture(0, 0, g.framedWidth, g.framedHeight,
                                FrameContent(old(canvas.layers), old(canvas.width), old(canvas.height),
                                             FrameCaption(opts, decode), opts.colorDark, opts.colorLight))] &&
      canvas.dataset == old(canvas.dataset).(hasFrame := Some("true"), frameText := Some(FrameCaption(opts, decode)))
  {
    var frameText := FrameCaption(opts, decode);
    if frameText == "" {
      return;
    }
    var g := LayoutFor(canvas.width, canvas.height);
    var content := FrameContent(canvas.layers, canvas.width, canvas.height, frameText, opts.colorDark, opts.colorLight);
    canvas.width := g.framedWidth;
    canvas.height := g.framedHeight;
    canvas.layers := [Picture(0, 0, g.framedWidth, g.framedHeight, content)];
    canvas.dataset := canvas.dataset.(hasFrame := Some("true"), frameText := Some(frameText));
  }

  /** The options of `generate` the model reads. `margin` and `width` are 0
      when absent, which `||` treats alike. */
  datatype GenerateOptions = GenerateOptions(margin: nat, width: nat, moduleShape: string, frame: FrameOptions)

  /** `(options.margin || 0) * 8`: the margin is given in modules of 8 pixels. */
  function MarginPixels(opts: GenerateOptions): nat {
    opts.margin * 8
  }

  /** `options.width || 256`. */
  function QrSize(opts: GenerateOptions): (n: nat)
    ensures n > 0
  {
    if opts.width != 0 then opts.width else 256
  }

  /** `qrSize + marginPixels * 2`. */
  function TotalSize(opts: GenerateOptions): nat {
    QrSize(opts) + MarginPixels(opts) * 2
  }

  /** The shape pass runs for a shape other than `square`. */
  predicate ReshapeWanted(opts: GenerateOptions) {
    opts.moduleShape != "" && opts.moduleShape != "square"
  }

  /** The frame pass runs for a frame option other than `none`. */
  predicate FrameWanted(opts: GenerateOptions) {
    opts.frame.frameOption != "" && opts.frame.frameOption != "none"
  }

  /** The drawing of the library's canvas after the optional shape pass. */
  function QrLayers(opts: GenerateOptions, rendered: Image): (l: seq<Layer>)
    requires rendered.width == QrSize(opts) && rendered.height == QrSize(opts)
    ensures !ReshapeWanted(opts) ==> l == [Bitmap(rendered)]
  {
    var n := QrSize(opts);
    if ReshapeWanted(opts) then
      match ShapedGrid(rendered, opts.moduleShape, opts.frame.colorDark, opts.frame.colorLight)
      case None => [Bitmap(rendered)]
      case Some(g) => [Picture(0, 0, n, n, [Fill(0, 0, n, n, opts.frame.colorLight), Shapes(opts.frame.colorDark, g.prims)])]
    else [Bitmap(rendered)]
  }

  /** The final canvas before framing: a light square of the total size with
      the QR drawing scaled into it at the margin. */
  function MarginedLayers(opts: GenerateOptions, rendered: Image): seq<Layer>
    requires rendered.width == QrSize(opts) && rendered.height == QrSize(opts)
  {
    var t, m, n := TotalSize(opts), MarginPixels(opts), QrSize(opts);
    [Fill(0, 0, t, t, OrDefault(opts.frame.colorLight, "#ffffff")), Picture(m, m, n, n, QrLayers(opts, rendered))]
  }

  /** The margined canvas is a light square on which the code, at its full
      `qrSize`, leaves exactly `margin * 8` pixels of light on each of the
      four sides. */
  lemma MarginedGeometry(opts: GenerateOptions, rendered: Image)
    requires rendered.width == QrSize(opts) && rendered.height == QrSize(opts)
    ensures var l := MarginedLayers(opts, rendered);
      var t, m := TotalSize(opts), MarginPixels(opts);
      |l| == 2 && l[0].Fill? && l[0] == Fill(0, 0, t, t, l[0].colour) &&
      (l[0].colour == opts.frame.colorLight || (opts.frame.colorLight == "" && l[0].colour == "#ffffff")) &&
      l[1].Picture? && l[1].w == QrSize(opts) && l[1].h == QrSize(opts) &&
      l[1].x == m && l[1].y == m && t - (l[1].x + l[1].w) == m && t - (l[1].y + l[1].h) == m
  {
  }

  /** The callback of `generate` once the library has drawn `rendered` on its
      `qrSize` x `qrSize` canvas: the shape pass, the margins, the frame pass
      (with the payload as `qrData`), then the margin and size tags. */
  method Generate(data: string, opts: GenerateOptions, rendered: Image, decode: string -> Option<string>)
    returns (canvas: Canvas)
    requires rendered.width == QrSize(opts) && rendered.height == QrSize(opts)
    ensures fresh(canvas)
    ensures canvas.dataset.margin == Some(MarginPixels(opts)) && canvas.dataset.qrSize == Some(QrSize(opts))
    ensures var caption := if FrameWanted(opts) then FrameCaption(opts.frame.(qrData := data), decode) else "";
      var t := TotalSize(opts);
      if caption == "" then
        canvas.width == t && canvas.height == t && canvas.layers == MarginedLayers(opts, rendered) &&
        canvas.dataset.hasFrame.None? && canvas.dataset.frameText.None?
      else
        var g := LayoutFor(t, t);
        canvas.width == g.framedWidth && canvas.height == g.framedHeight &&
        canvas.layers == [Picture(0, 0, g.framedWidth, g.framedHeight,
                                  FrameContent(MarginedLayers(opts, rendered), t, t, caption,
                                               opts.frame.colorDark, opts.frame.colorLight))] &&
        canvas.dataset.hasFrame == Some("true") && canvas.dataset.frameText == Some(caption)
  {
    canvas := MarginedCanvas(opts, rendered);
    if FrameWanted(opts) {
      ApplyFrame(canvas, opts.frame.(qrData := data), decode);
    }
    canvas.dataset := canvas.dataset.(margin := Some(MarginPixels(opts)), qrSize := Some(QrSize(opts)));
  }

  /** The part of `generate`'s callback before the frame pass: the shape
      pass on a copy of the library's canvas, then that copy drawn at the
      margin on a light canvas of the total size. */
  method MarginedCanvas(opts: GenerateOptions, rendered: Image) returns (canvas: Canvas)
    requires rendered.width == QrSize(opts) && rendered.height == QrSize(opts)
    ensures fresh(canvas)
    ensures canvas.width == TotalSize(opts) && canvas.height == TotalSize(opts)
    ensures canvas.layers == MarginedLayers(opts, rendered)
    ensures canvas.dataset == Dataset(None, None, None, None)
  {
    var qrSize := QrSize(opts);
    var marginPixels := MarginPixels(opts);
    var totalSize := qrSize + marginPixels * 2;
    var temp := new Canvas(qrSize, qrSize);
    temp.layers := [Bitmap(rendered)];
    if ReshapeWanted(opts) {
      ApplyModuleShape(temp, rendered, opts.moduleShape, opts.frame.colorDark, opts.frame.colorLight);
    }
    canvas := new Canvas(totalSize, totalSize);
    canvas.layers := [Fill(0, 0, totalSize, totalSize, OrDefault(opts.frame.colorLight, "#ffffff")),
                      Picture(marginPixels, marginPixels, qrSize, qrSize, temp.layers)];
  }

  /** `validateData(data)`: the error message, or `Ok` for `true`. */
  function ValidateData(data: string): (r: Result<bool, string>)
    ensures r.Ok? <==> Trim(data) != "" && |data| <= 2953
    ensures r.Ok? ==> r.value
  {
    if data == "" || Trim(data) == "" then Err("Data cannot be empty")
    else if |data| > 2953 then Err("Data is too long for QR code")
    else Ok(true)
  }

  /** Error-correction levels, weakest first. */
  datatype Level = L | M | Q | H {
    function Strength(): nat {
      match this
      case L => 0
      case M => 1
      case Q => 2
      case H => 3
    }
  }

  /** `getOptimalErrorCorrection(data)`. */
  function OptimalErrorCorrection(data: string): (l: Level)
    ensures |data| < 100 <==> l == H
    ensures 100 <= |data| < 500 <==> l == Q
    ensures 500 <= |data| < 1000 <==> l == M
    ensures |data| >= 1000 <==> l == L
  {
    if |data| < 100 then H
    else if |data| < 500 then Q
    else if |data| < 1000 then M
    else L
  }

  /** Longer data never gets a stronger level. */
  lemma ErrorCorrectionMonotone(a: string, b: string)
    requires |a| <= |b|
    ensures OptimalErrorCorrection(b).Strength() <= OptimalErrorCorrection(a).Strength()
  {
  }
}
