/** Colour parsing and the module classifier of the QR generator
    (`hexToRgb`, `isModulePixel` in js/qrGenerator.js). The classifier
    compares squared Euclidean distances: the square root the source takes
    is monotone on non-negative numbers, so the comparison is the same. */
module Colour {
  import opened Wrappers

  newtype byte = x: int | 0 <= x < 256

  datatype Rgb = Rgb(r: byte, g: byte, b: byte)

  predicate IsHexDigit(c: char) {
    '0' <= c <= '9' || 'a' <= c <= 'f' || 'A' <= c <= 'F'
  }

  function HexValue(c: char): (v: nat)
    requires IsHexDigit(c)
    ensures v < 16
  {
    if '0' <= c <= '9' then c as int - '0' as int
    else if 'a' <= c <= 'f' then c as int - 'a' as int + 10
    else c as int - 'A' as int + 10
  }

  predicate AllHex(s: string) {
    forall k :: 0 <= k < |s| ==> IsHexDigit(s[k])
  }

  /** What the pattern `^#?([a-f\d]{2})([a-f\d]{2})([a-f\d]{2})$` with the
      case-insensitive flag accepts: six hex digits, optionally after `#`. */
  predicate IsHexColour(hex: string) {
    (|hex| == 6 && AllHex(hex)) || (|hex| == 7 && hex[0] == '#' && AllHex(hex[1..]))
  }

  /** `parseInt` of two hex digits. */
  function HexPair(hi: char, lo: char): (v: byte)
    requires IsHexDigit(hi) && IsHexDigit(lo)
  {
    (16 * HexValue(hi) + HexValue(lo)) as byte
  }

  /** `hexToRgb`: `None` stands for the source's `null`. */
  function HexToRgb(hex: string): (r: Option<Rgb>)
    ensures r.Some? <==> IsHexColour(hex)
  {
    var d := if |hex| == 7 && hex[0] == '#' then hex[1..] else hex;
    if |d| == 6 && AllHex(d) then
      Some(Rgb(HexPair(d[0], d[1]), HexPair(d[2], d[3]), HexPair(d[4], d[5])))
    else None
  }

  function HexDigitChar(n: nat): (c: char)
    requires n < 16
    ensures IsHexDigit(c) && HexValue(c) == n
  {
    "0123456789abcdef"[n]
  }

  /** The `#rrggbb` form of a colour, as a colour picker reports it. */
  function ToHex(c: Rgb): (s: string)
    ensures |s| == 7 && s[0] == '#'
  {
    "#" + [HexDigitChar(c.r as nat / 16), HexDigitChar(c.r as nat % 16),
           HexDigitChar(c.g as nat / 16), HexDigitChar(c.g as nat % 16),
           HexDigitChar(c.b as nat / 16), HexDigitChar(c.b as nat % 16)]
  }

  /** Every colour survives formatting and parsing back. */
  lemma HexRoundTrip(c: Rgb)
    ensures HexToRgb(ToHex(c)) == Some(c)
  {
    var s := ToHex(c);
    assert AllHex(s[1..]);
    var d := s[1..];
    assert HexPair(d[0], d[1]) == c.r;
    assert HexPair(d[2], d[3]) == c.g;
    assert HexPair(d[4], d[5]) == c.b;
  }

  /** Squared distance between two colours. */
  function Dist2(p: Rgb, q: Rgb): (d: nat)
    ensures d == 0 <==> p == q
  {
    var dr := p.r as int - q.r as int;
    var dg := p.g as int - q.g as int;
    var db := p.b as int - q.b as int;
    dr * dr + dg * dg + db * db
  }

  /** The red, green and blue bytes at `idx` (the alpha byte after them is
      never read); `None` when any of them lies outside the buffer, where
      the source reads `undefined` and every distance becomes NaN. */
  function PixelAt(data: seq<byte>, idx: int): (p: Option<Rgb>)
    ensures p.Some? <==> 0 <= idx && idx + 2 < |data|
  {
    if 0 <= idx && idx + 2 < |data| then Some(Rgb(data[idx], data[idx + 1], data[idx + 2]))
    else None
  }

  /** `isModulePixel`: the pixel is nearer the dark colour than the light
      one; an exact tie counts as light. */
  function IsModulePixel(data: seq<byte>, idx: int, dark: Rgb, light: Rgb): (m: bool)
    ensures m ==> PixelAt(data, idx).Some?
    ensures m ==> dark != light
    ensures PixelAt(data, idx) == Some(light) ==> !m
    ensures PixelAt(data, idx) == Some(dark) && dark != light ==> m
  {
    match PixelAt(data, idx)
    case None => false
    case Some(p) => Dist2(p, dark) < Dist2(p, light)
  }

  /** Swapping the two reference colours never makes a pixel a module
      under both orders. */
  lemma ClassifierAntisymmetric(data: seq<byte>, idx: int, dark: Rgb, light: Rgb)
    ensures !(IsModulePixel(data, idx, dark, light) && IsModulePixel(data, idx, light, dark))
  {
  }

  /** Only the three colour bytes matter: changing the alpha byte (or any
      byte outside the pixel) leaves the classification unchanged. */
  lemma AlphaIgnored(data: seq<byte>, idx: int, k: int, v: byte, dark: Rgb, light: Rgb)
    requires 0 <= k < |data|
    requires !(idx <= k <= idx + 2)
    ensures IsModulePixel(data[k := v], idx, dark, light) == IsModulePixel(data, idx, dark, light)
  {
    assert PixelAt(data[k := v], idx) == PixelAt(data, idx);
  }
}
