/** The text printed under a framed QR code (`applyFrame`,
    `extractContextualData` and `truncateText` in js/qrGenerator.js).
    `decodeURIComponent` is a parameter: `None` stands for the `URIError`
    it throws on a malformed escape, which the `catch` turns into the
    fallback caption. */
module Caption {
  import opened Wrappers
  import opened Text

  /** `truncateText(text, maxLength)` of the generator: the text itself when
      it fits, otherwise its first `maxLength - 3` characters and "...". */
  function TruncateText(text: string, maxLength: int): (r: string)
    ensures |text| <= maxLength ==> r == text
    ensures |text| > maxLength ==> |r| == (if maxLength < 3 then 3 else maxLength)
    ensures |text| > maxLength ==> r[|r| - 3..] == "..." && StartsWith(text, r[..|r| - 3])
  {
    if |text| <= maxLength then text else Take(text, maxLength - 3) + "..."
  }

  /** A truncated caption is never longer than a limit of at least 3. */
  lemma TruncateBounded(text: string, maxLength: int)
    requires maxLength >= 3
    ensures |TruncateText(text, maxLength)| <= maxLength
  {
  }

  /** `/S:([^;]+)/`, the network name of a Wi-Fi payload. */
  const SsidPattern := Pattern("S:", {';'}, true, false)
  /** `/FN:([^\n\r]+)/`, the formatted name of a vCard. */
  const FullNamePattern := Pattern("FN:", {'\n', '\r'}, true, false)
  /** `/\/place\/([^\/]+)\//`, a Google Maps place name. */
  const PlacePattern := Pattern("/place/", {'/'}, true, true)
  /** `/name=([^&]+)/`, an Apple Maps place name. */
  const NamePattern := Pattern("name=", {'&'}, true, false)
  /** `/address=([^&]+)/`, an Apple Maps address. */
  const AddressPattern := Pattern("address=", {'&'}, true, false)

  /** A decoded map parameter with `+` read as a space. */
  function Unplus(s: string): string {
    ReplaceChar(s, '+', ' ')
  }

  /** The `maps` case of `extractContextualData`: `None` when the decoder
      throws. */
  function MapsCaption(data: string, decode: string -> Option<string>): (r: Option<string>)
    ensures r.Some? ==> |r.value| <= 30
    ensures (Capture(data, PlacePattern).None? && Capture(data, NamePattern).None? &&
             Capture(data, AddressPattern).None?) ==> r == Some("VIEW LOCATION")
  {
    match Capture(data, PlacePattern)
    case Some(place) =>
      (match decode(place)
       case None => None
       case Some(d) => Some(TruncateText(Unplus(d), 30)))
    case None =>
      match Capture(data, NamePattern)
      case Some(name) =>
        (match decode(name)
         case None => None
         case Some(d) => Some(TruncateText(Unplus(d), 30)))
      case None =>
        match Capture(data, AddressPattern)
        case Some(address) =>
          (match decode(address)
           case None => None
           case Some(d) => Some(TruncateText(BeforeChar(Unplus(d), ','), 30)))
        case None => Some("VIEW LOCATION")
  }

  /** The `catch` table of `extractContextualData`. */
  function FallbackCaption(qrType: string): string {
    match qrType
    case "url" => "GO TO WEBSITE"
    case "email" => "SEND EMAIL"
    case "phone" => "CALL NUMBER"
    case "wifi" => "SHARE WIFI"
    case "vcard" => "SAVE CONTACT"
    case _ => "SCAN ME"
  }

  /** `extractContextualData(data, qrType)`. */
  function ExtractContextualData(data: string, qrType: string, decode: string -> Option<string>): (r: string)
    ensures qrType != "phone" ==> |r| <= 30
    ensures qrType == "url" ==> r == TruncateText(data, 30)
    ensures qrType == "email" && StartsWith(data, "mailto:") ==> r == TruncateText(BeforeChar(data[7..], '?'), 30)
    ensures qrType == "email" && !StartsWith(data, "mailto:") ==> r == TruncateText(data, 30)
    ensures qrType == "phone" && StartsWith(data, "tel:") ==> r == data[4..]
    ensures qrType == "phone" && !StartsWith(data, "tel:") ==> r == data
    ensures qrType == "wifi" && Capture(data, SsidPattern).None? ==> r == "SHARE WIFI"
    ensures qrType == "wifi" && Capture(data, SsidPattern).Some? ==> r == TruncateText(Capture(data, SsidPattern).value, 30)
    ensures qrType == "vcard" && Capture(data, FullNamePattern).None? ==> r == "SAVE CONTACT"
    ensures qrType == "vcard" && Capture(data, FullNamePattern).Some? ==> r == TruncateText(Capture(data, FullNamePattern).value, 30)
    ensures qrType == "maps" && MapsCaption(data, decode).None? ==> r == "SCAN ME"
    ensures qrType == "maps" && MapsCaption(data, decode).Some? ==> r == MapsCaption(data, decode).value
    ensures qrType !in {"url", "email", "phone", "wifi", "vcard", "maps"} ==> r == "SCAN ME"
  {
    match qrType
    case "url" => TruncateText(data, 30)
    case "email" =>
      if StartsWith(data, "mailto:") then TruncateText(BeforeChar(data[7..], '?'), 30)
      else TruncateText(data, 30)
    case "phone" => if StartsWith(data, "tel:") then data[4..] else data
    case "wifi" =>
      (match Capture(data, SsidPattern)
       case Some(ssid) => TruncateText(ssid, 30)
       case None => "SHARE WIFI")
    case "vcard" =>
      (match Capture(data, FullNamePattern)
       case Some(name) => TruncateText(name, 30)
       case None => "SAVE CONTACT")
    case "maps" => MapsCaption(data, decode).GetOr(FallbackCaption(qrType))
    case _ => "SCAN ME"
  }

  /** A phone caption is the number after `tel:`, however long. */
  lemma PhoneCaptionUntruncated(number: string, decode: string -> Option<string>)
    ensures ExtractContextualData("tel:" + number, "phone", decode) == number
  {
    assert ("tel:" + number)[..4] == "tel:";
    assert ("tel:" + number)[4..] == number;
  }

  /** The Wi-Fi caption of a payload that starts the way the Wi-Fi builder
      writes it is the network name, truncated. */
  lemma WifiCaptionIsSsid(security: string, ssid: string, rest: string, decode: string -> Option<string>)
    requires ':' !in security && ';' !in ssid && ssid != []
    ensures ExtractContextualData("WIFI:T:" + security + ";S:" + ssid + ";" + rest, "wifi", decode) == TruncateText(ssid, 30)
  {
    SsidCaptured(security, ssid, rest);
  }

  lemma SsidCaptured(security: string, ssid: string, rest: string)
    requires ':' !in security && ';' !in ssid && ssid != []
    ensures Capture("WIFI:T:" + security + ";S:" + ssid + ";" + rest, SsidPattern) == Some(ssid)
  {
    var s := "WIFI:T:" + security + ";S:" + ssid + ";" + rest;
    var j := 10 + |security|;
    SsidMatchedFirst(security, ssid, rest);
    CaptureAt(s, SsidPattern, j - 2);
    assert OccursAt(s, ssid, j);
    CapturedAtIs(s, SsidPattern, j - 2, ssid);
  }

  /** The leftmost `S:` of a built Wi-Fi payload is the one before the
      network name, and its run is the name. */
  lemma SsidMatchedFirst(security: string, ssid: string, rest: string)
    requires ':' !in security && ';' !in ssid && ssid != []
    ensures var s := "WIFI:T:" + security + ";S:" + ssid + ";" + rest;
      var j := 10 + |security|;
      FirstMatch(s, SsidPattern, 0) == Some(j - 2) && j + |ssid| <= |s| &&
      RunLen(s, j, SsidPattern.stop) == |ssid| && s[j..j + |ssid|] == ssid
  {
    var s := "WIFI:T:" + security + ";S:" + ssid + ";" + rest;
    var p := 7 + |security|;
    var i := p + 1;
    assert s[..7] == "WIFI:T:";
    assert s[7..p] == security;
    assert s[p..i + 2] == ";S:";
    assert s[i + 2..i + 2 + |ssid|] == ssid;
    assert s[i + 2 + |ssid|] == ';';
    assert s[i..i + 2] == "S:";
    RunLenExact(s, i + |SsidPattern.prefix|, SsidPattern.stop, |ssid|);
    assert MatchesAt(s, SsidPattern, i);
    forall j | 0 <= j < i ensures !MatchesAt(s, SsidPattern, j) {
      NoSsidBefore(security, ssid, rest, j);
    }
    assert FirstMatch(s, SsidPattern, 0) == Some(i);
  }

  /** No "S:" starts inside the security field or its separator. */
  lemma NoSsidBefore(security: string, ssid: string, rest: string, j: nat)
    requires ':' !in security && j <= 7 + |security|
    ensures !OccursAt("WIFI:T:" + security + ";S:" + ssid + ";" + rest, "S:", j)
  {
    var s := "WIFI:T:" + security + ";S:" + ssid + ";" + rest;
    var p := 7 + |security|;
    if j < 7 {
      assert s[j] == "WIFI:T:"[j];
    } else if j + 1 < p {
      assert s[j + 1] == security[j + 1 - 7];
    } else if j + 1 == p {
      assert s[j + 1] == ';';
    } else {
      assert s[j] == ';';
    }
    assert s[j..j + 2][0] == s[j] && s[j..j + 2][1] == s[j + 1];
  }

  /** The Wi-Fi caption of the payload "WIFI:T:WPA;S:MyNetwork;P:secret;;". */
  lemma WifiCaptionExample(decode: string -> Option<string>)
    ensures ExtractContextualData("WIFI:T:WPA;S:MyNetwork;P:secret;;", "wifi", decode) == "MyNetwork"
  {
    assert "WIFI:T:WPA;S:MyNetwork;P:secret;;" == "WIFI:T:" + "WPA" + ";S:" + "MyNetwork" + ";" + "P:secret;;";
    WifiCaptionIsSsid("WPA", "MyNetwork", "P:secret;;", decode);
  }

  /** A long URL is cut to 27 characters followed by "...". */
  lemma LongUrlCaption(url: string, decode: string -> Option<string>)
    requires |url| > 30
    ensures ExtractContextualData(url, "url", decode) == url[..27] + "..."
  {
  }

  /** The generic caption of each payload type. */
  function GenericCaption(qrType: string): string {
    match qrType
    case "text" => "SCAN ME"
    case "url" => "GO TO WEBSITE"
    case "email" => "SEND EMAIL"
    case "phone" => "CALL NUMBER"
    case "sms" => "SEND SMS"
    case "whatsapp" => "SEND WHATSAPP"
    case "wifi" => "SHARE WIFI"
    case "vcard" => "SAVE CONTACT"
    case "maps" => "VIEW LOCATION"
    case _ => "SCAN ME"
  }

  /** The frame options `applyFrame` reads. An absent text option is the
      empty string, which every `||` default in the source treats alike. */
  datatype FrameOptions = FrameOptions(frameOption: string, autoFrameType: string, qrType: string,
                                       qrData: string, customFrameText: string,
                                       colorDark: string, colorLight: string)

  /** The caption chosen by `applyFrame`; empty means no frame. */
  function FrameCaption(opts: FrameOptions, decode: string -> Option<string>): (r: string)
    ensures opts.frameOption == "custom" ==>
      r == (if opts.customFrameText != "" then opts.customFrameText else "SCAN ME")
    ensures opts.frameOption == "auto" && opts.autoFrameType != "contextual" ==> r == GenericCaption(opts.qrType)
    ensures opts.frameOption == "auto" && opts.autoFrameType == "contextual" ==>
      r == ExtractContextualData(opts.qrData, opts.qrType, decode)
    ensures opts.frameOption !in {"auto", "custom"} ==> r == ""
  {
    if opts.frameOption == "auto" then
      if opts.autoFrameType == "contextual" then ExtractContextualData(opts.qrData, opts.qrType, decode)
      else GenericCaption(opts.qrType)
    else if opts.frameOption == "custom" then
      if opts.customFrameText != "" then opts.customFrameText else "SCAN ME"
    else ""
  }

  /** Only a contextual caption can be empty, so only it can suppress a
      frame that was asked for. */
  lemma EmptyCaption(opts: FrameOptions, decode: string -> Option<string>)
    ensures FrameCaption(opts, decode) == "" <==>
      opts.frameOption !in {"auto", "custom"} ||
      (opts.frameOption == "auto" && opts.autoFrameType == "contextual" &&
       ExtractContextualData(opts.qrData, opts.qrType, decode) == "")
  {
    if opts.frameOption == "auto" && opts.autoFrameType != "contextual" {
      assert GenericCaption(opts.qrType) != "";
    }
  }
}
