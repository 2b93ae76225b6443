/** The payload builders of the input form (`getInputData` in js/app.js)
    and the text and phone parts of `restoreInputData`, which puts a
    history entry back into the form. Every field is trimmed except the
    Wi-Fi security type, which comes from a drop-down list.
    `encodeURIComponent` is a parameter. */
module Input {
  import opened Wrappers
  import opened Text
  import opened VCard
  import opened Wifi

  /** The raw values of the form's fields. */
  datatype Form = Form(
    text: string, url: string,
    emailAddress: string, emailSubject: string, emailBody: string,
    phoneNumber: string,
    smsNumber: string, smsMessage: string,
    whatsappNumber: string, whatsappMessage: string,
    wifiSsid: string, wifiPassword: string, wifiSecurity: string, wifiHidden: bool,
    mapsLink: string,
    contact: Contact)

  /** The address already carries a scheme: `/^https?:\/\//`. */
  predicate HasScheme(u: string) {
    StartsWith(u, "http://") || StartsWith(u, "https://")
  }

  /** The `url` case on a trimmed value: `https://` is put in front of a
      non-empty address without a scheme. */
  function NormalizeUrl(u: string): (r: string)
    ensures u == "" ==> r == ""
    ensures u != "" ==> HasScheme(r)
    ensures HasScheme(u) ==> r == u
    ensures |u| <= |r| && r[|r| - |u|..] == u
  {
    if u != "" && !HasScheme(u) then
      var r := "https://" + u;
      assert StartsWith(r, "https://");
      r
    else u
  }

  /** Normalising a normalised address changes nothing. */
  lemma NormalizeIdempotent(u: string)
    ensures NormalizeUrl(NormalizeUrl(u)) == NormalizeUrl(u)
  {
  }

  /** The `url` payload. An empty field gives "", not `null`. */
  function UrlPayload(url: string): (r: string)
    ensures r == "" <==> Trim(url) == ""
    ensures r == "" || HasScheme(r)
  {
    NormalizeUrl(Trim(url))
  }

  /** The query parameters of a `mailto:` link, in the order written. */
  function EmailParams(subject: string, body: string, encode: string -> string): (ps: seq<string>)
    ensures |ps| == (if subject != "" then 1 else 0) + (if body != "" then 1 else 0)
  {
    (if subject != "" then ["subject=" + encode(subject)] else []) +
    (if body != "" then ["body=" + encode(body)] else [])
  }

  /** The `email` payload: `null` without an address, otherwise a
      `mailto:` link whose query appears only when a subject or body is
      given. */
  function EmailPayload(address: string, subject: string, body: string, encode: string -> string): (r: Option<string>)
    ensures r.None? <==> Trim(address) == ""
    ensures r.Some? ==> StartsWith(r.value, "mailto:" + Trim(address))
    ensures r.Some? ==> (|r.value| == 7 + |Trim(address)| <==> Trim(subject) == "" && Trim(body) == "")
  {
    var e := Trim(address);
    if e == "" then None
    else
      var r := MailtoLink(e, EmailParams(Trim(subject), Trim(body), encode));
      assert r[..|"mailto:" + e|] == "mailto:" + e;
      Some(r)
  }

  /** `mailto:` and the address, then `?` and the parameters joined by `&`
      when there are any. */
  function MailtoLink(address: string, params: seq<string>): string {
    var m := "mailto:" + address;
    m + (if |params| > 0 then "?" + Join(params, '&') else "")
  }

  /** The `phone` payload. */
  function PhonePayload(phone: string): (r: Option<string>)
    ensures r.None? <==> Trim(phone) == ""
    ensures r.Some? ==> StartsWith(r.value, "tel:")
  {
    var p := Trim(phone);
    if p != "" then
      var r := "tel:" + p;
      assert r[..4] == "tel:";
      Some(r)
    else None
  }

  /** The `sms` payload: `null` without a number; the message, when given,
      is an encoded `body` parameter. */
  function SmsPayload(number: string, message: string, encode: string -> string): (r: Option<string>)
    ensures r.None? <==> Trim(number) == ""
    ensures r.Some? ==> StartsWith(r.value, "sms:" + Trim(number))
    ensures r.Some? && Trim(message) == "" ==> r.value == "sms:" + Trim(number)
  {
    var n := Trim(number);
    var msg := Trim(message);
    if n == "" then None
    else
      var head := "sms:" + n;
      var r := if msg != "" then head + "?body=" + encode(msg) else head;
      assert r[..|head|] == head;
      Some(r)
  }

  predicate IsDigit(c: char) {
    '0' <= c <= '9'
  }

  /** `s.replace(/[^\d]/g, '')`: the digits of `s`, in order. */
  function KeepDigits(s: string): (r: string)
    ensures |r| <= |s|
    ensures forall k :: 0 <= k < |r| ==> IsDigit(r[k])
  {
    if s == [] then []
    else (if IsDigit(s[0]) then [s[0]] else []) + KeepDigits(s[1..])
  }

  /** Digits are kept piecewise: the digits of `a + b` are those of `a`
      followed by those of `b`. */
  lemma {:induction false} KeepDigitsAppend(a: string, b: string)
    ensures KeepDigits(a + b) == KeepDigits(a) + KeepDigits(b)
    decreases |a|
  {
    if a != [] {
      assert (a + b)[1..] == a[1..] + b;
      KeepDigitsAppend(a[1..], b);
    } else {
      assert a + b == b;
    }
  }

  /** A number made of digits only is kept whole. */
  lemma {:induction false} KeepDigitsIdle(s: string)
    requires forall k :: 0 <= k < |s| ==> IsDigit(s[k])
    ensures KeepDigits(s) == s
    decreases |s|
  {
    if s != [] {
      KeepDigitsIdle(s[1..]);
    }
  }

  /** The `whatsapp` payload: `null` without a number, otherwise a `wa.me`
      link on the number's digits, with the encoded message as `text`. */
  function WhatsappPayload(number: string, message: string, encode: string -> string): (r: Option<string>)
    ensures r.None? <==> Trim(number) == ""
    ensures r.Some? ==> StartsWith(r.value, "https://wa.me/" + KeepDigits(Trim(number)))
    ensures r.Some? && Trim(message) == "" ==> r.value == "https://wa.me/" + KeepDigits(Trim(number))
  {
    var n := Trim(number);
    var msg := Trim(message);
    if n == "" then None
    else
      var head := "https://wa.me/" + KeepDigits(n);
      var r := if msg != "" then head + "?text=" + encode(msg) else head;
      assert r[..|head|] == head;
      Some(r)
  }

  /** The link is a Google Maps or Apple Maps link: one of the listed
      hosts, or an `https://` link naming `google` or `apple` and `map`. */
  predicate IsValidMapLink(link: string) {
    Contains(link, "maps.google.com") || Contains(link, "maps.app.goo.gl") || Contains(link, "goo.gl/maps") ||
    Contains(link, "maps.apple.com") || Contains(link, "apple.co") ||
    (StartsWith(link, "https://") && (Contains(link, "google") || Contains(link, "apple")) && Contains(link, "map"))
  }

  /** The `maps` payload: `null` for an empty or unrecognised link. */
  function MapsPayload(link: string): (r: Option<string>)
    ensures r.Some? <==> Trim(link) != "" && IsValidMapLink(Trim(link))
    ensures r.Some? ==> r.value == Trim(link)
  {
    var l := Trim(link);
    if l == "" || !IsValidMapLink(l) then None else Some(l)
  }

  /** A short link of Google Maps is accepted. */
  lemma ShortMapsLinkAccepted()
    ensures IsValidMapLink("https://maps.app.goo.gl/x")
  {
    assert OccursAt("https://maps.app.goo.gl/x", "maps.app.goo.gl", 8);
  }

  /** A string holding a substring holds each of its characters. */
  lemma ContainsChar(s: string, sub: string, c: char)
    requires Contains(s, sub) && c in sub
    ensures c in s
  {
    var i :| 0 <= i <= |s| && OccursAt(s, sub, i);
    var k :| 0 <= k < |sub| && sub[k] == c;
    assert s[i..i + |sub|][k] == s[i + k];
  }

  /** An `http://` link is accepted only through a listed host: naming
      `google` and `map` is not enough without `https://`. */
  lemma PlainHttpGoogleRejected()
    ensures !IsValidMapLink("http://google/map")
  {
    var s := "http://google/map";
    assert !StartsWith(s, "https://") by { assert s[4] != "https://"[4]; }
    assert '.' !in s;
    Dotless(s, "maps.google.com", 4);
    Dotless(s, "maps.app.goo.gl", 4);
    Dotless(s, "goo.gl/maps", 3);
    Dotless(s, "maps.apple.com", 4);
    Dotless(s, "apple.co", 5);
  }

  /** A link without a dot contains no host name with a dot (at `k`). */
  lemma Dotless(s: string, host: string, k: nat)
    requires '.' !in s && k < |host| && host[k] == '.'
    ensures !Contains(s, host)
  {
    if Contains(s, host) {
      ContainsChar(s, host, '.');
    }
  }

  /** The contact form's values, trimmed. */
  function TrimContact(c: Contact): Contact {
    Contact(Trim(c.name), Trim(c.phone), Trim(c.email), Trim(c.org), Trim(c.title), Trim(c.street),
            Trim(c.city), Trim(c.state), Trim(c.zip), Trim(c.country), Trim(c.url))
  }

  /** The `vcard` payload: `null` unless the name, mobile number and email
      are all given. */
  function VCardPayload(c: Contact): (r: Option<string>)
    ensures r.Some? <==> Trim(c.name) != "" && Trim(c.phone) != "" && Trim(c.email) != ""
    ensures r.Some? ==> r.value == VCardText(TrimContact(c))
  {
    var t := TrimContact(c);
    if t.name == "" || t.phone == "" || t.email == "" then None else Some(VCardText(t))
  }

  /** The Wi-Fi payload on the trimmed network name and password. */
  function WifiFormPayload(f: Form): Option<string> {
    WifiPayload(f.wifiSecurity, Trim(f.wifiSsid), Trim(f.wifiPassword), f.wifiHidden)
  }

  /** The QR code types of the form; `UnknownInput` stands for any other
      type name, which reaches the `default` branch. */
  datatype InputType = TextInput | UrlInput | EmailInput | PhoneInput | SmsInput | WhatsappInput | WifiInput
                     | MapsInput | VCardInput | UnknownInput

  /** `getInputData(type)`: the payload of the selected type, `null`
      (`None`) for a missing required field or an unknown type. Only the
      text and url types always give a string. */
  function Payload(kind: InputType, f: Form, encode: string -> string): (r: Option<string>)
    ensures kind == UnknownInput ==> r.None?
    ensures kind in {TextInput, UrlInput} ==> r.Some?
  {
    match kind
    case TextInput => Some(Trim(f.text))
    case UrlInput => Some(UrlPayload(f.url))
    case EmailInput => EmailPayload(f.emailAddress, f.emailSubject, f.emailBody, encode)
    case PhoneInput => PhonePayload(f.phoneNumber)
    case SmsInput => SmsPayload(f.smsNumber, f.smsMessage, encode)
    case WhatsappInput => WhatsappPayload(f.whatsappNumber, f.whatsappMessage, encode)
    case WifiInput => WifiFormPayload(f)
    case MapsInput => MapsPayload(f.mapsLink)
    case VCardInput => VCardPayload(f.contact)
    case UnknownInput => None
  }

  /** The `email` case as written: the `mailto:` link is extended with
      the query when there are parameters. */
  method BuildEmail(address: string, subject: string, body: string, encode: string -> string)
    returns (r: Option<string>)
    ensures r == EmailPayload(address, subject, body, encode)
  {
    var email := Trim(address);
    if email == "" {
      return None;
    }
    var sub := Trim(subject);
    var text := Trim(body);
    var mailto := "mailto:" + email;
    var params: seq<string> := [];
    if sub != "" {
      params := params + ["subject=" + encode(sub)];
    }
    if text != "" {
      params := params + ["body=" + encode(text)];
    }
    assert params == EmailParams(sub, text, encode);
    if |params| > 0 {
      mailto := mailto + ("?" + Join(params, '&'));
    } else {
      AppendNothing(mailto);
    }
    assert mailto == MailtoLink(email, params);
    return Some(mailto);
  }

  /** The `wifi` case as written: the string is extended group by group. */
  method BuildWifi(security: string, ssid: string, password: string, hidden: bool) returns (r: Option<string>)
    ensures r == WifiPayload(security, Trim(ssid), Trim(password), hidden)
  {
    var name := Trim(ssid);
    var key := Trim(password);
    if name == "" {
      return None;
    }
    var wifi := "WIFI:T:" + security + ";S:" + name + ";";
    ghost var head := wifi;
    ghost var passwordTag := if security != "nopass" && key != "" then "P:" + key + ";" else "";
    ghost var hiddenTag := if hidden then "H:true;" else "";
    if security != "nopass" && key != "" {
      wifi := wifi + "P:" + key + ";";
      assert wifi == head + passwordTag;
    } else {
      assert passwordTag == [];
      AppendNothing(head);
    }
    ghost var withPassword := wifi;
    if hidden {
      wifi := wifi + "H:true;";
    }
    assert wifi == withPassword + hiddenTag;
    wifi := wifi + ";";
    return Some(wifi);
  }

  lemma AppendNothing(s: string)
    ensures s + [] == s
  {
  }

  /** The `vcard` case as written: the card comes from the generator's
      `generateVCard`. */
  method BuildVCard(c: Contact) returns (r: Option<string>)
    ensures r == VCardPayload(c)
  {
    var t := TrimContact(c);
    if t.name == "" || t.phone == "" || t.email == "" {
      return None;
    }
    var card := GenerateVCard(t);
    return Some(card);
  }

  /** `getInputData(type)`: the string-extending cases are built step by
      step, the others are expressions. */
  method GetInputData(kind: InputType, f: Form, encode: string -> string) returns (r: Option<string>)
    ensures r == Payload(kind, f, encode)
  {
    match kind
    case EmailInput =>
      r := BuildEmail(f.emailAddress, f.emailSubject, f.emailBody, encode);
    case WifiInput =>
      r := BuildWifi(f.wifiSecurity, f.wifiSsid, f.wifiPassword, f.wifiHidden);
    case VCardInput =>
      r := BuildVCard(f.contact);
    case _ =>
      r := Payload(kind, f, encode);
  }

  /** The phone field as `restoreInputData` fills it: the first `tel:`
      removed. */
  function RestorePhone(data: string): (r: string)
    ensures !Contains(data, "tel:") ==> r == data
  {
    ReplaceFirst(data, "tel:", "")
  }

  /** Restoring a phone payload gives back the trimmed number, and
      building from the restored field gives the same payload. */
  lemma PhoneRoundTrip(phone: string)
    requires Trim(phone) != ""
    ensures RestorePhone(PhonePayload(phone).value) == Trim(phone)
    ensures PhonePayload(RestorePhone(PhonePayload(phone).value)) == PhonePayload(phone)
  {
    var p := Trim(phone);
    var s := "tel:" + p;
    assert OccursAt(s, "tel:", 0);
    assert IndexOf(s, "tel:") == Some(0);
    assert s[4..] == p;
    TrimIdle(p);
  }

  /** The url field is restored verbatim, and building from it gives the
      same payload again. */
  lemma UrlRoundTrip(url: string)
    ensures UrlPayload(UrlPayload(url)) == UrlPayload(url)
  {
    var t := Trim(url);
    var p := NormalizeUrl(t);
    if p != "" {
      assert p[0] == 'h';
      assert p[|p| - 1] == t[|t| - 1];
    }
    TrimIdle(p);
    NormalizeIdempotent(t);
  }

  /** Restoring a Wi-Fi entry into the form and building again gives the
      same payload when the values fit the format. */
  lemma WifiRoundTrip(f: Form)
    requires Wifi.Writable(f.wifiSecurity, Trim(f.wifiSsid), Trim(f.wifiPassword))
    ensures var w := RestoreWifi(ParseWifi(WifiFormPayload(f).value));
      WifiPayload(w.security, Trim(w.ssid), Trim(w.password), w.hidden) == WifiFormPayload(f)
  {
    var ssid, password := Trim(f.wifiSsid), Trim(f.wifiPassword);
    RestoreBuilt(f.wifiSecurity, ssid, password, f.wifiHidden);
    TrimIdle(ssid);
    TrimIdle(password);
  }
}
