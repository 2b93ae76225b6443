/** The contact card payload: `generateVCard` in js/qrGenerator.js writes a
    subset of vCard 3.0 (RFC 2426: FN in section 3.1.1, ADR in section
    3.2.1 with its seven `;`-separated components), and
    `parseVCardString` in js/app.js reads it back line by line. An empty
    field is written as nothing at all. */
module VCard {
  import opened Wrappers
  import opened Text

  /** The fields of the contact form; "" is an empty or missing field. */
  datatype Contact = Contact(name: string, phone: string, email: string, org: string, title: string,
                             street: string, city: string, state: string, zip: string, country: string,
                             url: string)

  /** Any address component is given, so an ADR line is written. */
  predicate HasAddress(c: Contact) {
    c.street != "" || c.city != "" || c.state != "" || c.zip != "" || c.country != ""
  }

  /** The line `tag + value` when the value is not empty. */
  function FieldLine(tag: string, value: string): seq<string> {
    if value != "" then [tag + value] else []
  }

  /** `ADR:;;street;city;state;zip;country`: an empty post-office box and
      extended address, then the five components the form collects. */
  function AddressLine(c: Contact): string {
    "ADR:;;" + c.street + ";" + c.city + ";" + c.state + ";" + c.zip + ";" + c.country
  }

  /** The components of the ADR line. */
  function AddressParts(c: Contact): seq<string> {
    ["", "", c.street, c.city, c.state, c.zip, c.country]
  }

  lemma JoinCons(x: string, rest: seq<string>, sep: char)
    requires |rest| >= 1
    ensures Join([x] + rest, sep) == x + [sep] + Join(rest, sep)
  {
    assert ([x] + rest)[1..] == rest;
  }

  /** After its tag, the ADR line is its seven components joined by `;`. */
  lemma AddressLineJoins(c: Contact)
    ensures AddressLine(c)[..4] == "ADR:" && AddressLine(c)[4..] == Join(AddressParts(c), ';')
  {
    var tail := c.street + ";" + c.city + ";" + c.state + ";" + c.zip + ";" + c.country;
    var a2 := [c.street, c.city, c.state, c.zip, c.country];
    AddressTailJoins(c);
    JoinCons("", a2, ';');
    JoinCons("", [""] + a2, ';');
    assert AddressParts(c) == [""] + ([""] + a2);
    assert Join(AddressParts(c), ';') == ";;" + tail;
    assert AddressLine(c) == "ADR:" + (";;" + tail);
  }

  /** The five collected components joined by `;`. */
  lemma AddressTailJoins(c: Contact)
    ensures Join([c.street, c.city, c.state, c.zip, c.country], ';') ==
      c.street + ";" + c.city + ";" + c.state + ";" + c.zip + ";" + c.country
  {
    var a6 := [c.country];
    var a5 := [c.zip] + a6;
    JoinCons(c.zip, a6, ';');
    var a4 := [c.state] + a5;
    JoinCons(c.state, a5, ';');
    var a3 := [c.city] + a4;
    JoinCons(c.city, a4, ';');
    var a2 := [c.street] + a3;
    JoinCons(c.street, a3, ';');
    assert a2 == [c.street, c.city, c.state, c.zip, c.country];
  }

  /** The lines of the card, in the order `generateVCard` writes them. */
  function VCardLines(c: Contact): (ls: seq<string>)
    ensures |ls| >= 3 && ls[0] == "BEGIN:VCARD" && ls[1] == "VERSION:3.0" && ls[|ls| - 1] == "END:VCARD"
  {
    ["BEGIN:VCARD", "VERSION:3.0"] + FieldLine("FN:", c.name) + FieldLine("ORG:", c.org) +
    FieldLine("TITLE:", c.title) + FieldLine("TEL:", c.phone) + FieldLine("EMAIL:", c.email) +
    FieldLine("URL:", c.url) + (if HasAddress(c) then [AddressLine(c)] else []) + ["END:VCARD"]
  }

  /** The card as one string: its lines separated by newlines, with no
      newline after the last one. */
  function VCardText(c: Contact): string {
    Join(VCardLines(c), '\n')
  }

  lemma {:induction false} JoinSnoc(ps: seq<string>, x: string, sep: char)
    requires |ps| >= 1
    ensures Join(ps + [x], sep) == Join(ps, sep) + [sep] + x
    decreases |ps|
  {
    if |ps| == 1 {
      assert (ps + [x])[1..] == [x];
    } else {
      assert (ps + [x])[1..] == ps[1..] + [x];
      JoinSnoc(ps[1..], x, sep);
    }
  }

  /** `generateVCard(contact)`, which appends the lines one by one. */
  method GenerateVCard(c: Contact) returns (vcard: string)
    ensures vcard == Join(VCardLines(c), '\n')
  {
    ghost var lines := ["BEGIN:VCARD", "VERSION:3.0"];
    vcard := "BEGIN:VCARD\nVERSION:3.0\n";
    assert Join(lines, '\n') == "BEGIN:VCARD\nVERSION:3.0";
    vcard := AddField(vcard, lines, "FN:", c.name);
    lines := lines + FieldLine("FN:", c.name);
    vcard := AddField(vcard, lines, "ORG:", c.org);
    lines := lines + FieldLine("ORG:", c.org);
    vcard := AddField(vcard, lines, "TITLE:", c.title);
    lines := lines + FieldLine("TITLE:", c.title);
    vcard := AddField(vcard, lines, "TEL:", c.phone);
    lines := lines + FieldLine("TEL:", c.phone);
    vcard := AddField(vcard, lines, "EMAIL:", c.email);
    lines := lines + FieldLine("EMAIL:", c.email);
    vcard := AddField(vcard, lines, "URL:", c.url);
    lines := lines + FieldLine("URL:", c.url);
    if HasAddress(c) {
      var adr := "ADR:;;" + c.street + ";" + c.city + ";" + c.state + ";" + c.zip + ";" + c.country;
      assert adr == AddressLine(c);
      AppendLine(vcard, lines, adr);
      vcard := vcard + adr + "\n";
    } else {
      assert lines + [] == lines;
    }
    lines := lines + (if HasAddress(c) then [AddressLine(c)] else []);
    JoinSnoc(lines, "END:VCARD", '\n');
    vcard := vcard + "END:VCARD";
    assert lines + ["END:VCARD"] == VCardLines(c);
  }

  /** `if (value) vcard += tag + value + '\n'` on a text holding `lines`
      so far: the text then holds the field's line too, if it has one. */
  method AddField(vcard: string, ghost lines: seq<string>, tag: string, value: string) returns (r: string)
    requires |lines| >= 1 && vcard == Join(lines, '\n') + "\n"
    ensures r == Join(lines + FieldLine(tag, value), '\n') + "\n"
  {
    r := vcard;
    if value != "" {
      AppendLine(vcard, lines, tag + value);
      r := r + tag + value + "\n";
    } else {
      assert lines + FieldLine(tag, value) == lines;
    }
  }

  /** `vcard += line + '\n'` on a text holding `lines` so far. */
  lemma AppendLine(vcard: string, lines: seq<string>, line: string)
    requires |lines| >= 1 && vcard == Join(lines, '\n') + "\n"
    ensures vcard + line + "\n" == Join(lines + [line], '\n') + "\n"
  {
    JoinSnoc(lines, line, '\n');
  }

  /** The `result` object of `parseVCardString`: a property is absent
      until a line sets it. */
  datatype Parsed = Parsed(name: Option<string>, phone: Option<string>, email: Option<string>,
                           org: Option<string>, title: Option<string>, url: Option<string>,
                           street: Option<string>, city: Option<string>, state: Option<string>,
                           zip: Option<string>, country: Option<string>)

  const NothingParsed := Parsed(None, None, None, None, None, None, None, None, None, None, None)

  /** The `forEach` body for one line: the first matching prefix sets its
      property to the rest of the line; an ADR line with at least seven
      components sets the five address properties. */
  function ReadLine(r: Parsed, line: string): Parsed {
    if StartsWith(line, "FN:") then r.(name := Some(line[3..]))
    else if StartsWith(line, "TEL:") then r.(phone := Some(line[4..]))
    else if StartsWith(line, "EMAIL:") then r.(email := Some(line[6..]))
    else if StartsWith(line, "ORG:") then r.(org := Some(line[4..]))
    else if StartsWith(line, "TITLE:") then r.(title := Some(line[6..]))
    else if StartsWith(line, "URL:") then r.(url := Some(line[4..]))
    else if StartsWith(line, "ADR:") then
      var parts := Split(line[4..], ';');
      if |parts| >= 7 then
        r.(street := Some(parts[2]), city := Some(parts[3]), state := Some(parts[4]),
           zip := Some(parts[5]), country := Some(parts[6]))
      else r
    else r
  }

  /** The lines read in order, starting from `r`. */
  function ReadLines(r: Parsed, lines: seq<string>): Parsed
    decreases |lines|
  {
    if lines == [] then r else ReadLines(ReadLine(r, lines[0]), lines[1..])
  }

  /** What `parseVCardString(s)` returns. */
  function ParseVCard(s: string): Parsed {
    ReadLines(NothingParsed, Split(s, '\n'))
  }

  /** `parseVCardString(vcardString)`: splits on newlines and reads the
      lines with `forEach`, filling in `result`. */
  method ParseVCardString(vcardString: string) returns (result: Parsed)
    ensures result == ParseVCard(vcardString)
  {
    result := NothingParsed;
    var lines := Split(vcardString, '\n');
    for i := 0 to |lines|
      invariant ReadLines(result, lines[i..]) == ParseVCard(vcardString)
    {
      assert lines[i..][1..] == lines[i + 1..];
      result := ReadLine(result, lines[i]);
    }
  }

  lemma {:induction false} ReadLinesAppend(r: Parsed, a: seq<string>, b: seq<string>)
    ensures ReadLines(r, a + b) == ReadLines(ReadLines(r, a), b)
    decreases |a|
  {
    if a == [] {
      assert a + b == b;
    } else {
      assert (a + b)[0] == a[0];
      assert (a + b)[1..] == a[1..] + b;
      ReadLinesAppend(ReadLine(r, a[0]), a[1..], b);
    }
  }

  lemma ReadOne(r: Parsed, line: string)
    ensures ReadLines(r, [line]) == ReadLine(r, line)
  {
    assert [line][1..] == [];
  }

  /** A line whose character at `k` differs from the tag's does not
      start with the tag. */
  lemma Differs(line: string, tag: string, k: nat)
    requires k < |line| && k < |tag| && line[k] != tag[k]
    ensures !StartsWith(line, tag)
  {
    if |tag| <= |line| {
      assert line[..|tag|][k] == line[k];
    }
  }

  lemma ReadName(r: Parsed, v: string)
    ensures ReadLine(r, "FN:" + v) == r.(name := Some(v))
  {
    var l := "FN:" + v;
    assert l[..3] == "FN:" && l[3..] == v;
  }

  lemma ReadPhone(r: Parsed, v: string)
    ensures ReadLine(r, "TEL:" + v) == r.(phone := Some(v))
  {
    var l := "TEL:" + v;
    Differs(l, "FN:", 0);
    assert l[..4] == "TEL:" && l[4..] == v;
  }

  lemma ReadEmail(r: Parsed, v: string)
    ensures ReadLine(r, "EMAIL:" + v) == r.(email := Some(v))
  {
    var l := "EMAIL:" + v;
    Differs(l, "FN:", 0);
    Differs(l, "TEL:", 0);
    assert l[..6] == "EMAIL:" && l[6..] == v;
  }

  lemma ReadOrg(r: Parsed, v: string)
    ensures ReadLine(r, "ORG:" + v) == r.(org := Some(v))
  {
    var l := "ORG:" + v;
    Differs(l, "FN:", 0);
    Differs(l, "TEL:", 0);
    Differs(l, "EMAIL:", 0);
    assert l[..4] == "ORG:" && l[4..] == v;
  }

  lemma ReadTitle(r: Parsed, v: string)
    ensures ReadLine(r, "TITLE:" + v) == r.(title := Some(v))
  {
    var l := "TITLE:" + v;
    Differs(l, "FN:", 0);
    Differs(l, "TEL:", 1);
    Differs(l, "EMAIL:", 0);
    Differs(l, "ORG:", 0);
    assert l[..6] == "TITLE:" && l[6..] == v;
  }

  lemma ReadUrl(r: Parsed, v: string)
    ensures ReadLine(r, "URL:" + v) == r.(url := Some(v))
  {
    var l := "URL:" + v;
    Differs(l, "FN:", 0);
    Differs(l, "TEL:", 0);
    Differs(l, "EMAIL:", 0);
    Differs(l, "ORG:", 0);
    Differs(l, "TITLE:", 0);
    assert l[..4] == "URL:" && l[4..] == v;
  }

  /** The address line sets the five address properties. */
  lemma ReadAddress(r: Parsed, c: Contact)
    requires ';' !in c.street && ';' !in c.city && ';' !in c.state && ';' !in c.zip && ';' !in c.country
    ensures ReadLine(r, AddressLine(c)) ==
      r.(street := Some(c.street), city := Some(c.city), state := Some(c.state),
         zip := Some(c.zip), country := Some(c.country))
  {
    var l := AddressLine(c);
    AddressLineJoins(c);
    assert l[0] == l[..4][0] == 'A';
    Differs(l, "FN:", 0);
    Differs(l, "TEL:", 0);
    Differs(l, "EMAIL:", 0);
    Differs(l, "ORG:", 0);
    Differs(l, "TITLE:", 0);
    Differs(l, "URL:", 0);
    SplitJoin(AddressParts(c), ';');
  }

  /** The literal lines set nothing. */
  lemma ReadFixed(r: Parsed, l: string)
    requires l in {"BEGIN:VCARD", "VERSION:3.0", "END:VCARD"}
    ensures ReadLine(r, l) == r
  {
    Differs(l, "FN:", 0);
    Differs(l, "TEL:", 0);
    Differs(l, "EMAIL:", if l == "END:VCARD" then 1 else 0);
    Differs(l, "ORG:", 0);
    Differs(l, "TITLE:", 0);
    Differs(l, "URL:", 0);
    Differs(l, "ADR:", if l == "END:VCARD" then 1 else 0);
  }

  /** Reading an optional field line. */
  lemma ReadField(r: Parsed, tag: string, v: string, set_: Parsed)
    requires v != "" ==> ReadLine(r, tag + v) == set_
    ensures ReadLines(r, FieldLine(tag, v)) == if v != "" then set_ else r
  {
    if v != "" {
      ReadOne(r, tag + v);
    }
  }

  /** What parsing a generated card gives: each non-empty field, and the
      five address components (empty ones as "") whenever any is given. */
  function Expected(c: Contact): Parsed {
    var adr := HasAddress(c);
    Parsed(NonEmpty(c.name), NonEmpty(c.phone), NonEmpty(c.email), NonEmpty(c.org), NonEmpty(c.title),
           NonEmpty(c.url),
           if adr then Some(c.street) else None, if adr then Some(c.city) else None,
           if adr then Some(c.state) else None, if adr then Some(c.zip) else None,
           if adr then Some(c.country) else None)
  }

  function NonEmpty(s: string): (r: Option<string>)
    ensures r.Some? <==> s != ""
  {
    if s != "" then Some(s) else None
  }

  /** The card holds no line break inside a field and no `;` inside an
      address component. */
  predicate Writable(c: Contact) {
    '\n' !in c.name && '\n' !in c.phone && '\n' !in c.email && '\n' !in c.org && '\n' !in c.title &&
    '\n' !in c.url && '\n' !in c.street && '\n' !in c.city && '\n' !in c.state && '\n' !in c.zip &&
    '\n' !in c.country &&
    ';' !in c.street && ';' !in c.city && ';' !in c.state && ';' !in c.zip && ';' !in c.country
  }

  /** No line of a writable card holds a line break, so splitting the
      card on newlines gives back its lines. */
  lemma SplitGenerated(c: Contact)
    requires Writable(c)
    ensures Split(VCardText(c), '\n') == VCardLines(c)
  {
    var p0 := ["BEGIN:VCARD", "VERSION:3.0"];
    assert Unbroken(p0);
    FieldUnbroken("FN:", c.name);
    FieldUnbroken("ORG:", c.org);
    FieldUnbroken("TITLE:", c.title);
    FieldUnbroken("TEL:", c.phone);
    FieldUnbroken("EMAIL:", c.email);
    FieldUnbroken("URL:", c.url);
    AddressUnbroken(c);
    assert Unbroken(["END:VCARD"]);
    var p1 := Unbroken2(p0, FieldLine("FN:", c.name));
    var p2 := Unbroken2(p1, FieldLine("ORG:", c.org));
    var p3 := Unbroken2(p2, FieldLine("TITLE:", c.title));
    var p4 := Unbroken2(p3, FieldLine("TEL:", c.phone));
    var p5 := Unbroken2(p4, FieldLine("EMAIL:", c.email));
    var p6 := Unbroken2(p5, FieldLine("URL:", c.url));
    var p7 := Unbroken2(p6, if HasAddress(c) then [AddressLine(c)] else []);
    var lines := Unbroken2(p7, ["END:VCARD"]);
    assert lines == VCardLines(c);
    SplitJoin(lines, '\n');
  }

  /** No line holds a line break. */
  predicate Unbroken(ls: seq<string>) {
    forall k :: 0 <= k < |ls| ==> '\n' !in ls[k]
  }

  /** A field line has a break only if its tag or value has. */
  lemma FieldUnbroken(tag: string, v: string)
    requires '\n' !in tag && '\n' !in v
    ensures Unbroken(FieldLine(tag, v))
  {
  }

  /** The ADR line has no break when no address component has. */
  lemma AddressUnbroken(c: Contact)
    requires '\n' !in c.street && '\n' !in c.city && '\n' !in c.state && '\n' !in c.zip && '\n' !in c.country
    ensures Unbroken(if HasAddress(c) then [AddressLine(c)] else [])
  {
  }

  /** Lines without breaks, appended to lines without breaks, have none. */
  lemma Unbroken2(a: seq<string>, b: seq<string>) returns (ab: seq<string>)
    requires Unbroken(a) && Unbroken(b)
    ensures ab == a + b && Unbroken(ab)
  {
    ab := a + b;
    forall k | 0 <= k < |ab| ensures '\n' !in ab[k] {
      if k < |a| { assert ab[k] == a[k]; } else { assert ab[k] == b[k - |a|]; }
    }
  }

  /** Parsing a generated card returns every field it was given. */
  lemma {:induction false} ParseGenerated(c: Contact)
    requires Writable(c)
    ensures ParseVCard(VCardText(c)) == Expected(c)
  {
    SplitGenerated(c);
    var p1 := ["BEGIN:VCARD", "VERSION:3.0"] + FieldLine("FN:", c.name);
    var p2 := p1 + FieldLine("ORG:", c.org);
    var p3 := p2 + FieldLine("TITLE:", c.title);
    var p4 := p3 + FieldLine("TEL:", c.phone);
    var p5 := p4 + FieldLine("EMAIL:", c.email);
    var p6 := p5 + FieldLine("URL:", c.url);
    var adr := if HasAddress(c) then [AddressLine(c)] else [];
    var p7 := p6 + adr;
    assert VCardLines(c) == p7 + ["END:VCARD"];
    var r0 := NothingParsed;
    ReadLinesAppend(r0, ["BEGIN:VCARD"], ["VERSION:3.0"]);
    assert ["BEGIN:VCARD"] + ["VERSION:3.0"] == ["BEGIN:VCARD", "VERSION:3.0"];
    ReadOne(r0, "BEGIN:VCARD");
    ReadFixed(r0, "BEGIN:VCARD");
    ReadOne(r0, "VERSION:3.0");
    ReadFixed(r0, "VERSION:3.0");
    ReadLinesAppend(r0, ["BEGIN:VCARD", "VERSION:3.0"], FieldLine("FN:", c.name));
    ReadName(r0, c.name);
    var r1 := if c.name != "" then r0.(name := Some(c.name)) else r0;
    ReadField(r0, "FN:", c.name, r0.(name := Some(c.name)));
    ReadLinesAppend(r0, p1, FieldLine("ORG:", c.org));
    ReadOrg(r1, c.org);
    ReadField(r1, "ORG:", c.org, r1.(org := Some(c.org)));
    var r2 := ReadLines(r0, p2);
    ReadLinesAppend(r0, p2, FieldLine("TITLE:", c.title));
    ReadTitle(r2, c.title);
    ReadField(r2, "TITLE:", c.title, r2.(title := Some(c.title)));
    var r3 := ReadLines(r0, p3);
    ReadLinesAppend(r0, p3, FieldLine("TEL:", c.phone));
    ReadPhone(r3, c.phone);
    ReadField(r3, "TEL:", c.phone, r3.(phone := Some(c.phone)));
    var r4 := ReadLines(r0, p4);
    ReadLinesAppend(r0, p4, FieldLine("EMAIL:", c.email));
    ReadEmail(r4, c.email);
    ReadField(r4, "EMAIL:", c.email, r4.(email := Some(c.email)));
    var r5 := ReadLines(r0, p5);
    ReadLinesAppend(r0, p5, FieldLine("URL:", c.url));
    ReadUrl(r5, c.url);
    ReadField(r5, "URL:", c.url, r5.(url := Some(c.url)));
    var r6 := ReadLines(r0, p6);
    ReadLinesAppend(r0, p6, adr);
    if HasAddress(c) {
      ReadOne(r6, AddressLine(c));
      ReadAddress(r6, c);
    }
    var r7 := ReadLines(r0, p7);
    ReadLinesAppend(r0, p7, ["END:VCARD"]);
    ReadOne(r7, "END:VCARD");
    ReadFixed(r7, "END:VCARD");
  }

  /** `restoreInputData` for a card: every property `|| ''`. */
  function RestoreContact(p: Parsed): Contact {
    Contact(p.name.GetOr(""), p.phone.GetOr(""), p.email.GetOr(""), p.org.GetOr(""), p.title.GetOr(""),
            p.street.GetOr(""), p.city.GetOr(""), p.state.GetOr(""), p.zip.GetOr(""), p.country.GetOr(""),
            p.url.GetOr(""))
  }

  /** Restoring a generated card from history fills the form with exactly
      the contact it was generated from. */
  lemma RestoreGenerated(c: Contact)
    requires Writable(c)
    ensures RestoreContact(ParseVCard(VCardText(c))) == c
  {
    ParseGenerated(c);
  }
}
