/** The Wi-Fi network payload: the `WIFI:T:…;S:…;P:…;H:…;;` string the
    input form builds (`getInputData` in js/app.js) and `parseWifiString`,
    which reads it back with the pattern
    `WIFI:T:([^;]+);S:([^;]+);(P:([^;]+);)?(H:([^;]+);)?`. */
module Wifi {
  import opened Wrappers
  import opened Text

  /** The `wifi` case of `getInputData` on the trimmed network name and
      password: `None` without a network name. The password is written
      only for a secured network. */
  function WifiPayload(security: string, ssid: string, password: string, hidden: bool): (r: Option<string>)
    ensures r.None? <==> ssid == ""
    ensures r.Some? ==> StartsWith(r.value, "WIFI:T:" + security + ";S:" + ssid + ";")
    ensures r.Some? ==> |r.value| >= 2 && r.value[|r.value| - 2..] == ";;"
  {
    if ssid == "" then None
    else
      var head := "WIFI:T:" + security + ";S:" + ssid + ";";
      var s := head + (if security != "nopass" && password != "" then "P:" + password + ";" else "") +
               (if hidden then "H:true;" else "") + ";";
      assert s[..|head|] == head;
      Some(s)
  }

  /** The fields `parseWifiString` fills in when the pattern matches. */
  datatype WifiFields = WifiFields(security: string, ssid: string, password: string, hidden: bool)

  const Semicolon: set<char> := {';'}

  /** The mandatory part `WIFI:T:([^;]+);S:([^;]+);` matches at the start
      of `t`. The captures stop at the first `;`, so the greedy runs are the
      only candidates. */
  predicate Head(t: string) {
    StartsWith(t, "WIFI:T:") && HeadAfter(t, RunLen(t, 7, Semicolon))
  }

  /** What follows a security run of length `n`: `;S:` and a non-empty
      network name run ended by `;`. */
  predicate HeadAfter(t: string, n: nat) {
    n >= 1 && OccursAt(t, ";S:", 7 + n) && Ended(t, 10 + n, RunLen(t, 10 + n, Semicolon))
  }

  /** A non-empty run of length `m` at `j`, followed by a character. */
  predicate Ended(t: string, j: nat, m: nat) {
    m >= 1 && j + m < |t|
  }

  /** The mandatory part matches at position `i` of `s`. */
  predicate HeadAt(s: string, i: int) {
    0 <= i <= |s| && Head(s[i..])
  }

  /** The leftmost position at or after `from` where the pattern matches. */
  function FirstHead(s: string, from: nat): (r: Option<nat>)
    ensures r.Some? ==> from <= r.value && HeadAt(s, r.value)
    ensures r.Some? ==> forall j :: from <= j < r.value ==> !HeadAt(s, j)
    ensures r.None? ==> forall j :: from <= j ==> !HeadAt(s, j)
    decreases |s| - from
  {
    if from > |s| then None
    else if HeadAt(s, from) then Some(from)
    else FirstHead(s, from + 1)
  }

  /** An optional group `(tag([^;]+);)?` at the start of `t`: its capture
      and what follows the group, or no capture and `t` itself. */
  function OptionalGroup(t: string, tag: string): (r: (Option<string>, string))
    ensures r.0.None? ==> r.1 == t
    ensures r.0.Some? ==> r.0.value != [] && ';' !in r.0.value && t == tag + r.0.value + ";" + r.1
  {
    var n := RunLen(t, |tag|, Semicolon);
    if StartsWith(t, tag) && n >= 1 && |tag| + n < |t| then
      var v := t[|tag|..|tag| + n];
      RunLenClear(t, |tag|, Semicolon);
      assert t == tag + v + ";" + t[|tag| + n + 1..];
      (Some(v), t[|tag| + n + 1..])
    else (None, t)
  }

  /** The optional groups after the mandatory part: the password, "" without
      a `P:` group, and whether the `H:` group reads `true`. */
  function ReadTail(t: string): (string, bool) {
    var password := OptionalGroup(t, "P:");
    var hidden := OptionalGroup(password.1, "H:");
    (password.0.GetOr(""), hidden.0 == Some("true"))
  }

  /** The captures of a match at the start of `t` whose runs have lengths
      `n` and `m`. */
  function ReadAt(t: string, n: nat, m: nat): WifiFields
    requires 11 + n + m <= |t|
  {
    var tail := ReadTail(t[11 + n + m..]);
    WifiFields(t[7..7 + n], t[10 + n..10 + n + m], tail.0, tail.1)
  }

  /** The captures of the mandatory part at the start of `t` and of the
      optional groups after it. */
  function Read(t: string): WifiFields
    requires Head(t)
  {
    ReadAfter(t, RunLen(t, 7, Semicolon))
  }

  /** The captures after a security run of length `n`. */
  function ReadAfter(t: string, n: nat): WifiFields
    requires HeadAfter(t, n)
  {
    ReadAt(t, n, RunLen(t, 10 + n, Semicolon))
  }

  /** What `parseWifiString(s)` returns: `None` for the empty object it
      gives when the pattern matches nowhere, otherwise the captures of the
      leftmost match. */
  function ParseWifi(s: string): (r: Option<WifiFields>)
    ensures r.None? <==> forall j :: 0 <= j ==> !HeadAt(s, j)
  {
    match FirstHead(s, 0)
    case None => None
    case Some(i) => Some(Read(s[i..]))
  }

  /** The values the builder can write back unambiguously: a security type
      and network name, and no `;` in any value. */
  predicate Writable(security: string, ssid: string, password: string) {
    security != "" && ssid != "" && ';' !in security && ';' !in ssid && ';' !in password
  }

  /** Where the parts of the mandatory part of a built payload sit. */
  lemma HeadOfBuilt(s: string, security: string, ssid: string, rest: string)
    requires s == "WIFI:T:" + security + ";S:" + ssid + ";" + rest
    ensures StartsWith(s, "WIFI:T:") && OccursAt(s, security, 7)
    ensures OccursAt(s, ";S:", 7 + |security|) && OccursAt(s, ssid, 10 + |security|)
    ensures 10 + |security| + |ssid| < |s| && s[10 + |security| + |ssid|] == ';'
    ensures s[11 + |security| + |ssid|..] == rest
  {
    var n, m := |security|, |ssid|;
    assert s[..7] == "WIFI:T:";
    assert s[7..7 + n] == security;
    assert s[7 + n..10 + n] == ";S:";
    assert s[10 + n..10 + n + m] == ssid;
    assert s[10 + n + m] == ';';
    assert s[11 + n + m..] == rest;
  }

  /** A string laid out as `WIFI:T:security;S:ssid;` at its start matches
      the mandatory part, with runs as long as the two values. */
  lemma HeadLaidOut(s: string, security: string, ssid: string)
    requires security != "" && ssid != "" && ';' !in security && ';' !in ssid
    requires StartsWith(s, "WIFI:T:") && OccursAt(s, security, 7)
    requires OccursAt(s, ";S:", 7 + |security|) && OccursAt(s, ssid, 10 + |security|)
    requires 10 + |security| + |ssid| < |s| && s[10 + |security| + |ssid|] == ';'
    ensures Head(s)
    ensures RunLen(s, 7, Semicolon) == |security|
    ensures RunLen(s, 10 + |security|, Semicolon) == |ssid|
  {
    assert s[7 + |security|] == s[7 + |security|..10 + |security|][0] == ';';
    RunLenOver(s, 7, Semicolon, security);
    RunLenOver(s, 10 + |security|, Semicolon, ssid);
    assert HeadAfter(s, |security|);
  }

  /** A group `tag v;` at the start is captured. */
  lemma GroupPresent(tag: string, v: string, rest: string)
    requires v != "" && ';' !in v
    ensures OptionalGroup(tag + v + ";" + rest, tag) == (Some(v), rest)
  {
    var t := tag + v + ";" + rest;
    var k := |tag|;
    assert t[..k] == tag;
    assert t[k..k + |v|] == v;
    assert t[k + |v|] == ';';
    assert t[k + |v| + 1..] == rest;
    RunLenExact(t, k, Semicolon, |v|);
  }

  /** A group whose tag's first letter does not start `t` is skipped. */
  lemma GroupAbsent(t: string, tag: string)
    requires |t| >= 1 && |tag| >= 1 && t[0] != tag[0]
    ensures OptionalGroup(t, tag) == (None, t)
  {
  }

  /** A payload whose pattern matches at its start is read from there. */
  lemma ParseAtStart(s: string, n: nat, m: nat)
    requires Head(s) && RunLen(s, 7, Semicolon) == n && RunLen(s, 10 + n, Semicolon) == m
    ensures ParseWifi(s) == Some(ReadAt(s, n, m))
  {
    FirstHeadAtStart(s);
    ReadAtStart(s, n, m);
  }

  /** The captures at the start of a string whose runs have lengths `n`
      and `m`. */
  lemma ReadAtStart(s: string, n: nat, m: nat)
    requires Head(s) && RunLen(s, 7, Semicolon) == n && RunLen(s, 10 + n, Semicolon) == m
    ensures 11 + n + m <= |s| && Read(s) == ReadAt(s, n, m)
  {
    assert HeadAfter(s, RunLen(s, 7, Semicolon));
    assert Read(s) == ReadAfter(s, n);
    assert ReadAfter(s, n) == ReadAt(s, n, RunLen(s, 10 + n, Semicolon));
  }

  /** The leftmost match of a string that matches at its start is there. */
  lemma FirstHeadAtStart(s: string)
    requires Head(s)
    ensures FirstHead(s, 0) == Some(0) && s[0..] == s
  {
    assert s[0..] == s;
    assert HeadAt(s, 0);
  }

  /** The optional groups of a built payload read back the password
      written, "" when none was, and the hidden flag. */
  lemma ReadBuiltTail(password: string, written: bool, hidden: bool)
    requires ';' !in password
    ensures ReadTail(BuiltTail(password, written, hidden)) == (if written then password else "", hidden)
  {
    var h := (if hidden then "H:true;" else "") + ";";
    if written && password != "" {
      assert BuiltTail(password, written, hidden) == "P:" + password + ";" + h;
      GroupPresent("P:", password, h);
    } else {
      assert BuiltTail(password, written, hidden) == h;
      GroupAbsent(h, "P:");
    }
    if hidden {
      assert h == "H:" + "true" + ";" + ";";
      GroupPresent("H:", "true", ";");
    } else {
      GroupAbsent(h, "H:");
    }
  }

  /** The rest of a built payload after the network name's `;`. */
  function BuiltTail(password: string, written: bool, hidden: bool): string {
    (if written && password != "" then "P:" + password + ";" else "") + (if hidden then "H:true;" else "") + ";"
  }

  /** Where the parts of a built payload sit. */
  lemma BuiltLayout(security: string, ssid: string, password: string, hidden: bool)
    requires Writable(security, ssid, password)
    ensures var s := WifiPayload(security, ssid, password, hidden).value;
      var n, m := |security|, |ssid|;
      Head(s) && RunLen(s, 7, Semicolon) == n && RunLen(s, 10 + n, Semicolon) == m &&
      s[7..7 + n] == security && s[10 + n..10 + n + m] == ssid &&
      s[11 + n + m..] == BuiltTail(password, security != "nopass", hidden)
  {
    var s := WifiPayload(security, ssid, password, hidden).value;
    var rest := BuiltTail(password, security != "nopass", hidden);
    assert s == "WIFI:T:" + security + ";S:" + ssid + ";" + rest;
    HeadOfBuilt(s, security, ssid, rest);
    HeadLaidOut(s, security, ssid);
  }

  /** The captures of a string laid out as a built payload are its parts. */
  lemma ReadLaidOut(s: string, security: string, ssid: string, password: string, written: bool, hidden: bool)
    requires ';' !in password
    requires 11 + |security| + |ssid| <= |s|
    requires s[7..7 + |security|] == security && s[10 + |security|..10 + |security| + |ssid|] == ssid
    requires s[11 + |security| + |ssid|..] == BuiltTail(password, written, hidden)
    ensures ReadAt(s, |security|, |ssid|) == WifiFields(security, ssid, if written then password else "", hidden)
  {
    ReadBuiltTail(password, written, hidden);
  }

  /** A string laid out as a built payload parses to its parts. */
  lemma ParseLaidOut(s: string, security: string, ssid: string, password: string, written: bool, hidden: bool)
    requires ';' !in password
    requires Head(s) && RunLen(s, 7, Semicolon) == |security| && RunLen(s, 10 + |security|, Semicolon) == |ssid|
    requires s[7..7 + |security|] == security && s[10 + |security|..10 + |security| + |ssid|] == ssid
    requires s[11 + |security| + |ssid|..] == BuiltTail(password, written, hidden)
    ensures ParseWifi(s) == Some(WifiFields(security, ssid, if written then password else "", hidden))
  {
    var fields := WifiFields(security, ssid, if written then password else "", hidden);
    ReadLaidOut(s, security, ssid, password, written, hidden);
    ParseAtStart(s, |security|, |ssid|);
    assert ParseWifi(s) == Some(ReadAt(s, |security|, |ssid|)) == Some(fields);
  }

  /** Parsing a built payload gives back the security type, the network
      name and the hidden flag, and the password unless the network is
      open or the password was empty. */
  lemma ParseBuilt(security: string, ssid: string, password: string, hidden: bool)
    requires Writable(security, ssid, password)
    ensures ParseWifi(WifiPayload(security, ssid, password, hidden).value) ==
      Some(WifiFields(security, ssid, if security != "nopass" then password else "", hidden))
  {
    BuiltLayout(security, ssid, password, hidden);
    ParseLaidOut(WifiPayload(security, ssid, password, hidden).value, security, ssid, password, security != "nopass", hidden);
  }

  /** The form as `restoreInputData` fills it from a parsed payload:
      network name, password, security type (`WPA` by default) and the
      hidden flag. */
  datatype WifiForm = WifiForm(ssid: string, password: string, security: string, hidden: bool)

  function RestoreWifi(p: Option<WifiFields>): (f: WifiForm)
    ensures p.None? ==> f == WifiForm("", "", "WPA", false)
  {
    match p
    case None => WifiForm("", "", "WPA", false)
    case Some(w) => WifiForm(w.ssid, w.password, w.security, w.hidden)
  }

  /** Restoring a built payload from history gives back the form it was
      built from, except the password of an open network. */
  lemma RestoreBuilt(security: string, ssid: string, password: string, hidden: bool)
    requires Writable(security, ssid, password)
    ensures RestoreWifi(ParseWifi(WifiPayload(security, ssid, password, hidden).value)) ==
      WifiForm(ssid, if security != "nopass" then password else "", security, hidden)
  {
    ParseBuilt(security, ssid, password, hidden);
  }
}
