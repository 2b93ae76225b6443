/** String helpers with the meaning of the JavaScript string methods the
    source calls (`startsWith`, `includes`, `indexOf`, `split`, `join`,
    `replace` of a first occurrence, `toLowerCase` on ASCII letters, and
    the decimal form of a non-negative integer). Strings are sequences of
    characters. */
module Text {
  import opened Wrappers

  predicate StartsWith(s: string, prefix: string) {
    |prefix| <= |s| && s[..|prefix|] == prefix
  }

  /** `sub` occurs in `s` at position `i`. */
  predicate OccursAt(s: string, sub: string, i: int) {
    0 <= i && i + |sub| <= |s| && s[i..i + |sub|] == sub
  }

  /** `s.includes(sub)` */
  predicate Contains(s: string, sub: string) {
    exists i :: 0 <= i <= |s| && OccursAt(s, sub, i)
  }

  /** The leftmost position at or after `from` where `sub` occurs. */
  function IndexOfFrom(s: string, sub: string, from: nat): (r: Option<nat>)
    ensures r.Some? ==> from <= r.value && OccursAt(s, sub, r.value)
    ensures r.Some? ==> forall j :: from <= j < r.value ==> !OccursAt(s, sub, j)
    ensures r.None? ==> forall j :: from <= j ==> !OccursAt(s, sub, j)
    decreases |s| - from
  {
    if from + |sub| > |s| then None
    else if s[from..from + |sub|] == sub then Some(from)
    else IndexOfFrom(s, sub, from + 1)
  }

  /** `s.indexOf(sub)`, with `None` for -1. */
  function IndexOf(s: string, sub: string): (r: Option<nat>)
    ensures r.Some? <==> Contains(s, sub)
    ensures r.Some? ==> OccursAt(s, sub, r.value)
    ensures r.Some? ==> forall j :: 0 <= j < r.value ==> !OccursAt(s, sub, j)
  {
    IndexOfFrom(s, sub, 0)
  }

  /** `s.replace(pattern, replacement)` with a string pattern: only the
      first occurrence is replaced. */
  function ReplaceFirst(s: string, pattern: string, replacement: string): (r: string)
    ensures !Contains(s, pattern) ==> r == s
  {
    match IndexOf(s, pattern)
    case None => s
    case Some(i) => s[..i] + replacement + s[i + |pattern|..]
  }

  /** The position of the first `c` in `s`. */
  function IndexOfChar(s: string, c: char): (r: Option<nat>)
    ensures r.Some? ==> r.value < |s| && s[r.value] == c && c !in s[..r.value]
    ensures r.None? <==> c !in s
  {
    if c !in s then None
    else if s[0] == c then Some(0)
    else
      var i := IndexOfChar(s[1..], c).value;
      assert s[1..][..i] == s[1..i + 1];
      assert s[..i + 1] == [s[0]] + s[1..i + 1];
      Some(i + 1)
  }

  lemma IndexOfCharAfter(a: string, c: char, b: string)
    requires c !in a
    ensures IndexOfChar(a + [c] + b, c) == Some(|a|)
  {
    var s := a + [c] + b;
    assert s[|a|] == c;
    assert c in s;
    var i := IndexOfChar(s, c).value;
    assert s[..|a|] == a;
  }

  /** `s.split(sep)` for a one-character separator: never empty. */
  function Split(s: string, sep: char): (parts: seq<string>)
    ensures |parts| >= 1
    ensures forall k :: 0 <= k < |parts| ==> sep !in parts[k]
    decreases |s|
  {
    match IndexOfChar(s, sep)
    case None => [s]
    case Some(i) => [s[..i]] + Split(s[i + 1..], sep)
  }

  /** `parts.join(sep)` for a one-character separator. */
  function Join(parts: seq<string>, sep: char): string
  {
    if |parts| == 0 then ""
    else if |parts| == 1 then parts[0]
    else parts[0] + [sep] + Join(parts[1..], sep)
  }

  /** Splitting undoes joining when no part holds the separator. */
  lemma {:induction false} SplitJoin(parts: seq<string>, sep: char)
    requires |parts| >= 1
    requires forall k :: 0 <= k < |parts| ==> sep !in parts[k]
    ensures Split(Join(parts, sep), sep) == parts
  {
    if |parts| == 1 {
      assert Join(parts, sep) == parts[0];
    } else {
      var rest := Join(parts[1..], sep);
      assert Join(parts, sep) == parts[0] + [sep] + rest;
      SplitAfter(parts[0], sep, rest);
      SplitJoin(parts[1..], sep);
      assert parts == [parts[0]] + parts[1..];
    }
  }

  /** Splitting at a first separator after `a` gives `a`, then the parts of
      the rest. */
  lemma SplitAfter(a: string, sep: char, b: string)
    requires sep !in a
    ensures Split(a + [sep] + b, sep) == [a] + Split(b, sep)
  {
    var s := a + [sep] + b;
    IndexOfCharAfter(a, sep, b);
    assert s[..|a|] == a;
    assert s[|a| + 1..] == b;
  }

  /** `s.split(sep)[0]`: everything before the first separator. */
  function BeforeChar(s: string, sep: char): (r: string)
    ensures sep !in r
    ensures StartsWith(s, r)
    ensures sep !in s ==> r == s
  {
    Split(s, sep)[0]
  }

  /** `s.replace(/c/g, d)` */
  function ReplaceChar(s: string, c: char, d: char): (r: string)
    ensures |r| == |s|
    ensures forall k :: 0 <= k < |s| ==> r[k] == if s[k] == c then d else s[k]
  {
    if s == [] then [] else [if s[0] == c then d else s[0]] + ReplaceChar(s[1..], c, d)
  }

  /** `toLowerCase`, modelled on the ASCII letters only. */
  function LowerAscii(s: string): (r: string)
    ensures |r| == |s|
    ensures forall k :: 0 <= k < |s| ==> r[k] == if 'A' <= s[k] <= 'Z' then (s[k] as int + 32) as char else s[k]
  {
    if s == [] then []
    else [if 'A' <= s[0] <= 'Z' then (s[0] as int + 32) as char else s[0]] + LowerAscii(s[1..])
  }

  function DigitChar(d: nat): char
    requires d < 10
  {
    "0123456789"[d]
  }

  /** The decimal form of `n`, as `${n}` writes it for a non-negative integer. */
  function NatToString(n: nat): (r: string)
    ensures |r| >= 1
    ensures forall k :: 0 <= k < |r| ==> '0' <= r[k] <= '9'
    ensures (|r| > 1) ==> r[0] != '0'
    decreases n
  {
    if n < 10 then [DigitChar(n)] else NatToString(n / 10) + [DigitChar(n % 10)]
  }

  /** The first `n` elements, none when `n` is not positive, as
      `substring(0, n)` gives them (and `slice(0, n)` for `n >= 0`). */
  function Take<T>(s: seq<T>, n: int): (r: seq<T>)
    ensures |r| == if n <= 0 then 0 else if n < |s| then n else |s|
    ensures forall k :: 0 <= k < |r| ==> r[k] == s[k]
  {
    if n <= 0 then [] else if n < |s| then s[..n] else s
  }

  /** The ECMAScript white space and line terminators `trim` removes. */
  predicate IsJsSpace(c: char) {
    c in {'\t', '\n', '\U{B}', '\U{C}', '\r', ' ', '\U{A0}', '\U{1680}', '\U{2028}', '\U{2029}',
          '\U{202F}', '\U{205F}', '\U{3000}', '\U{FEFF}'} ||
    '\U{2000}' <= c <= '\U{200A}'
  }

  function TrimStart(s: string): (r: string)
    ensures |r| <= |s| && s[|s| - |r|..] == r
    ensures r == [] || !IsJsSpace(r[0])
    ensures forall k :: 0 <= k < |s| - |r| ==> IsJsSpace(s[k])
  {
    if s != [] && IsJsSpace(s[0]) then TrimStart(s[1..]) else s
  }

  function TrimEnd(s: string): (r: string)
    ensures StartsWith(s, r)
    ensures r == [] || !IsJsSpace(r[|r| - 1])
    ensures forall k :: |r| <= k < |s| ==> IsJsSpace(s[k])
  {
    if s != [] && IsJsSpace(s[|s| - 1]) then TrimEnd(s[..|s| - 1]) else s
  }

  /** `s.trim()` */
  function Trim(s: string): (r: string)
    ensures r == [] || (!IsJsSpace(r[0]) && !IsJsSpace(r[|r| - 1]))
  {
    TrimEnd(TrimStart(s))
  }

  /** Trimming leaves nothing exactly when every character is white space. */
  lemma TrimEmpty(s: string)
    ensures Trim(s) == [] <==> forall k :: 0 <= k < |s| ==> IsJsSpace(s[k])
  {
  }

  /** A string with no white space at either end is its own trim; in
      particular trimming twice is trimming once. */
  lemma TrimIdle(s: string)
    requires s == [] || (!IsJsSpace(s[0]) && !IsJsSpace(s[|s| - 1]))
    ensures Trim(s) == s
  {
    assert TrimStart(s) == s;
  }

  /** A regular expression of the form `prefix([^stop]+)` (or with `*`
      when `nonEmpty` is false), followed by one character of `stop` when
      `terminated` holds, as in `/\/place\/([^\/]+)\//`. */
  datatype Pattern = Pattern(prefix: string, stop: set<char>, nonEmpty: bool, terminated: bool)

  /** The number of characters from position `j` up to the first character
      of `stop` or the end: what a greedy `[^stop]*` consumes. */
  function RunLen(s: string, j: nat, stop: set<char>): (n: nat)
    ensures j <= |s| ==> j + n <= |s|
    ensures j > |s| ==> n == 0
    ensures j + n < |s| ==> s[j + n] in stop
    decreases |s| - j
  {
    if j >= |s| || s[j] in stop then 0 else 1 + RunLen(s, j + 1, stop)
  }

  /** No character of the run is in `stop`. */
  lemma {:induction false} RunLenClear(s: string, j: nat, stop: set<char>)
    ensures forall k :: j <= k < j + RunLen(s, j, stop) ==> s[k] !in stop
    decreases |s| - j
  {
    if j < |s| && s[j] !in stop {
      RunLenClear(s, j + 1, stop);
    }
  }

  /** The pattern matches at position `i`. Because the capture stops at the
      first character of `stop`, the greedy run is the only candidate. */
  predicate MatchesAt(s: string, p: Pattern, i: int) {
    OccursAt(s, p.prefix, i) &&
    var n := RunLen(s, i + |p.prefix|, p.stop);
    (p.nonEmpty ==> n >= 1) && (p.terminated ==> i + |p.prefix| + n < |s|)
  }

  /** The leftmost position at or after `from` where the pattern matches. */
  function FirstMatch(s: string, p: Pattern, from: nat): (r: Option<nat>)
    ensures r.Some? ==> from <= r.value && MatchesAt(s, p, r.value)
    ensures r.Some? ==> forall j :: from <= j < r.value ==> !MatchesAt(s, p, j)
    ensures r.None? ==> forall j :: from <= j ==> !MatchesAt(s, p, j)
    decreases |s| - from
  {
    if from > |s| then None
    else if MatchesAt(s, p, from) then Some(from)
    else FirstMatch(s, p, from + 1)
  }

  /** `s.match(re)[1]`, with `None` when there is no match. */
  function Capture(s: string, p: Pattern): (r: Option<string>)
    ensures r.Some? ==> (p.nonEmpty ==> |r.value| >= 1) && forall c :: c in r.value ==> c !in p.stop
    ensures r.Some? ==> Contains(s, p.prefix + r.value)
    ensures r.None? <==> forall j :: 0 <= j ==> !MatchesAt(s, p, j)
  {
    match FirstMatch(s, p, 0)
    case None => None
    case Some(i) =>
      CapturedAtMatch(s, p, i);
      Some(CapturedAt(s, p, i))
  }

  /** The group captured by a match at `i`: the greedy run after the
      prefix. */
  function CapturedAt(s: string, p: Pattern, i: nat): (c: string)
    requires i + |p.prefix| <= |s|
    ensures |c| == RunLen(s, i + |p.prefix|, p.stop)
  {
    var j := i + |p.prefix|;
    s[j..j + RunLen(s, j, p.stop)]
  }

  /** The group of a match holds no character of `stop` and follows the
      prefix in the text. */
  lemma CapturedAtMatch(s: string, p: Pattern, i: nat)
    requires OccursAt(s, p.prefix, i)
    ensures forall ch :: ch in CapturedAt(s, p, i) ==> ch !in p.stop
    ensures OccursAt(s, p.prefix + CapturedAt(s, p, i), i)
  {
    var j := i + |p.prefix|;
    var c := CapturedAt(s, p, i);
    RunLenClear(s, j, p.stop);
    assert s[i..j + |c|] == p.prefix + c;
  }

  /** The capture of a pattern whose leftmost match is at `i`. */
  lemma CaptureAt(s: string, p: Pattern, i: nat)
    requires FirstMatch(s, p, 0) == Some(i)
    ensures i + |p.prefix| <= |s| && Capture(s, p) == Some(CapturedAt(s, p, i))
  {
  }

  /** A text `v` after the prefix whose length is the run there is the
      captured group. */
  lemma CapturedAtIs(s: string, p: Pattern, i: nat, v: string)
    requires OccursAt(s, v, i + |p.prefix|)
    requires RunLen(s, i + |p.prefix|, p.stop) == |v|
    ensures CapturedAt(s, p, i) == v
  {
  }

  /** A text `v` with no character of `stop`, followed in `s` by a
      character of `stop` or by the end, is the run at its position. */
  lemma RunLenOver(s: string, j: nat, stop: set<char>, v: string)
    requires OccursAt(s, v, j)
    requires forall c :: c in v ==> c !in stop
    requires j + |v| < |s| ==> s[j + |v|] in stop
    ensures RunLen(s, j, stop) == |v|
  {
    forall k | j <= k < j + |v| ensures s[k] !in stop {
      assert s[k] == v[k - j];
    }
    RunLenExact(s, j, stop, |v|);
  }

  /** A run of `n` characters outside `stop`, ended by a character of
      `stop` or by the end, is what `RunLen` measures. */
  lemma {:induction false} RunLenExact(s: string, j: nat, stop: set<char>, n: nat)
    requires j + n <= |s|
    requires forall k :: j <= k < j + n ==> s[k] !in stop
    requires j + n < |s| ==> s[j + n] in stop
    ensures RunLen(s, j, stop) == n
    decreases n
  {
    if n > 0 {
      RunLenExact(s, j + 1, stop, n - 1);
    }
  }
}
