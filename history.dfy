/** The scan history (`HistoryManager` in js/historyManager.js). The
    stored array is the field `store`; a missing, unparseable or non-array
    entry reads as the empty array. Every entry is a JSON value: an object
    with the three fields the manager looks at, or anything else. */
module History {
  import opened Wrappers
  import opened Text

  /** A field of a stored object, as far as `validateItem` tells them apart. */
  datatype Field = Missing | Str(str: string) | Num(num: int) | OtherValue

  /** A stored entry: an object with its `type`, `data` and `timestamp`
      fields, or a value that is not an object (null, a string, ...). */
  datatype Value = NotObject | Object(kind: Field, data: Field, timestamp: Field)

  /** `validateItem(item)`: an object whose `type` and `data` are non-empty
      strings and whose `timestamp` is a positive number. */
  predicate ValidItem(v: Value) {
    v.Object? && v.kind.Str? && v.kind.str != "" && v.data.Str? && v.data.str != "" &&
    v.timestamp.Num? && v.timestamp.num > 0
  }

  function Ts(v: Value): int {
    if v.Object? && v.timestamp.Num? then v.timestamp.num else 0
  }

  /** `existing.data === item.data && existing.type === item.type` */
  predicate SameEntry(a: Value, b: Value) {
    a.Object? && b.Object? && a.data == b.data && a.kind == b.kind
  }

  /** `s.filter(p)`: the elements satisfying `p`, in their order. */
  function Filter<T(!new)>(s: seq<T>, p: T -> bool): (r: seq<T>)
    ensures |r| <= |s|
    ensures forall v :: v in r <==> v in s && p(v)
    ensures |r| == |s| <==> forall k :: 0 <= k < |s| ==> p(s[k])
  {
    if s == [] then [] else (if p(s[0]) then [s[0]] else []) + Filter(s[1..], p)
  }

  /** Timestamps never increase along `s`. */
  predicate Descending(s: seq<Value>) {
    forall i, j :: 0 <= i < j < |s| ==> Ts(s[i]) >= Ts(s[j])
  }

  /** `x` placed before the first element whose timestamp is not larger. */
  function Insert(x: Value, t: seq<Value>): (r: seq<Value>)
    ensures multiset(r) == multiset(t) + multiset{x}
  {
    if t == [] || Ts(t[0]) <= Ts(x) then [x] + t
    else
      assert t == [t[0]] + t[1..];
      [t[0]] + Insert(x, t[1..])
  }

  lemma {:induction false} InsertDescending(x: Value, t: seq<Value>)
    requires Descending(t)
    ensures Descending(Insert(x, t))
  {
    if t == [] || Ts(t[0]) <= Ts(x) {
      var r := [x] + t;
      forall i, j | 0 <= i < j < |r| ensures Ts(r[i]) >= Ts(r[j]) {
        if i == 0 {
          assert r[j] == t[j - 1];
          assert Ts(t[0]) >= Ts(t[j - 1]);
        } else {
          assert r[i] == t[i - 1] && r[j] == t[j - 1];
        }
      }
    } else {
      var tail := Insert(x, t[1..]);
      InsertDescending(x, t[1..]);
      var r := [t[0]] + tail;
      forall i, j | 0 <= i < j < |r| ensures Ts(r[i]) >= Ts(r[j]) {
        if i == 0 {
          assert r[j] == tail[j - 1];
          InsertBelowHead(x, t, j - 1);
        } else {
          assert r[i] == tail[i - 1] && r[j] == tail[j - 1];
        }
      }
    }
  }

  /** When `x` goes after the head of a descending list, the head is at
      least as new as everything after it. */
  lemma InsertBelowHead(x: Value, t: seq<Value>, j: int)
    requires Descending(t) && t != [] && Ts(t[0]) > Ts(x)
    requires 0 <= j < |Insert(x, t[1..])|
    ensures Ts(t[0]) >= Ts(Insert(x, t[1..])[j])
  {
    var tail := Insert(x, t[1..]);
    assert tail[j] in multiset(tail);
    if tail[j] != x {
      assert tail[j] in multiset(t[1..]);
      var k :| 0 <= k < |t[1..]| && t[1..][k] == tail[j];
      assert t[k + 1] == tail[j];
    }
  }

  /** `sort((a, b) => b.timestamp - a.timestamp)`, a stable sort. */
  function SortDesc(s: seq<Value>): (r: seq<Value>)
    ensures Descending(r)
    ensures multiset(r) == multiset(s)
  {
    if s == [] then []
    else
      assert s == [s[0]] + s[1..];
      InsertDescending(s[0], SortDesc(s[1..]));
      Insert(s[0], SortDesc(s[1..]))
  }

  /** No two entries share a type and data. */
  predicate DistinctEntries(s: seq<Value>) {
    forall i, j :: 0 <= i < j < |s| ==> !SameEntry(s[i], s[j])
  }

  /** `SameEntry` is symmetric. */
  lemma SameEntrySymmetric(a: Value, b: Value)
    ensures SameEntry(a, b) == SameEntry(b, a)
  {
  }

  /** The position `findIndex` returns for an entry like `x`. */
  function FindSame(s: seq<Value>, x: Value): (r: Option<nat>)
    ensures r.Some? ==> r.value < |s| && SameEntry(s[r.value], x)
    ensures r.Some? ==> forall k :: 0 <= k < r.value ==> !SameEntry(s[k], x)
    ensures r.None? ==> forall k :: 0 <= k < |s| ==> !SameEntry(s[k], x)
  {
    if s == [] then None
    else if SameEntry(s[0], x) then Some(0)
    else
      match FindSame(s[1..], x)
      case None => None
      case Some(i) => Some(i + 1)
  }

  /** `splice(findIndex(...), 1)` when an entry like `x` exists. */
  function RemoveFirstSame(s: seq<Value>, x: Value): (r: seq<Value>)
    ensures FindSame(s, x).None? ==> r == s
    ensures FindSame(s, x).Some? ==> var i := FindSame(s, x).value; r == s[..i] + s[i + 1..]
  {
    match FindSame(s, x)
    case None => s
    case Some(i) => s[..i] + s[i + 1..]
  }

  /** What `addItem` stores for a valid item. */
  function Added(items: seq<Value>, item: Value, maxItems: int): seq<Value> {
    Take([item] + RemoveFirstSame(items, item), maxItems)
  }

  /** The stored list after `addItem` starts with the new item, keeps at
      most `maxItems` entries, takes every other entry from the list before
      it, and is one shorter than the uncapped list exactly when an entry
      like the new item was removed. */
  lemma {:induction false} AddedShape(items: seq<Value>, item: Value, maxItems: int)
    requires maxItems >= 1
    ensures var r := Added(items, item, maxItems);
      var uncapped := |items| + 1 - (if FindSame(items, item).Some? then 1 else 0);
      |r| >= 1 && r[0] == item &&
      |r| == (if uncapped <= maxItems then uncapped else maxItems) &&
      forall k :: 1 <= k < |r| ==> r[k] in items
  {
    var rest := RemoveFirstSame(items, item);
    var r := Added(items, item, maxItems);
    assert ([item] + rest)[0] == item;
    forall k | 1 <= k < |r| ensures r[k] in items {
      assert r[k] == rest[k - 1];
      match FindSame(items, item)
      case None =>
      case Some(i) =>
        var j := if k - 1 < i then k - 1 else k;
        assert rest[k - 1] == items[j];
    }
  }

  /** When the list before held no two entries alike, the list after
      `addItem` holds no other entry like the new item and stays free of
      duplicates. */
  lemma {:induction false} AddedDistinct(items: seq<Value>, item: Value, maxItems: int)
    requires maxItems >= 1 && item.Object?
    requires DistinctEntries(items)
    ensures var r := Added(items, item, maxItems);
      (forall k :: 1 <= k < |r| ==> !SameEntry(r[k], item)) && DistinctEntries(r)
  {
    var rest := RemoveFirstSame(items, item);
    var r := Added(items, item, maxItems);
    assert ([item] + rest)[0] == item;
    forall k | 1 <= k < |r| ensures !SameEntry(r[k], item) {
      assert r[k] == rest[k - 1];
      match FindSame(items, item)
      case None =>
      case Some(i) =>
        var j := if k - 1 < i then k - 1 else k;
        assert rest[k - 1] == items[j];
        if j > i {
          assert !SameEntry(items[i], items[j]);
          assert SameEntry(items[i], item);
        }
    }
    forall a, b | 0 <= a < b < |r| ensures !SameEntry(r[a], r[b]) {
      if a == 0 {
        SameEntrySymmetric(r[b], item);
      } else {
        RestDistinct(items, item, a - 1, b - 1);
        assert r[a] == rest[a - 1] && r[b] == rest[b - 1];
      }
    }
  }

  lemma RestDistinct(items: seq<Value>, item: Value, a: nat, b: nat)
    requires DistinctEntries(items)
    requires a < b < |RemoveFirstSame(items, item)|
    ensures !SameEntry(RemoveFirstSame(items, item)[a], RemoveFirstSame(items, item)[b])
  {
    match FindSame(items, item)
    case None =>
    case Some(i) =>
      var rest := items[..i] + items[i + 1..];
      assert RemoveFirstSame(items, item) == rest;
      var a' := if a < i then a else a + 1;
      var b' := if b < i then b else b + 1;
      assert a' < b' < |items|;
      assert rest[a] == items[a'] && rest[b] == items[b'];
  }

  /** `item.type.toLowerCase().includes(t) || item.data.toLowerCase().includes(t)` */
  predicate MatchesSearch(v: Value, term: string) {
    v.Object? &&
    ((v.kind.Str? && Contains(LowerAscii(v.kind.str), term)) ||
     (v.data.Str? && Contains(LowerAscii(v.data.str), term)))
  }

  /** The key `${item.type}-${item.data}` of the import merge. Only valid
      items reach the merge, so both fields are strings there; any other
      value gets the empty key. */
  function ImportKey(v: Value): string {
    if v.Object? && v.kind.Str? && v.data.Str? then v.kind.str + "-" + v.data.str else ""
  }

  /** Two different items can share an import key: type "a-b" with data
      "c", and type "a" with data "b-c". */
  lemma ImportKeyCollides()
    ensures var x := Object(Str("a-b"), Str("c"), Num(1));
      var y := Object(Str("a"), Str("b-c"), Num(2));
      ValidItem(x) && ValidItem(y) && !SameEntry(x, y) && ImportKey(x) == ImportKey(y)
  {
    var x := Object(Str("a-b"), Str("c"), Num(1));
    var y := Object(Str("a"), Str("b-c"), Num(2));
    assert ImportKey(x) == "a-b-c" == ImportKey(y);
  }

  /** So importing both into an empty history keeps only the newer one. */
  lemma ImportCollisionKeepsOne()
    ensures var x := Object(Str("a-b"), Str("c"), Num(1));
      var y := Object(Str("a"), Str("b-c"), Num(2));
      Merge([x, y]) == [y]
  {
    var x := Object(Str("a-b"), Str("c"), Num(1));
    var y := Object(Str("a"), Str("b-c"), Num(2));
    assert [x, y][..1] == [x];
    assert [x][..0] == [];
    assert Merge([x]) == Absorb([], x) == [x];
    assert ImportKey(x) == "a-b-c" == ImportKey(y);
    assert FindKey([x], y) == Some(0);
    assert Merge([x, y]) == Absorb([x], y) == [x][0 := y];
  }

  /** For types without a hyphen, which includes every type the generator
      writes, the import key tells valid entries apart exactly as type and
      data do. */
  lemma ImportKeyAgrees(x: Value, y: Value)
    requires ValidItem(x) && ValidItem(y)
    requires '-' !in x.kind.str && '-' !in y.kind.str
    ensures ImportKey(x) == ImportKey(y) <==> SameEntry(x, y)
  {
    if ImportKey(x) == ImportKey(y) {
      var kx, ky := x.kind.str, y.kind.str;
      IndexOfCharAfter(kx, '-', x.data.str);
      IndexOfCharAfter(ky, '-', y.data.str);
      assert kx + "-" + x.data.str == kx + ['-'] + x.data.str;
      assert ky + "-" + y.data.str == ky + ['-'] + y.data.str;
      var key := ImportKey(x);
      assert |kx| == |ky|;
      assert key[..|kx|] == kx && key[..|ky|] == ky;
      assert key[|kx| + 1..] == x.data.str && key[|ky| + 1..] == y.data.str;
    }
  }

  /** No two entries share an import key. */
  predicate DistinctKeys(s: seq<Value>) {
    forall i, j :: 0 <= i < j < |s| ==> ImportKey(s[i]) != ImportKey(s[j])
  }

  /** Some entry of `r` has the import key `key`. */
  predicate HasKey(r: seq<Value>, key: string) {
    exists j :: 0 <= j < |r| && ImportKey(r[j]) == key
  }

  /** `s[i]` is the newest entry of its key in `s`, and the first of them
      on a tie of timestamps. */
  predicate FirstNewest(s: seq<Value>, i: int) {
    0 <= i < |s| &&
    forall k :: 0 <= k < |s| && ImportKey(s[k]) == ImportKey(s[i]) ==>
      Ts(s[k]) < Ts(s[i]) || (Ts(s[k]) == Ts(s[i]) && i <= k)
  }

  /** `v` is the entry a merge of `s` must keep for its key. */
  predicate Chosen(s: seq<Value>, v: Value) {
    exists i :: 0 <= i < |s| && FirstNewest(s, i) && s[i] == v
  }

  /** `acc.map[key]`: the position of the entry with `x`'s key. */
  function FindKey(acc: seq<Value>, x: Value): (r: Option<nat>)
    ensures r.Some? ==> r.value < |acc| && ImportKey(acc[r.value]) == ImportKey(x)
    ensures r.None? ==> forall k :: 0 <= k < |acc| ==> ImportKey(acc[k]) != ImportKey(x)
  {
    if acc == [] then None
    else if ImportKey(acc[0]) == ImportKey(x) then Some(0)
    else
      match FindKey(acc[1..], x)
      case None => None
      case Some(i) => Some(i + 1)
  }

  /** One step of the merge's `reduce`: the first entry of a key is kept,
      replaced in place only by a strictly newer one. */
  function Absorb(acc: seq<Value>, x: Value): seq<Value> {
    match FindKey(acc, x)
    case None => acc + [x]
    case Some(k) => if Ts(acc[k]) < Ts(x) then acc[k := x] else acc
  }

  /** `reduce` over `s`, then `Object.values`: one entry per key, in the
      order keys were first seen. */
  function Merge(s: seq<Value>): seq<Value> {
    if s == [] then [] else Absorb(Merge(s[..|s| - 1]), s[|s| - 1])
  }

  /** The merge keeps one entry per import key and loses no key; the entry
      it keeps for a key is the newest input entry of that key, the first
      one seen when several are equally new. */
  lemma {:induction false} MergeSpec(s: seq<Value>)
    ensures DistinctKeys(Merge(s))
    ensures forall v :: v in Merge(s) ==> Chosen(s, v)
    ensures forall k :: 0 <= k < |s| ==> HasKey(Merge(s), ImportKey(s[k]))
  {
    if s != [] {
      var p, x := s[..|s| - 1], s[|s| - 1];
      assert s == p + [x];
      MergeSpec(p);
      AbsorbSpec(p, x);
    }
  }

  /** One `reduce` step keeps the three properties of `MergeSpec`. */
  lemma AbsorbSpec(p: seq<Value>, x: Value)
    requires DistinctKeys(Merge(p))
    requires forall v :: v in Merge(p) ==> Chosen(p, v)
    requires forall k :: 0 <= k < |p| ==> HasKey(Merge(p), ImportKey(p[k]))
    ensures var r, s := Absorb(Merge(p), x), p + [x];
      DistinctKeys(r) &&
      (forall v :: v in r ==> Chosen(s, v)) &&
      (forall k :: 0 <= k < |s| ==> HasKey(r, ImportKey(s[k])))
  {
    match FindKey(Merge(p), x)
    case None => AbsorbNewKey(p, x);
    case Some(m) => AbsorbKnownKey(p, x, m);
  }

  /** The step for a key not seen before appends `x`. */
  lemma AbsorbNewKey(p: seq<Value>, x: Value)
    requires FindKey(Merge(p), x).None?
    requires DistinctKeys(Merge(p))
    requires forall v :: v in Merge(p) ==> Chosen(p, v)
    requires forall k :: 0 <= k < |p| ==> HasKey(Merge(p), ImportKey(p[k]))
    ensures var r, s := Absorb(Merge(p), x), p + [x];
      DistinctKeys(r) &&
      (forall v :: v in r ==> Chosen(s, v)) &&
      (forall k :: 0 <= k < |s| ==> HasKey(r, ImportKey(s[k])))
  {
    var acc := Merge(p);
    assert Absorb(acc, x) == acc + [x];
    forall k | 0 <= k < |p| ensures ImportKey(p[k]) != ImportKey(x) {
      var j :| 0 <= j < |acc| && ImportKey(acc[j]) == ImportKey(p[k]);
    }
    AppendChosen(p, acc, x);
    AppendHasKey(p, acc, x);
  }

  /** Appending an entry of a new key keeps every entry chosen. */
  lemma AppendChosen(p: seq<Value>, acc: seq<Value>, x: Value)
    requires forall k :: 0 <= k < |acc| ==> ImportKey(acc[k]) != ImportKey(x)
    requires forall k :: 0 <= k < |p| ==> ImportKey(p[k]) != ImportKey(x)
    requires forall v :: v in acc ==> Chosen(p, v)
    ensures forall v :: v in acc + [x] ==> Chosen(p + [x], v)
  {
    forall v | v in acc + [x] ensures Chosen(p + [x], v) {
      if v in acc {
        var j :| 0 <= j < |acc| && acc[j] == v;
        var i :| 0 <= i < |p| && FirstNewest(p, i) && p[i] == v;
        KeptWinner(p, x, i);
      } else {
        NewWinner(p, x);
      }
    }
  }

  /** Appending an entry of a new key loses no key and adds its own. */
  lemma AppendHasKey(p: seq<Value>, acc: seq<Value>, x: Value)
    requires forall k :: 0 <= k < |p| ==> HasKey(acc, ImportKey(p[k]))
    ensures forall k :: 0 <= k < |p + [x]| ==> HasKey(acc + [x], ImportKey((p + [x])[k]))
  {
    var r, s := acc + [x], p + [x];
    forall k | 0 <= k < |s| ensures HasKey(r, ImportKey(s[k])) {
      if k < |p| {
        assert s[k] == p[k];
        var j :| 0 <= j < |acc| && ImportKey(acc[j]) == ImportKey(p[k]);
        assert r[j] == acc[j];
      } else {
        assert r[|acc|] == x;
      }
    }
  }

  /** The step for a key already seen replaces its entry in place when
      `x` is strictly newer, and otherwise changes nothing. */
  lemma AbsorbKnownKey(p: seq<Value>, x: Value, m: nat)
    requires FindKey(Merge(p), x) == Some(m)
    requires DistinctKeys(Merge(p))
    requires forall v :: v in Merge(p) ==> Chosen(p, v)
    requires forall k :: 0 <= k < |p| ==> HasKey(Merge(p), ImportKey(p[k]))
    ensures var r, s := Absorb(Merge(p), x), p + [x];
      DistinctKeys(r) &&
      (forall v :: v in r ==> Chosen(s, v)) &&
      (forall k :: 0 <= k < |s| ==> HasKey(r, ImportKey(s[k])))
  {
    var acc := Merge(p);
    if Ts(acc[m]) < Ts(x) {
      assert Absorb(acc, x) == acc[m := x];
      ReplaceChosen(p, acc, x, m);
      ReplaceHasKey(p, acc, x, m);
    } else {
      assert Absorb(acc, x) == acc;
      KeepChosen(p, acc, x, m);
      KeepHasKey(p, acc, x, m);
    }
  }

  /** Replacing the entry of `x`'s key by the strictly newer `x` keeps
      keys distinct and every entry chosen. */
  lemma ReplaceChosen(p: seq<Value>, acc: seq<Value>, x: Value, m: nat)
    requires m < |acc| && ImportKey(acc[m]) == ImportKey(x) && Ts(acc[m]) < Ts(x)
    requires DistinctKeys(acc)
    requires forall v :: v in acc ==> Chosen(p, v)
    ensures DistinctKeys(acc[m := x])
    ensures forall v :: v in acc[m := x] ==> Chosen(p + [x], v)
  {
    var r := acc[m := x];
    assert forall j :: 0 <= j < |r| ==> ImportKey(r[j]) == ImportKey(acc[j]);
    assert acc[m] in acc;
    var i0 :| 0 <= i0 < |p| && FirstNewest(p, i0) && p[i0] == acc[m];
    forall v | v in r ensures Chosen(p + [x], v) {
      var j :| 0 <= j < |r| && r[j] == v;
      if j == m {
        forall k | 0 <= k < |p| && ImportKey(p[k]) == ImportKey(x) ensures Ts(p[k]) < Ts(x) {
          assert Ts(p[k]) <= Ts(p[i0]);
        }
        NewWinner(p, x);
      } else {
        assert v == acc[j] && v in acc;
        var i :| 0 <= i < |p| && FirstNewest(p, i) && p[i] == v;
        assert ImportKey(acc[j]) != ImportKey(acc[m]);
        KeptWinner(p, x, i);
      }
    }
  }

  /** Replacing an entry by one of the same key loses no key. */
  lemma ReplaceHasKey(p: seq<Value>, acc: seq<Value>, x: Value, m: nat)
    requires m < |acc| && ImportKey(acc[m]) == ImportKey(x)
    requires forall k :: 0 <= k < |p| ==> HasKey(acc, ImportKey(p[k]))
    ensures forall k :: 0 <= k < |p + [x]| ==> HasKey(acc[m := x], ImportKey((p + [x])[k]))
  {
    var r, s := acc[m := x], p + [x];
    forall k | 0 <= k < |s| ensures HasKey(r, ImportKey(s[k])) {
      if k < |p| {
        assert s[k] == p[k];
        var j :| 0 <= j < |acc| && ImportKey(acc[j]) == ImportKey(p[k]);
        assert ImportKey(r[j]) == ImportKey(acc[j]);
      } else {
        assert ImportKey(r[m]) == ImportKey(x);
      }
    }
  }

  /** Keeping the entry of `x`'s key when `x` is not strictly newer keeps
      every entry chosen. */
  lemma KeepChosen(p: seq<Value>, acc: seq<Value>, x: Value, m: nat)
    requires m < |acc| && ImportKey(acc[m]) == ImportKey(x) && Ts(x) <= Ts(acc[m])
    requires DistinctKeys(acc)
    requires forall v :: v in acc ==> Chosen(p, v)
    ensures forall v :: v in acc ==> Chosen(p + [x], v)
  {
    forall v | v in acc ensures Chosen(p + [x], v) {
      var j :| 0 <= j < |acc| && acc[j] == v;
      var i :| 0 <= i < |p| && FirstNewest(p, i) && p[i] == v;
      if ImportKey(x) == ImportKey(p[i]) {
        assert j == m;
      }
      KeptWinner(p, x, i);
    }
  }

  /** The unchanged merge already has `x`'s key. */
  lemma KeepHasKey(p: seq<Value>, acc: seq<Value>, x: Value, m: nat)
    requires m < |acc| && ImportKey(acc[m]) == ImportKey(x)
    requires forall k :: 0 <= k < |p| ==> HasKey(acc, ImportKey(p[k]))
    ensures forall k :: 0 <= k < |p + [x]| ==> HasKey(acc, ImportKey((p + [x])[k]))
  {
    var s := p + [x];
    forall k | 0 <= k < |s| ensures HasKey(acc, ImportKey(s[k])) {
      if k < |p| {
        assert s[k] == p[k];
      }
    }
  }

  /** An entry that wins its key in `p` still wins it after `x`, unless
      `x` has that key and is strictly newer. */
  lemma KeptWinner(p: seq<Value>, x: Value, i: int)
    requires FirstNewest(p, i)
    requires ImportKey(x) == ImportKey(p[i]) ==> Ts(x) <= Ts(p[i])
    ensures FirstNewest(p + [x], i) && (p + [x])[i] == p[i]
  {
    var s := p + [x];
    forall k | 0 <= k < |s| && ImportKey(s[k]) == ImportKey(s[i])
      ensures Ts(s[k]) < Ts(s[i]) || (Ts(s[k]) == Ts(s[i]) && i <= k)
    {
      if k < |p| { assert s[k] == p[k]; }
    }
  }

  /** `x` wins its key after `p` when it is strictly newer than every
      entry of that key in `p`. */
  lemma NewWinner(p: seq<Value>, x: Value)
    requires forall k :: 0 <= k < |p| && ImportKey(p[k]) == ImportKey(x) ==> Ts(p[k]) < Ts(x)
    ensures FirstNewest(p + [x], |p|) && (p + [x])[|p|] == x
  {
    var s := p + [x];
    forall k | 0 <= k < |s| && ImportKey(s[k]) == ImportKey(s[|p|])
      ensures Ts(s[k]) < Ts(s[|p|]) || (Ts(s[k]) == Ts(s[|p|]) && |p| <= k)
    {
      if k < |p| { assert s[k] == p[k]; }
    }
  }

  /** Entries with distinct keys keep them in any order. */
  lemma {:induction false} DistinctPermutation(s: seq<Value>, t: seq<Value>)
    requires multiset(s) == multiset(t)
    requires DistinctKeys(s)
    ensures DistinctKeys(t)
  {
    forall i, j | 0 <= i < j < |t| ensures ImportKey(t[i]) != ImportKey(t[j]) {
      assert t[i] in multiset(s) && t[j] in multiset(s);
      var a :| 0 <= a < |s| && s[a] == t[i];
      var b :| 0 <= b < |s| && s[b] == t[j];
      if a == b {
        // t[i] == t[j] occurs twice in t, so twice in s
        assert t[..j] + t[j..] == t;
        assert t[i] in t[..j];
        assert t[j] in t[j..];
        assert multiset(t[..j])[t[i]] >= 1;
        assert multiset(t[j..])[t[j]] >= 1;
        assert multiset(t)[t[i]] >= 2;
        TwiceMeansTwoPlaces(s, s[a]);
      } else if a < b {
        assert ImportKey(s[a]) != ImportKey(s[b]);
      } else {
        assert ImportKey(s[b]) != ImportKey(s[a]);
      }
    }
  }

  /** A value counted twice sits at two positions. */
  lemma {:induction false} TwiceMeansTwoPlaces(s: seq<Value>, v: Value)
    requires multiset(s)[v] >= 2
    ensures exists c, d :: 0 <= c < d < |s| && s[c] == v && s[d] == v
  {
    assert s == [s[0]] + s[1..];
    if s[0] == v {
      assert multiset(s[1..])[v] >= 1;
      var d :| 0 <= d < |s[1..]| && s[1..][d] == v;
      assert s[d + 1] == v;
    } else {
      assert multiset(s[1..])[v] >= 2;
      TwiceMeansTwoPlaces(s[1..], v);
      var c, d :| 0 <= c < d < |s[1..]| && s[1..][c] == v && s[1..][d] == v;
      assert s[c + 1] == v && s[d + 1] == v;
    }
  }

  /** The import merge of `importHistory`: valid imported items before the
      current ones, merged by key, newest first, at most twice the cap. */
  function MergedImport(valid: seq<Value>, current: seq<Value>, maxItems: int): seq<Value> {
    Take(SortDesc(Merge(valid + current)), maxItems * 2)
  }

  /** The merged list is newest first, has at most `2 * maxItems` entries
      with distinct import keys, and keeps for each key the newest entry
      of the imported-then-current list, the first seen on a tie; a key is
      missing only when the list is full and its entries are no newer than
      any kept one. */
  lemma MergedImportShape(valid: seq<Value>, current: seq<Value>, maxItems: int)
    ensures var r, s := MergedImport(valid, current, maxItems), valid + current;
      var cap := if maxItems <= 0 then 0 else 2 * maxItems;
      Descending(r) && |r| <= cap && DistinctKeys(r) &&
      (forall v :: v in r ==> Chosen(s, v)) &&
      (forall k :: 0 <= k < |s| && !HasKey(r, ImportKey(s[k])) ==>
         |r| == cap && forall y :: y in r ==> Ts(y) >= Ts(s[k]))
  {
    var s := valid + current;
    var merged := Merge(s);
    MergeSpec(s);
    var sorted := SortDesc(merged);
    var r := MergedImport(valid, current, maxItems);
    DistinctPermutation(merged, sorted);
    TakeKeeps(sorted, maxItems * 2);
    forall v | v in r ensures Chosen(s, v) {
      assert v in multiset(merged);
    }
    forall k | 0 <= k < |s| && !HasKey(r, ImportKey(s[k]))
      ensures |r| == (if maxItems <= 0 then 0 else 2 * maxItems) && forall y :: y in r ==> Ts(y) >= Ts(s[k])
    {
      MissingKeyWasCut(s, k, maxItems * 2);
    }
  }

  /** A key of `s` missing from the cut, sorted merge was cut off: the
      list is full, and everything it kept is at least as new as any entry
      of that key. */
  lemma MissingKeyWasCut(s: seq<Value>, k: int, n: int)
    requires 0 <= k < |s|
    requires !HasKey(Take(SortDesc(Merge(s)), n), ImportKey(s[k]))
    ensures var r := Take(SortDesc(Merge(s)), n);
      |r| == (if n <= 0 then 0 else n) && forall y :: y in r ==> Ts(y) >= Ts(s[k])
  {
    var sorted := SortDesc(Merge(s));
    var r := Take(sorted, n);
    var w := WinnerInMerge(s, k);
    assert w in multiset(sorted);
    assert w in sorted;
    assert w !in r;
    TakeTop(sorted, n);
  }

  /** The merge holds an entry of each input key at least as new as any
      input entry of that key. */
  lemma WinnerInMerge(s: seq<Value>, k: int) returns (w: Value)
    requires 0 <= k < |s|
    ensures w in Merge(s) && ImportKey(w) == ImportKey(s[k]) && Ts(s[k]) <= Ts(w)
  {
    var merged := Merge(s);
    MergeSpec(s);
    var j :| 0 <= j < |merged| && ImportKey(merged[j]) == ImportKey(s[k]);
    w := merged[j];
    assert w in merged;
    var i :| 0 <= i < |s| && FirstNewest(s, i) && s[i] == w;
  }

  /** A prefix keeps order and distinct keys, and takes its entries from
      the list. */
  lemma TakeKeeps(s: seq<Value>, n: int)
    ensures Descending(s) ==> Descending(Take(s, n))
    ensures DistinctKeys(s) ==> DistinctKeys(Take(s, n))
    ensures forall v :: v in Take(s, n) ==> v in s
  {
    forall v | v in Take(s, n) ensures v in s {
      var k :| 0 <= k < |Take(s, n)| && Take(s, n)[k] == v;
      assert s[k] == v;
    }
  }

  /** A prefix of a list sorted newest first leaves out nothing newer
      than what it keeps. */
  lemma TakeTop(s: seq<Value>, n: int)
    requires Descending(s)
    ensures forall x, y :: x in s && x !in Take(s, n) && y in Take(s, n) ==> Ts(y) >= Ts(x)
  {
    var r := Take(s, n);
    forall x, y | x in s && x !in r && y in r ensures Ts(y) >= Ts(x) {
      var k :| 0 <= k < |s| && s[k] == x;
      var i :| 0 <= i < |r| && r[i] == y;
      assert r == s[..|r|];
      assert r[i] == s[i];
    }
  }

  class HistoryManager {
    /** The array stored under `qrcode_history`. */
    var store: seq<Value>
    var maxItems: int

    predicate Valid()
      reads this
    {
      maxItems >= 1
    }

    /** A manager over whatever is already stored, with the cap of 10. */
    constructor(stored: seq<Value>)
      ensures Valid()
      ensures store == stored && maxItems == 10
    {
      store := stored;
      maxItems := 10;
    }

    /** `getItems()`: the valid stored items, newest first, at most
        `maxItems` of them. */
    function Items(): seq<Value>
      reads this
    {
      Take(SortDesc(Filter(store, ValidItem)), maxItems)
    }

    /** What `getItems` returns is valid, newest first, within the cap and
        taken from the store; an item it leaves out is no newer than any it
        returns. */
    lemma ItemsShape()
      ensures var r := Items();
        Descending(r) && |r| <= (if maxItems < 0 then 0 else maxItems) &&
        (forall v :: v in r ==> ValidItem(v) && v in store) &&
        (forall x, y :: x in store && ValidItem(x) && x !in r && y in r ==> Ts(y) >= Ts(x))
    {
      var f := Filter(store, ValidItem);
      var sorted := SortDesc(f);
      var r := Items();
      forall v | v in r ensures ValidItem(v) && v in store {
        assert v in multiset(sorted);
      }
      TakeTop(sorted, maxItems);
      forall x | x in store && ValidItem(x) ensures x in sorted {
        assert x in multiset(f);
      }
    }

    /** `addItem(item)`. */
    method AddItem(item: Value) returns (ok: bool)
      requires Valid()
      modifies this
      ensures Valid() && maxItems == old(maxItems)
      ensures ok == ValidItem(item)
      ensures !ok ==> store == old(store)
      ensures ok ==> store == Added(old(Items()), item, maxItems)
    {
      if !ValidItem(item) {
        return false;
      }
      var items := Items();
      var existingIndex := FindSame(items, item);
      if existingIndex.Some? {
        items := items[..existingIndex.value] + items[existingIndex.value + 1..];
      }
      items := [item] + items;
      items := Take(items, maxItems);
      store := items;
      return true;
    }

    /** `removeItem(timestamp)`: drops every returned item with that
        timestamp; without one it reports false and writes nothing. */
    method RemoveItem(timestamp: int) returns (ok: bool)
      modifies this
      ensures maxItems == old(maxItems)
      ensures ok <==> exists k :: 0 <= k < |old(Items())| && Ts(old(Items())[k]) == timestamp
      ensures !ok ==> store == old(store)
      ensures ok ==> store == Filter(old(Items()), (v: Value) => Ts(v) != timestamp)
    {
      var items := Items();
      var initialLength := |items|;
      var kept := Filter(items, (v: Value) => Ts(v) != timestamp);
      if |kept| == initialLength {
        return false;
      }
      store := kept;
      return true;
    }

    /** `clearHistory()` */
    method ClearHistory() returns (ok: bool)
      modifies this
      ensures ok && store == [] && maxItems == old(maxItems)
    {
      store := [];
      return true;
    }

    /** `clearOldItems()`: keeps the newest half of the cap. */
    method ClearOldItems() returns (ok: bool)
      modifies this
      ensures ok && maxItems == old(maxItems)
      ensures store == Take(old(Items()), maxItems / 2)
    {
      var items := Items();
      items := Take(items, maxItems / 2);
      store := items;
      return true;
    }

    /** The merge of `importHistory(file)`, given the parsed file: `None`
        when it is not an array. Returns the number of valid items read. */
    method ImportHistory(imported: Option<seq<Value>>) returns (r: Result<nat, string>)
      modifies this
      ensures maxItems == old(maxItems)
      ensures imported.None? ==> r == Err("Invalid file format. Expected an array.") && store == old(store)
      ensures imported.Some? && Filter(imported.value, ValidItem) == [] ==>
        r == Err("No valid items found in the file.") && store == old(store)
      ensures imported.Some? && Filter(imported.value, ValidItem) != [] ==>
        r == Ok(|Filter(imported.value, ValidItem)|) &&
        store == MergedImport(Filter(imported.value, ValidItem), old(Items()), maxItems)
    {
      if imported.None? {
        return Err("Invalid file format. Expected an array.");
      }
      var validItems := Filter(imported.value, ValidItem);
      if |validItems| == 0 {
        return Err("No valid items found in the file.");
      }
      var currentItems := Items();
      store := MergedImport(validItems, currentItems, maxItems);
      return Ok(|validItems|);
    }

    /** `searchHistory(query)`: every item when the query is empty,
        otherwise those whose type or data contains it, ignoring case. */
    function Search(query: string): (r: seq<Value>)
      reads this
      ensures query == "" ==> r == Items()
      ensures query != "" ==> forall v :: v in r <==> v in Items() && MatchesSearch(v, LowerAscii(query))
    {
      if query == "" then Items()
      else Filter(Items(), (v: Value) => MatchesSearch(v, LowerAscii(query)))
    }

    /** `setMaxItems(max)`: refuses anything but a number of at least 1.
        The trim that follows can never fire, because `getItems` already
        returns at most `max` items. */
    method SetMaxItems(max: Field) returns (r: Result<(), string>)
      requires Valid()
      modifies this
      ensures Valid()
      ensures !(max.Num? && max.num >= 1) ==> r.Err? && maxItems == old(maxItems) && store == old(store)
      ensures max.Num? && max.num >= 1 ==> r.Ok? && maxItems == max.num && store == old(store)
    {
      if !(max.Num? && max.num >= 1) {
        return Err("Max items must be a positive number");
      }
      maxItems := max.num;
      var items := Items();
      ItemsShape();
      // the source trims when items.length > max, which this rules out
      assert |items| <= maxItems;
      return Ok(());
    }
  }
}
