/**
 * The text behind the idempotency fingerprint: src/common/idempotency/request-fingerprint.ts.
 * Strings are UTF-16 code units, as JavaScript keeps them and sorts them, and a
 * number is the text JavaScript prints for it.
 */
module CanonicalJson {
  import opened Wrappers

  type CodeUnit = u: int | 0 <= u < 0x1_0000

  type Units = seq<CodeUnit>

  datatype Json =
    | Null
    | Overflow // a literal like 1e400, which JSON.parse turns into Infinity
    | Bool(b: bool)
    | Number(figures: Units)
    | String(units: Units)
    | Array(items: seq<Json>)
    | Object(entries: seq<Entry>)

  datatype Entry = Entry(key: Units, value: Json)

  const QUOTE: CodeUnit := 0x22
  const BACKSLASH: CodeUnit := 0x5C
  const COMMA: CodeUnit := 0x2C
  const COLON: CodeUnit := 0x3A
  const NEWLINE: CodeUnit := 0x0A

  predicate IsFigure(u: CodeUnit) {
    0x30 <= u <= 0x39 || u == 0x2D || u == 0x2E || u == 0x2B || u == 0x65
  }

  /** What JSON.parse returns: numbers as printed, and no key twice in one object. */
  predicate IsBody(v: Json) {
    match v
    case Number(figures) => figures != [] && forall k :: 0 <= k < |figures| ==> IsFigure(figures[k])
    case Array(items) => forall k :: 0 <= k < |items| ==> IsBody(items[k])
    case Object(entries) =>
      && (forall j, k :: 0 <= j < k < |entries| ==> entries[j].key != entries[k].key)
      && forall k :: 0 <= k < |entries| ==> IsBody(entries[k].value)
    case _ => true
  }

  // ----- strings: the QuoteJSONString operation of ECMA-262 -----

  predicate IsLead(u: CodeUnit) {
    0xD800 <= u <= 0xDBFF
  }

  predicate IsTrail(u: CodeUnit) {
    0xDC00 <= u <= 0xDFFF
  }

  function HexDigit(n: int): CodeUnit
    requires 0 <= n < 16
  {
    if n < 10 then 0x30 + n else 0x61 + n - 10
  }

  function Hex(u: CodeUnit): Units {
    [HexDigit(u / 4096), HexDigit(u / 256 % 16), HexDigit(u / 16 % 16), HexDigit(u % 16)]
  }

  /** The letter after the backslash of a short escape. */
  function ShortEscape(u: CodeUnit): Option<CodeUnit> {
    if u == 0x08 then Some(0x62)
    else if u == 0x09 then Some(0x74)
    else if u == 0x0A then Some(0x6E)
    else if u == 0x0C then Some(0x66)
    else if u == 0x0D then Some(0x72)
    else if u == QUOTE || u == BACKSLASH then Some(u)
    else None
  }

  /** One unit that is not half of a surrogate pair. */
  function EscapeUnit(u: CodeUnit): Units {
    if ShortEscape(u).Some? then [BACKSLASH, ShortEscape(u).value]
    else if u < 0x20 || IsLead(u) || IsTrail(u) then [BACKSLASH, 0x75] + Hex(u)
    else [u]
  }

  predicate OpensPair(s: Units) {
    |s| >= 2 && IsLead(s[0]) && IsTrail(s[1])
  }

  function Escape(s: Units): Units {
    if s == [] then []
    else if OpensPair(s) then s[..2] + Escape(s[2..])
    else EscapeUnit(s[0]) + Escape(s[1..])
  }

  function Quoted(s: Units): Units {
    [QUOTE] + Escape(s) + [QUOTE]
  }

  // ----- sorted keys -----

  /** Array.prototype.sort's order on strings, by code units. */
  predicate Before(a: Units, b: Units) {
    b != [] && (a == [] || a[0] < b[0] || (a[0] == b[0] && Before(a[1..], b[1..])))
  }

  predicate IsSorted(keys: seq<Units>) {
    forall j, k :: 0 <= j < k < |keys| ==> Before(keys[j], keys[k])
  }

  function InsertKey(key: Units, keys: seq<Units>): seq<Units> {
    if keys == [] || !Before(keys[0], key) then [key] + keys
    else [keys[0]] + InsertKey(key, keys[1..])
  }

  function SortedKeys(keys: seq<Units>): seq<Units> {
    if keys == [] then [] else InsertKey(keys[0], SortedKeys(keys[1..]))
  }

  function KeysOf(entries: seq<Entry>): seq<Units> {
    seq(|entries|, k requires 0 <= k < |entries| => entries[k].key)
  }

  predicate HasKey(entries: seq<Entry>, key: Units) {
    exists k :: 0 <= k < |entries| && entries[k].key == key
  }

  function IndexOf(entries: seq<Entry>, key: Units): (i: nat)
    requires HasKey(entries, key)
    ensures i < |entries| && entries[i].key == key
  {
    if entries[0].key == key then 0 else
      assert HasKey(entries[1..], key) by {
        var k :| 0 <= k < |entries| && entries[k].key == key;
        assert entries[1..][k - 1].key == key;
      }
      1 + IndexOf(entries[1..], key)
  }

  // ----- canonicalJson -----

  function Print(v: Json): Units
    decreases v
  {
    match v
    case Null => [0x6E, 0x75, 0x6C, 0x6C]
    case Overflow => [0x6E, 0x75, 0x6C, 0x6C]
    case Bool(b) => if b then [0x74, 0x72, 0x75, 0x65] else [0x66, 0x61, 0x6C, 0x73, 0x65]
    case Number(figures) => figures
    case String(units) => Quoted(units)
    case Array(_) => [0x5B] + PrintItems(v, 0) + [0x5D]
    case Object(entries) => [0x7B] + PrintEntries(v, SortedKeys(KeysOf(entries))) + [0x7D]
  }

  /** The items from `k` on, joined with commas. */
  function PrintItems(v: Json, k: nat): Units
    requires v.Array? && k <= |v.items|
    decreases v, |v.items| - k
  {
    if k == |v.items| then []
    else if k == |v.items| - 1 then Print(v.items[k])
    else Print(v.items[k]) + [COMMA] + PrintItems(v, k + 1)
  }

  function PrintEntry(v: Json, key: Units): Units
    requires v.Object?
    decreases v, 0
  {
    Quoted(key) + [COLON] + (if HasKey(v.entries, key) then Print(v.entries[IndexOf(v.entries, key)].value) else [])
  }

  /** The entries of these keys, joined with commas. */
  function PrintEntries(v: Json, keys: seq<Units>): Units
    requires v.Object?
    decreases v, 1 + |keys|
  {
    if keys == [] then []
    else if |keys| == 1 then PrintEntry(v, keys[0])
    else PrintEntry(v, keys[0]) + [COMMA] + PrintEntries(v, keys[1..])
  }

  /** The text `fingerprintRequest` hashes; None is a request without a body. */
  function FingerprintText(endpoint: Units, body: Option<Json>): Units {
    endpoint + [NEWLINE] + Print(BodyOrEmpty(body))
  }

  /** `body ?? {}`. */
  function BodyOrEmpty(body: Option<Json>): Json {
    if body == None || body == Some(Null) then Object([]) else body.value
  }

  // ----- equality up to key order -----

  /** Equal after permuting keys at every level, with an overflowing number no different from null. */
  predicate Same(a: Json, b: Json)
    decreases a
  {
    match a
    case Null => b.Null? || b.Overflow?
    case Overflow => b.Null? || b.Overflow?
    case Bool(_) => a == b
    case Number(_) => a == b
    case String(_) => a == b
    case Array(items) => b.Array? && |items| == |b.items| && forall k :: 0 <= k < |items| ==> Same(items[k], b.items[k])
    case Object(entries) =>
      && b.Object? && |entries| == |b.entries|
      && (forall k :: 0 <= k < |entries| ==>
            && HasKey(b.entries, entries[k].key)
            && Same(entries[k].value, b.entries[IndexOf(b.entries, entries[k].key)].value))
  }

  // ----- sorting is canonical -----

  lemma {:induction false} BeforeIsAnOrder(a: Units, b: Units, c: Units)
    ensures !Before(a, a)
    ensures a != b ==> Before(a, b) || Before(b, a)
    ensures Before(a, b) && Before(b, c) ==> Before(a, c)
    ensures Before(a, b) ==> !Before(b, a)
  {
    if a != [] && b != [] {
      assert a == [a[0]] + a[1..] && b == [b[0]] + b[1..];
      BeforeIsAnOrder(a[1..], b[1..], if c == [] then [] else c[1..]);
    } else if a != [] {
      BeforeIsAnOrder(a[1..], [], []);
    }
  }

  lemma {:induction false} InsertKeeps(key: Units, keys: seq<Units>)
    requires IsSorted(keys) && key !in keys
    ensures IsSorted(InsertKey(key, keys)) && multiset(InsertKey(key, keys)) == multiset(keys) + multiset{key}
  {
    if keys == [] {
    } else {
      var first, rest := keys[0], keys[1..];
      assert keys == [first] + rest;
      BeforeIsAnOrder(first, key, key);
      if Before(first, key) {
        InsertKeeps(key, rest);
        var inserted := InsertKey(key, rest);
        forall k | 0 <= k < |inserted| ensures Before(first, inserted[k]) {
          assert inserted[k] in multiset(inserted);
          assert inserted[k] == key || inserted[k] in rest;
        }
      } else {
        forall k | 0 <= k < |keys| ensures Before(key, keys[k]) {
          BeforeIsAnOrder(key, first, keys[k]);
        }
      }
    }
  }

  /** The sort: ascending, and the same keys. */
  lemma {:induction false} SortedKeysSorts(keys: seq<Units>)
    requires forall j, k :: 0 <= j < k < |keys| ==> keys[j] != keys[k]
    ensures IsSorted(SortedKeys(keys)) && multiset(SortedKeys(keys)) == multiset(keys)
    ensures forall key :: key in SortedKeys(keys) <==> key in keys
  {
    if keys != [] {
      assert keys == [keys[0]] + keys[1..];
      SortedKeysSorts(keys[1..]);
      InsertKeeps(keys[0], SortedKeys(keys[1..]));
    }
    forall key ensures key in SortedKeys(keys) <==> key in keys {
      assert key in SortedKeys(keys) <==> key in multiset(SortedKeys(keys));
      assert key in keys <==> key in multiset(keys);
    }
  }

  /** Two ascending lists of the same keys are the same list, so the sort used does not matter. */
  lemma {:induction false} SortedIsUnique(a: seq<Units>, b: seq<Units>)
    requires IsSorted(a) && IsSorted(b) && forall key :: key in a <==> key in b
    ensures a == b
  {
    assert a != [] ==> a[0] in a;
    assert b != [] ==> b[0] in b;
    if a != [] && b != [] {
      assert a[0] in b && b[0] in a;
      BeforeIsAnOrder(a[0], b[0], a[0]);
      assert a[0] == b[0];
      forall key ensures key in a[1..] <==> key in b[1..] {
        BeforeIsAnOrder(key, key, key);
        assert key in a[1..] ==> key in a && key != a[0];
        assert key in b[1..] ==> key in b && key != b[0];
        assert a == [a[0]] + a[1..] && b == [b[0]] + b[1..];
      }
      SortedIsUnique(a[1..], b[1..]);
      assert a == [a[0]] + a[1..] && b == [b[0]] + b[1..];
    }
  }

  // ----- printing is injective -----

  lemma {:induction false} HexSplits(u: CodeUnit)
    ensures u / 16 / 16 == u / 256 && u / 256 / 16 == u / 4096
    ensures u == 4096 * (u / 4096) + 256 * (u / 256 % 16) + 16 * (u / 16 % 16) + u % 16
  {
    var h := u / 16;
    var g := h / 16;
    assert u == 16 * h + u % 16 && h == 16 * g + h % 16 && g == 16 * (g / 16) + g % 16;
  }

  lemma {:induction false} HexDecodes(a: CodeUnit, b: CodeUnit)
    requires Hex(a) == Hex(b)
    ensures a == b
  {
    HexSplits(a);
    HexSplits(b);
    assert Hex(a)[0] == Hex(b)[0] && Hex(a)[1] == Hex(b)[1] && Hex(a)[2] == Hex(b)[2] && Hex(a)[3] == Hex(b)[3];
  }

  /** What one step of the escaping takes, and what it prints. */
  function Bite(s: Units): Units
    requires s != []
  {
    if OpensPair(s) then s[..2] else s[..1]
  }

  function Chunk(s: Units): Units
    requires s != []
  {
    if OpensPair(s) then s[..2] else EscapeUnit(s[0])
  }

  lemma {:induction false} EscapeByChunks(s: Units, x: Units)
    requires s != []
    ensures s == Bite(s) + s[|Bite(s)|..]
    ensures Escape(s) + x == Chunk(s) + (Escape(s[|Bite(s)|..]) + x)
    ensures Chunk(s) != [] && Chunk(s)[0] != QUOTE
  {
  }

  lemma {:induction false} UnitDecodes(a: CodeUnit, b: CodeUnit, x: Units, y: Units)
    requires EscapeUnit(a) + x == EscapeUnit(b) + y
    ensures a == b && x == y
  {
    var left, right := EscapeUnit(a) + x, EscapeUnit(b) + y;
    assert left[0] == right[0];
    if ShortEscape(a).None? && left[0] == BACKSLASH {
      assert left[1] == right[1] == 0x75;
      assert left[2..6] == Hex(a) && right[2..6] == Hex(b);
      HexDecodes(a, b);
    } else if left[0] == BACKSLASH {
      assert left[1] == right[1];
    }
    assert a == b;
    assert x == left[|EscapeUnit(a)|..] && y == right[|EscapeUnit(b)|..];
  }

  /** The printed pieces of a string are a prefix code. */
  lemma {:induction false} ChunkDecodes(s: Units, t: Units, x: Units, y: Units)
    requires s != [] && t != [] && Chunk(s) + x == Chunk(t) + y
    ensures Bite(s) == Bite(t) && x == y
  {
    var left, right := Chunk(s) + x, Chunk(t) + y;
    assert left[0] == right[0];
    if OpensPair(s) && OpensPair(t) {
      assert left[..2] == s[..2] && right[..2] == t[..2] && left[2..] == x && right[2..] == y;
    } else if !OpensPair(s) && !OpensPair(t) {
      UnitDecodes(s[0], t[0], x, y);
      assert s[..1] == [s[0]] && t[..1] == [t[0]];
    }
  }

  lemma {:induction false} EscapeDecodes(s: Units, t: Units, x: Units, y: Units)
    requires Escape(s) + ([QUOTE] + x) == Escape(t) + ([QUOTE] + y)
    ensures s == t && x == y
    decreases |s|
  {
    var left, right := Escape(s) + ([QUOTE] + x), Escape(t) + ([QUOTE] + y);
    assert left[0] == right[0];
    if s != [] { EscapeByChunks(s, [QUOTE] + x); }
    if t != [] { EscapeByChunks(t, [QUOTE] + y); }
    if s == [] || t == [] {
      assert s == [] ==> left[0] == QUOTE;
      assert t == [] ==> right[0] == QUOTE;
      assert x == left[1..] && y == right[1..];
    } else {
      var s', t' := s[|Bite(s)|..], t[|Bite(t)|..];
      ChunkDecodes(s, t, Escape(s') + ([QUOTE] + x), Escape(t') + ([QUOTE] + y));
      EscapeDecodes(s', t', x, y);
    }
  }

  lemma {:induction false} QuotedDecodes(s: Units, t: Units, x: Units, y: Units)
    requires Quoted(s) + x == Quoted(t) + y
    ensures s == t && x == y
  {
    QuotedInside(s, x);
    QuotedInside(t, y);
    EscapeDecodes(s, t, x, y);
  }

  lemma {:induction false} QuotedInside(s: Units, x: Units)
    ensures (Quoted(s) + x)[1..] == Escape(s) + ([QUOTE] + x)
  {
  }

  /** What can follow a value: nothing, a comma or a closing bracket. */
  predicate Follows(x: Units) {
    x == [] || x[0] == COMMA || x[0] == 0x5D || x[0] == 0x7D
  }

  lemma {:induction false} FiguresDecode(f: Units, g: Units, x: Units, y: Units)
    requires Follows(x) && Follows(y) && f + x == g + y
    requires (forall k :: 0 <= k < |f| ==> IsFigure(f[k])) && (forall k :: 0 <= k < |g| ==> IsFigure(g[k]))
    ensures f == g && x == y
  {
    assert f != [] ==> (f + x)[0] == f[0];
    assert g != [] ==> (g + y)[0] == g[0];
    assert f == [] ==> f + x == x;
    assert g == [] ==> g + y == y;
    if f != [] && g != [] {
      assert (f + x)[0] == (g + y)[0];
      assert (f + x)[1..] == f[1..] + x && (g + y)[1..] == g[1..] + y;
      FiguresDecode(f[1..], g[1..], x, y);
    }
  }

  /** The first unit of a printed value tells its kind. */
  lemma {:induction false} PrintOpens(v: Json)
    requires IsBody(v)
    ensures Print(v) != []
    ensures match v
            case Null => Print(v)[0] == 0x6E
            case Overflow => Print(v)[0] == 0x6E
            case Bool(b) => Print(v)[0] == if b then 0x74 else 0x66
            case Number(_) => IsFigure(Print(v)[0])
            case String(_) => Print(v)[0] == QUOTE
            case Array(_) => Print(v)[0] == 0x5B
            case Object(_) => Print(v)[0] == 0x7B
  {
  }

  lemma {:induction false} ObjectDecodes(a: Json, b: Json, x: Units, y: Units)
    requires a.Object? && b.Object? && IsBody(a) && IsBody(b) && Print(a) + x == Print(b) + y
    ensures Same(a, b) && x == y
    decreases a, 2 + |a.entries|
  {
    var ks, ls := SortedKeys(KeysOf(a.entries)), SortedKeys(KeysOf(b.entries));
    ObjectInside(a, x);
    ObjectInside(b, y);
    KeysAreKeys(a);
    KeysAreKeys(b);
    EntriesDecode(a, b, ks, ls, x, y);
    SameFromKeys(a, b);
  }

  /** A value with nothing inside it. */
  predicate IsLeaf(v: Json) {
    !v.Array? && !v.Object?
  }

  lemma {:induction false} LeafDecodes(a: Json, b: Json, x: Units, y: Units)
    requires IsBody(a) && IsBody(b) && Follows(x) && Follows(y) && IsLeaf(a) && IsLeaf(b)
    requires Print(a) + x == Print(b) + y && Print(a)[0] == Print(b)[0]
    ensures Same(a, b) && x == y
  {
    var left, right := Print(a) + x, Print(b) + y;
    PrintOpens(a);
    PrintOpens(b);
    if a.Number? {
      FiguresDecode(a.figures, b.figures, x, y);
    } else if a.String? {
      QuotedDecodes(a.units, b.units, x, y);
    } else {
      assert x == left[|Print(a)|..] && y == right[|Print(b)|..];
    }
  }

  lemma {:induction false} SameKind(a: Json, b: Json, x: Units, y: Units)
    requires IsBody(a) && IsBody(b) && Print(a) + x == Print(b) + y
    ensures Print(a)[0] == Print(b)[0]
    ensures (a.Array? <==> b.Array?) && (a.Object? <==> b.Object?)
  {
    PrintOpens(a);
    PrintOpens(b);
    assert (Print(a) + x)[0] == Print(a)[0] && (Print(b) + y)[0] == Print(b)[0];
  }

  lemma {:induction false} ArrayDecodes(a: Json, b: Json, x: Units, y: Units)
    requires a.Array? && b.Array? && IsBody(a) && IsBody(b) && Print(a) + x == Print(b) + y
    ensures Same(a, b) && x == y
    decreases a, 1 + |a.items|
  {
    ArrayInside(a, x);
    ArrayInside(b, y);
    ItemsDecode(a, b, 0, x, y);
  }

  lemma {:induction false} ArrayInside(v: Json, x: Units)
    requires v.Array?
    ensures (Print(v) + x)[1..] == PrintItems(v, 0) + ([0x5D] + x)
  {
  }

  lemma {:induction false} ObjectInside(v: Json, x: Units)
    requires v.Object?
    ensures (Print(v) + x)[1..] == PrintEntries(v, SortedKeys(KeysOf(v.entries))) + ([0x7D] + x)
  {
  }

  /** A printed value is read back in only one way, whatever may follow it. */
  lemma {:induction false} PrintDecodes(a: Json, b: Json, x: Units, y: Units)
    requires IsBody(a) && IsBody(b) && Follows(x) && Follows(y)
    requires Print(a) + x == Print(b) + y
    ensures Same(a, b) && x == y
    decreases a
  {
    SameKind(a, b, x, y);
    if a.Array? {
      ArrayDecodes(a, b, x, y);
    } else if a.Object? {
      ObjectDecodes(a, b, x, y);
    } else {
      LeafDecodes(a, b, x, y);
    }
  }

  /** What is left to read after item `k`. */
  function AfterItem(v: Json, k: nat, x: Units): (rest: Units)
    requires v.Array? && k < |v.items|
    ensures rest != [] && Follows(rest) && (rest[0] == COMMA <==> k < |v.items| - 1)
    ensures rest[1..] == if k == |v.items| - 1 then x else PrintItems(v, k + 1) + ([0x5D] + x)
    ensures PrintItems(v, k) + ([0x5D] + x) == Print(v.items[k]) + rest
  {
    if k == |v.items| - 1 then [0x5D] + x else [COMMA] + (PrintItems(v, k + 1) + ([0x5D] + x))
  }

  /** Both lists after their item `k`; if what is left is the same, so is all that was to show. */
  lemma {:induction false} AfterItems(a: Json, b: Json, k: nat, x: Units, y: Units) returns (restA: Units, restB: Units)
    requires a.Array? && b.Array? && k < |a.items| && k < |b.items|
    requires PrintItems(a, k) + ([0x5D] + x) == PrintItems(b, k) + ([0x5D] + y)
    ensures Follows(restA) && Follows(restB) && Print(a.items[k]) + restA == Print(b.items[k]) + restB
    ensures restA == restB ==>
              && (k < |a.items| - 1 <==> k < |b.items| - 1)
              && (if k < |a.items| - 1 then PrintItems(a, k + 1) + ([0x5D] + x) == PrintItems(b, k + 1) + ([0x5D] + y)
                  else x == y)
  {
    restA, restB := AfterItem(a, k, x), AfterItem(b, k, y);
  }

  lemma {:induction false} ItemsDecode(a: Json, b: Json, k: nat, x: Units, y: Units)
    requires a.Array? && b.Array? && IsBody(a) && IsBody(b) && k <= |a.items| && k <= |b.items|
    requires k > 0 ==> k < |a.items| && k < |b.items|
    requires PrintItems(a, k) + ([0x5D] + x) == PrintItems(b, k) + ([0x5D] + y)
    ensures |a.items| == |b.items| && x == y
    ensures forall j :: k <= j < |a.items| ==> Same(a.items[j], b.items[j])
    decreases a, |a.items| - k
  {
    if k == |a.items| || k == |b.items| {
      ItemsEnd(a, b, k, x, y);
    } else {
      var restA, restB := AfterItems(a, b, k, x, y);
      PrintDecodes(a.items[k], b.items[k], restA, restB);
      if k < |a.items| - 1 {
        ItemsDecode(a, b, k + 1, x, y);
      }
    }
  }

  lemma {:induction false} ItemsOpen(v: Json, k: nat, x: Units)
    requires v.Array? && IsBody(v) && k <= |v.items|
    ensures PrintItems(v, k) + ([0x5D] + x) != []
    ensures (PrintItems(v, k) + ([0x5D] + x))[0] == 0x5D <==> k == |v.items|
  {
    if k < |v.items| {
      PrintOpens(v.items[k]);
      assert PrintItems(v, k) + ([0x5D] + x) == Print(v.items[k]) + AfterItem(v, k, x);
    }
  }

  /** One list of items cannot end where another has an item. */
  lemma {:induction false} ItemsEnd(a: Json, b: Json, k: nat, x: Units, y: Units)
    requires a.Array? && b.Array? && IsBody(a) && IsBody(b) && k <= |a.items| && k <= |b.items|
    requires k == |a.items| || k == |b.items|
    requires PrintItems(a, k) + ([0x5D] + x) == PrintItems(b, k) + ([0x5D] + y)
    ensures |a.items| == |b.items| && x == y
  {
    var left, right := PrintItems(a, k) + ([0x5D] + x), PrintItems(b, k) + ([0x5D] + y);
    assert left[0] == right[0];
    ItemsOpen(a, k, x);
    ItemsOpen(b, k, y);
    assert left == [0x5D] + x && right == [0x5D] + y;
    assert left[1..] == x && right[1..] == y;
  }

  /** Every key in the list is a key of the object. */
  predicate AreKeys(v: Json, keys: seq<Units>)
    requires v.Object?
  {
    forall k :: 0 <= k < |keys| ==> HasKey(v.entries, keys[k])
  }

  lemma {:induction false} KeysAreKeys(v: Json)
    requires v.Object? && IsBody(v)
    ensures AreKeys(v, SortedKeys(KeysOf(v.entries)))
    ensures forall key :: key in SortedKeys(KeysOf(v.entries)) <==> HasKey(v.entries, key)
    ensures IsSorted(SortedKeys(KeysOf(v.entries))) && |SortedKeys(KeysOf(v.entries))| == |v.entries|
  {
    var keys := KeysOf(v.entries);
    SortedKeysSorts(keys);
    assert |multiset(SortedKeys(keys))| == |multiset(keys)|;
    forall key ensures key in SortedKeys(keys) <==> HasKey(v.entries, key) {
      assert key in SortedKeys(keys) <==> key in multiset(SortedKeys(keys));
      assert key in keys <==> key in multiset(keys);
      if HasKey(v.entries, key) {
        assert keys[IndexOf(v.entries, key)] == key;
      }
    }
  }

  function ValueAt(v: Json, key: Units): (value: Json)
    requires v.Object? && HasKey(v.entries, key)
    ensures value < v
  {
    v.entries[IndexOf(v.entries, key)].value
  }

  /** What is left to read after the entry of the first key. */
  function AfterEntry(v: Json, keys: seq<Units>, x: Units): (rest: Units)
    requires v.Object? && keys != []
    ensures rest != [] && Follows(rest) && (rest[0] == COMMA <==> |keys| > 1)
    ensures rest[1..] == if |keys| == 1 then x else PrintEntries(v, keys[1..]) + ([0x7D] + x)
    ensures PrintEntries(v, keys) + ([0x7D] + x) == PrintEntry(v, keys[0]) + rest
  {
    if |keys| == 1 then [0x7D] + x else [COMMA] + (PrintEntries(v, keys[1..]) + ([0x7D] + x))
  }

  lemma {:induction false} EntryOpens(v: Json, key: Units, rest: Units)
    requires v.Object? && HasKey(v.entries, key)
    ensures PrintEntry(v, key) + rest == Quoted(key) + ([COLON] + (Print(ValueAt(v, key)) + rest))
    ensures PrintEntry(v, key) != [] && PrintEntry(v, key)[0] == QUOTE
  {
  }

  lemma {:induction false} EntryDecodes(a: Json, b: Json, k: Units, l: Units, x: Units, y: Units)
    requires a.Object? && b.Object? && IsBody(a) && IsBody(b) && HasKey(a.entries, k) && HasKey(b.entries, l)
    requires Follows(x) && Follows(y) && PrintEntry(a, k) + x == PrintEntry(b, l) + y
    ensures k == l && x == y && Same(ValueAt(a, k), ValueAt(b, l))
    decreases a, 0
  {
    var left, right := Print(ValueAt(a, k)) + x, Print(ValueAt(b, l)) + y;
    EntryOpens(a, k, x);
    EntryOpens(b, l, y);
    QuotedDecodes(k, l, [COLON] + left, [COLON] + right);
    assert ([COLON] + left)[1..] == left && ([COLON] + right)[1..] == right;
    PrintDecodes(ValueAt(a, k), ValueAt(b, l), x, y);
  }

  lemma {:induction false} EntriesDecode(a: Json, b: Json, ks: seq<Units>, ls: seq<Units>, x: Units, y: Units)
    requires a.Object? && b.Object? && IsBody(a) && IsBody(b) && AreKeys(a, ks) && AreKeys(b, ls)
    requires PrintEntries(a, ks) + ([0x7D] + x) == PrintEntries(b, ls) + ([0x7D] + y)
    ensures ks == ls && x == y
    ensures forall k :: 0 <= k < |ks| ==> Same(ValueAt(a, ks[k]), ValueAt(b, ls[k]))
    decreases a, 1 + |ks|
  {
    if ks == [] || ls == [] {
      EntriesEnd(a, b, ks, ls, x, y);
    } else {
      var restA, restB := AfterEntry(a, ks, x), AfterEntry(b, ls, y);
      EntryDecodes(a, b, ks[0], ls[0], restA, restB);
      if |ks| > 1 {
        EntriesDecode(a, b, ks[1..], ls[1..], x, y);
      }
      assert ks == [ks[0]] + ks[1..] && ls == [ls[0]] + ls[1..];
    }
  }

  /** One list of entries cannot end where another has an entry. */
  lemma {:induction false} EntriesEnd(a: Json, b: Json, ks: seq<Units>, ls: seq<Units>, x: Units, y: Units)
    requires a.Object? && b.Object? && AreKeys(a, ks) && AreKeys(b, ls) && (ks == [] || ls == [])
    requires PrintEntries(a, ks) + ([0x7D] + x) == PrintEntries(b, ls) + ([0x7D] + y)
    ensures ks == ls == [] && x == y
  {
    var left, right := PrintEntries(a, ks) + ([0x7D] + x), PrintEntries(b, ls) + ([0x7D] + y);
    assert left[0] == right[0];
    if ks != [] {
      EntryOpens(a, ks[0], AfterEntry(a, ks, x));
    }
    if ls != [] {
      EntryOpens(b, ls[0], AfterEntry(b, ls, y));
    }
    assert left == [0x7D] + x && right == [0x7D] + y;
    assert left[1..] == x && right[1..] == y;
  }

  lemma {:induction false} SameFromKeys(a: Json, b: Json)
    requires a.Object? && b.Object? && IsBody(a) && IsBody(b)
    requires SortedKeys(KeysOf(a.entries)) == SortedKeys(KeysOf(b.entries))
    requires forall key :: HasKey(a.entries, key) && HasKey(b.entries, key) ==> Same(ValueAt(a, key), ValueAt(b, key))
    ensures Same(a, b)
  {
    KeysAreKeys(a);
    KeysAreKeys(b);
    forall k | 0 <= k < |a.entries|
      ensures HasKey(b.entries, a.entries[k].key) && Same(a.entries[k].value, ValueAt(b, a.entries[k].key))
    {
      assert HasKey(a.entries, a.entries[k].key);
      assert IndexOf(a.entries, a.entries[k].key) == k;
    }
  }

  // ----- and key order is all it forgets -----

  lemma {:induction false} DistinctCount(s: seq<Units>)
    requires forall j, k :: 0 <= j < k < |s| ==> s[j] != s[k]
    ensures |set key | key in s| == |s|
  {
    if s != [] {
      var rest := s[1..];
      DistinctCount(rest);
      assert (set key | key in s) == {s[0]} + (set key | key in rest);
      assert s[0] !in rest;
    }
  }

  /** Each of one object's keys is in the other. */
  lemma {:induction false} KeysWithin(a: Json, b: Json)
    requires a.Object? && Same(a, b)
    ensures forall key :: key in KeysOf(a.entries) ==> key in KeysOf(b.entries)
  {
    var ka, kb := KeysOf(a.entries), KeysOf(b.entries);
    forall k | 0 <= k < |ka| ensures ka[k] in kb {
      assert kb[IndexOf(b.entries, ka[k])] == ka[k];
    }
  }

  lemma {:induction false} AllWithin(ka: seq<Units>, kb: seq<Units>)
    requires forall j, k :: 0 <= j < k < |ka| ==> ka[j] != ka[k]
    requires forall j, k :: 0 <= j < k < |kb| ==> kb[j] != kb[k]
    requires |ka| == |kb| && forall key :: key in ka ==> key in kb
    ensures forall key :: key in ka <==> key in kb
  {
    var setA, setB := (set key | key in ka), (set key | key in kb);
    DistinctCount(ka);
    DistinctCount(kb);
    assert setA <= setB;
    assert |setB - setA| == |setB| - |setA|;
    assert setB - setA == {};
    forall key | key in kb ensures key in ka {
      assert key in setB;
      assert key in setA;
    }
  }

  /** As many keys, and each of one's keys in the other: the same keys. */
  lemma {:induction false} SameKeys(a: Json, b: Json)
    requires a.Object? && b.Object? && IsBody(a) && IsBody(b) && Same(a, b)
    ensures SortedKeys(KeysOf(a.entries)) == SortedKeys(KeysOf(b.entries))
  {
    var ka, kb := KeysOf(a.entries), KeysOf(b.entries);
    KeysWithin(a, b);
    AllWithin(ka, kb);
    SortedKeysSorts(ka);
    SortedKeysSorts(kb);
    SortedIsUnique(SortedKeys(ka), SortedKeys(kb));
  }

  lemma {:induction false} SamePrints(a: Json, b: Json)
    requires IsBody(a) && IsBody(b) && Same(a, b)
    ensures Print(a) == Print(b)
    decreases a
  {
    if a.Array? {
      SameItemsPrint(a, b, 0);
    } else if a.Object? {
      SameKeys(a, b);
      KeysAreKeys(a);
      KeysAreKeys(b);
      SameEntriesPrint(a, b, SortedKeys(KeysOf(a.entries)));
    }
  }

  lemma {:induction false} SameItemsPrint(a: Json, b: Json, k: nat)
    requires a.Array? && IsBody(a) && IsBody(b) && Same(a, b) && k <= |a.items|
    ensures PrintItems(a, k) == PrintItems(b, k)
    decreases a, |a.items| - k
  {
    if k < |a.items| {
      SamePrints(a.items[k], b.items[k]);
      SameItemsPrint(a, b, k + 1);
    }
  }

  lemma {:induction false} SameEntriesPrint(a: Json, b: Json, keys: seq<Units>)
    requires a.Object? && b.Object? && IsBody(a) && IsBody(b) && Same(a, b) && AreKeys(a, keys) && AreKeys(b, keys)
    ensures PrintEntries(a, keys) == PrintEntries(b, keys)
    decreases a, |keys|
  {
    if keys != [] {
      var i := IndexOf(a.entries, keys[0]);
      assert ValueAt(a, keys[0]) == a.entries[i].value;
      SamePrints(ValueAt(a, keys[0]), ValueAt(b, keys[0]));
      SameEntriesPrint(a, b, keys[1..]);
    }
  }

  /** Two bodies print the same text exactly when they are equal up to the order of their keys. */
  lemma {:induction false} PrintsTheSameIffSame(a: Json, b: Json)
    requires IsBody(a) && IsBody(b)
    ensures Print(a) == Print(b) <==> Same(a, b)
  {
    if Print(a) == Print(b) {
      assert Print(a) + [] == Print(b) + [];
      PrintDecodes(a, b, [], []);
    }
    if Same(a, b) {
      SamePrints(a, b);
    }
  }

  lemma {:induction false} FirstNewline(e: Units, f: Units, p: Units, q: Units)
    requires NEWLINE !in e && NEWLINE !in f && e + [NEWLINE] + p == f + [NEWLINE] + q
    ensures e == f && p == q
  {
    var left, right := e + [NEWLINE] + p, f + [NEWLINE] + q;
    assert left[|e|] == NEWLINE && right[|f|] == NEWLINE;
    assert forall k :: 0 <= k < |e| ==> left[k] == e[k] && left[k] != NEWLINE;
    assert forall k :: 0 <= k < |f| ==> right[k] == f[k] && right[k] != NEWLINE;
    assert left[..|e|] == e && right[..|f|] == f;
    assert left[|e| + 1..] == p && right[|f| + 1..] == q;
  }

  /**
   * The hashed text names its endpoint and body: for endpoints without a
   * newline, two requests have one text exactly when they go to the same
   * endpoint with bodies equal up to key order.
   */
  lemma {:induction false} FingerprintTextIsUnambiguous(e: Units, f: Units, a: Option<Json>, b: Option<Json>)
    requires NEWLINE !in e && NEWLINE !in f
    requires (a.Some? ==> IsBody(a.value)) && (b.Some? ==> IsBody(b.value))
    ensures FingerprintText(e, a) == FingerprintText(f, b) <==> e == f && Same(BodyOrEmpty(a), BodyOrEmpty(b))
  {
    var p, q := Print(BodyOrEmpty(a)), Print(BodyOrEmpty(b));
    PrintsTheSameIffSame(BodyOrEmpty(a), BodyOrEmpty(b));
    if FingerprintText(e, a) == FingerprintText(f, b) {
      FirstNewline(e, f, p, q);
    }
  }

  /** The bodies the text cannot tell apart although JSON can: no body, null and {}; and 1e400 and null. */
  lemma {:induction false} TextForgets(endpoint: Units, key: Units)
    ensures FingerprintText(endpoint, None) == FingerprintText(endpoint, Some(Null)) == FingerprintText(endpoint, Some(Object([])))
    ensures FingerprintText(endpoint, Some(Object([Entry(key, Overflow)]))) == FingerprintText(endpoint, Some(Object([Entry(key, Null)])))
  {
    var a, b := Object([Entry(key, Overflow)]), Object([Entry(key, Null)]);
    assert HasKey(b.entries, key) by {
      assert b.entries[0].key == key;
    }
    SamePrints(a, b);
  }

  // ----- the text is JSON -----

  /** The code units of a text of plain characters. */
  function UnitsOf(s: string): Units
    requires forall k :: 0 <= k < |s| ==> s[k] < '\U{0080}'
  {
    seq(|s|, k requires 0 <= k < |s| => s[k] as int)
  }

  /** The value of a digit 0 to 9 or a to f. */
  function DigitOf(u: CodeUnit): int {
    if 0x30 <= u <= 0x39 then u - 0x30 else if 0x61 <= u <= 0x66 then u - 0x57 else -1
  }

  /** Four such digits that spell a unit. */
  predicate Spells(digits: Units, u: CodeUnit) {
    && |digits| == 4 && (forall k :: 0 <= k < 4 ==> DigitOf(digits[k]) >= 0)
    && 4096 * DigitOf(digits[0]) + 256 * DigitOf(digits[1]) + 16 * DigitOf(digits[2]) + DigitOf(digits[3]) == u
  }

  /** The characters a number is printed with. */
  lemma {:induction false} FiguresAre(u: CodeUnit)
    ensures IsFigure(u) <==> u in UnitsOf("0123456789+-.e")
  {
    var units := UnitsOf("0123456789+-.e");
    assert |units| == 14;
    if 0x30 <= u <= 0x39 {
      assert "0123456789+-.e"[u - 0x30] as int == u as int;
      assert units[u - 0x30] == u;
    }
    assert units[10] == 0x2B && units[11] == 0x2D && units[12] == 0x2E && units[13] == 0x65;
  }

  lemma {:induction false} HexSpells(u: CodeUnit)
    ensures Spells(Hex(u), u)
  {
    HexSplits(u);
  }

  /** How a unit outside a surrogate pair stands in a JSON string: escaped if it is a quote, a backslash, a control or half a pair. */
  lemma {:induction false} UnitIsEscaped(u: CodeUnit)
    ensures u == 0x22 || u == 0x5C ==> EscapeUnit(u) == [0x5C, u]
    ensures u == 0x08 ==> EscapeUnit(u) == UnitsOf("\\b")
    ensures u == 0x09 ==> EscapeUnit(u) == UnitsOf("\\t")
    ensures u == 0x0A ==> EscapeUnit(u) == UnitsOf("\\n")
    ensures u == 0x0C ==> EscapeUnit(u) == UnitsOf("\\f")
    ensures u == 0x0D ==> EscapeUnit(u) == UnitsOf("\\r")
    ensures (u < 0x08 || u == 0x0B || 0x0E <= u < 0x20 || 0xD800 <= u <= 0xDFFF) ==>
              |EscapeUnit(u)| == 6 && EscapeUnit(u)[..2] == UnitsOf("\\u") && Spells(EscapeUnit(u)[2..], u)
    ensures (0x20 <= u < 0xD800 || u > 0xDFFF) && u != 0x22 && u != 0x5C ==> EscapeUnit(u) == [u]
  {
    HexSpells(u);
    assert ([BACKSLASH, 0x75] + Hex(u))[..2] == [BACKSLASH, 0x75] && ([BACKSLASH, 0x75] + Hex(u))[2..] == Hex(u);
  }

  /** The words, the brackets and the commas of the text. */
  lemma {:induction false} WordsAre(first: Json, figures: Units, s: Units)
    ensures Print(Null) == Print(Overflow) == UnitsOf("null")
    ensures Print(Bool(true)) == UnitsOf("true") && Print(Bool(false)) == UnitsOf("false") && Print(Number(figures)) == figures
    ensures Print(String(s)) == UnitsOf("\"") + Escape(s) + UnitsOf("\"")
    ensures Print(Array([])) == UnitsOf("[]") && Print(Object([])) == UnitsOf("{}")
    ensures Print(Array([first])) == UnitsOf("[") + Print(first) + UnitsOf("]")
  {
    assert UnitsOf("null") == [0x6E, 0x75, 0x6C, 0x6C];
    assert UnitsOf("true") == [0x74, 0x72, 0x75, 0x65] && UnitsOf("false") == [0x66, 0x61, 0x6C, 0x73, 0x65];
    assert UnitsOf("\"") == [QUOTE] && UnitsOf("[") == [0x5B] && UnitsOf("]") == [0x5D];
    assert UnitsOf("[]") == [0x5B, 0x5D] && UnitsOf("{}") == [0x7B, 0x7D];
    assert KeysOf([]) == [];
  }

  /** Items go on from where they are, whatever came before. */
  lemma {:induction false} ItemsGoOn(items: seq<Json>, k: nat)
    requires 0 < k <= |items|
    ensures PrintItems(Array(items), k) == PrintItems(Array(items[1..]), k - 1)
    decreases |items| - k
  {
    if k < |items| {
      ItemsGoOn(items, k + 1);
    }
  }

  lemma {:induction false} FirstItem(v: Json)
    requires v.Array? && |v.items| > 1
    ensures Print(v) == [0x5B] + (Print(v.items[0]) + [COMMA] + PrintItems(v, 1)) + [0x5D]
  {
  }

  /** Items are joined with commas. */
  lemma {:induction false} ItemsAreJoined(first: Json, more: seq<Json>)
    requires more != []
    ensures Print(Array([first] + more)) == UnitsOf("[") + Print(first) + UnitsOf(",") + Print(Array(more))[1..]
  {
    var all := [first] + more;
    assert all[1..] == more;
    ItemsGoOn(all, 1);
    FirstItem(Array(all));
    var p, rest := Print(first), PrintItems(Array(more), 0);
    assert UnitsOf("[") == [0x5B] && UnitsOf(",") == [COMMA];
    AfterBracket(Array(more));
    assert [0x5B] + (p + [COMMA] + rest) + [0x5D] == [0x5B] + p + [COMMA] + (rest + [0x5D]);
  }

  lemma {:induction false} AfterBracket(v: Json)
    requires v.Array?
    ensures Print(v)[1..] == PrintItems(v, 0) + [0x5D]
  {
    assert [0x5B] + PrintItems(v, 0) + [0x5D] == [0x5B] + (PrintItems(v, 0) + [0x5D]);
  }

  lemma {:induction false} EntryPrints(v: Json, k: nat)
    requires v.Object? && k < |v.entries| <= 2 && (|v.entries| == 2 ==> v.entries[0].key != v.entries[1].key)
    ensures PrintEntry(v, v.entries[k].key) == Quoted(v.entries[k].key) + [COLON] + Print(v.entries[k].value)
  {
    assert HasKey(v.entries, v.entries[k].key);
    assert v.entries[IndexOf(v.entries, v.entries[k].key)].key == v.entries[k].key;
  }

  lemma {:induction false} KeysSorted(a: Units, b: Units)
    requires Before(a, b) && !Before(b, a)
    ensures SortedKeys([a]) == [a] && SortedKeys([a, b]) == SortedKeys([b, a]) == [a, b]
  {
    assert [a][1..] == [] && [b][1..] == [] && [a, b][1..] == [b] && [b, a][1..] == [a];
    assert SortedKeys([b]) == [b] && SortedKeys([a]) == [a];
    assert InsertKey(a, [b]) == [a] + [b] && InsertKey(b, [a]) == [a] + InsertKey(b, []);
  }

  /** An entry is its key, quoted, a colon and its value; entries are joined with commas, the lesser key first. */
  lemma {:induction false} EntriesAreJoined(a: Entry, b: Entry)
    requires Before(a.key, b.key)
    ensures Print(Object([a])) == UnitsOf("{") + (Quoted(a.key) + UnitsOf(":") + Print(a.value)) + UnitsOf("}")
    ensures Print(Object([a, b])) == UnitsOf("{") + ((Quoted(a.key) + UnitsOf(":") + Print(a.value)) + UnitsOf(",")
                                     + (Quoted(b.key) + UnitsOf(":") + Print(b.value))) + UnitsOf("}")
    ensures Print(Object([b, a])) == Print(Object([a, b]))
  {
    BeforeIsAnOrder(a.key, b.key, b.key);
    assert UnitsOf("{") == [0x7B] && UnitsOf("}") == [0x7D] && UnitsOf(":") == [COLON] && UnitsOf(",") == [COMMA];
    OneEntry(a, b.key);
    TwoEntries(Object([a, b]), a, b, 0);
    TwoEntries(Object([b, a]), a, b, 1);
  }

  lemma {:induction false} OneEntry(a: Entry, later: Units)
    requires Before(a.key, later) && !Before(later, a.key)
    ensures Print(Object([a])) == [0x7B] + (Quoted(a.key) + [COLON] + Print(a.value)) + [0x7D]
  {
    var v := Object([a]);
    KeysSorted(a.key, later);
    EntryPrints(v, 0);
    assert KeysOf(v.entries) == [a.key];
  }

  lemma {:induction false} TwoEntries(v: Json, a: Entry, b: Entry, k: nat)
    requires v.Object? && k <= 1 && v.entries == if k == 0 then [a, b] else [b, a]
    requires Before(a.key, b.key) && !Before(b.key, a.key) && a.key != b.key
    ensures Print(v) == [0x7B] + ((Quoted(a.key) + [COLON] + Print(a.value)) + [COMMA] + (Quoted(b.key) + [COLON] + Print(b.value))) + [0x7D]
  {
    EntryPrints(v, k);
    EntryPrints(v, 1 - k);
    KeysSorted(a.key, b.key);
    assert KeysOf(v.entries) == if k == 0 then [a.key, b.key] else [b.key, a.key];
    TwoKeys(v, a.key, b.key);
  }

  lemma {:induction false} TwoKeys(v: Json, a: Units, b: Units)
    requires v.Object?
    ensures PrintEntries(v, [a, b]) == PrintEntry(v, a) + [COMMA] + PrintEntry(v, b)
  {
    assert [a, b][1..] == [b];
    assert PrintEntries(v, [b]) == PrintEntry(v, b);
  }

  /** Where the two texts first differ: there the lesser has ended, or has the lesser unit. */
  predicate DiffersAt(a: Units, b: Units, k: nat) {
    && k <= |a| && k < |b| && a[..k] == b[..k]
    && (k == |a| || a[k] < b[k])
  }

  /** Keys are sorted by their code units. */
  lemma {:induction false} BeforeIff(a: Units, b: Units)
    ensures Before(a, b) <==> exists k: nat :: DiffersAt(a, b, k)
  {
    if a != [] && b != [] && a[0] == b[0] {
      BeforeIff(a[1..], b[1..]);
      if Before(a[1..], b[1..]) {
        var k: nat :| DiffersAt(a[1..], b[1..], k);
        assert a[..k + 1] == [a[0]] + a[1..][..k] && b[..k + 1] == [b[0]] + b[1..][..k];
        assert DiffersAt(a, b, k + 1);
      }
      if k: nat :| DiffersAt(a, b, k) {
        assert k > 0 && a[1..][..k - 1] == a[..k][1..] && b[1..][..k - 1] == b[..k][1..];
        assert DiffersAt(a[1..], b[1..], k - 1);
      }
    } else {
      if Before(a, b) {
        assert DiffersAt(a, b, 0);
      }
      if k: nat :| DiffersAt(a, b, k) {
        assert k > 0 ==> a[..k][0] == b[..k][0];
      }
    }
  }

  /** A text is escaped unit by unit, and a surrogate pair is kept whole. */
  lemma {:induction false} EscapedOneByOne(s: Units, first: CodeUnit, second: CodeUnit)
    ensures 0xD800 <= first <= 0xDBFF && 0xDC00 <= second <= 0xDFFF ==> Escape([first, second] + s) == [first, second] + Escape(s)
    ensures !(0xD800 <= first <= 0xDBFF && s != [] && 0xDC00 <= s[0] <= 0xDFFF) ==> Escape([first] + s) == EscapeUnit(first) + Escape(s)
    ensures Escape([]) == []
  {
    assert ([first, second] + s)[2..] == s && ([first, second] + s)[..2] == [first, second] && ([first] + s)[1..] == s;
  }
}
