/**
 * Ordered JSON values and the compact text the JSON library prints for them, and where a marker made of digits can stand
 * in that text.
 */
module JsonText {
  import opened StringUtils

  datatype Field = Field(key: string, value: Json)

  /** An ordered JSON value; numbers keep their text. */
  datatype Json =
    | Null
    | Bool(b: bool)
    | Num(text: string)
    | Str(s: string)
    | Arr(items: seq<Json>)
    | Obj(fields: seq<Field>)

  /** obj[key] = value on an ordered object: an existing key keeps its place. */
  function SetField(fields: seq<Field>, key: string, value: Json): seq<Field> {
    if fields == [] then [Field(key, value)]
    else if fields[0].key == key then [Field(key, value)] + fields[1..]
    else [fields[0]] + SetField(fields[1..], key, value)
  }

  predicate Contains(s: string, m: string) {
    Find(s, m, 0).Some?
  }

  function Keys(fields: seq<Field>): set<string> {
    if fields == [] then {} else {fields[0].key} + Keys(fields[1..])
  }

  /** No object has a key twice, as every value that was read. */
  predicate UniqueKeys(j: Json)
    decreases j, 0
  {
    match j
    case Arr(items) => UniqueInItems(items)
    case Obj(fields) => UniqueInFields(fields)
    case _ => true
  }

  predicate UniqueInItems(items: seq<Json>)
    decreases items, 1
  {
    items == [] || (UniqueKeys(items[0]) && UniqueInItems(items[1..]))
  }

  predicate UniqueInFields(fields: seq<Field>)
    decreases fields, 1
  {
    fields == []
    || (fields[0].key !in Keys(fields[1..]) && UniqueKeys(fields[0].value) && UniqueInFields(fields[1..]))
  }

  // ----- the printer -----

  function HexDigit(n: nat): char
    requires n < 16
  {
    if n < 10 then '0' + n as char else 'a' + (n - 10) as char
  }

  function EscapeChar(c: char): string {
    var n := c as int;
    if n == 0x08 then ['\\', 'b']
    else if n == 0x09 then ['\\', 't']
    else if n == 0x0a then ['\\', 'n']
    else if n == 0x0c then ['\\', 'f']
    else if n == 0x0d then ['\\', 'r']
    else if n == 0x22 || n == 0x5c then ['\\', c]
    else if n <= 0x1f then ['\\', 'u', '0', '0', HexDigit(n / 16), HexDigit(n % 16)]
    else [c]
  }

  function Escape(s: string): string {
    if s == "" then "" else EscapeChar(s[0]) + Escape(s[1..])
  }

  function Quoted(s: string): string {
    ['"'] + (Escape(s) + ['"'])
  }

  function Comma(left: nat): string {
    if left == 0 then [] else [',']
  }

  function Dump(j: Json): string
    decreases j, 0
  {
    match j
    case Null => "null"
    case Bool(b) => if b then "true" else "false"
    case Num(text) => text
    case Str(s) => Quoted(s)
    case Arr(items) => ['['] + (DumpItems(items) + [']'])
    case Obj(fields) => ['{'] + (DumpFields(fields) + ['}'])
  }

  function DumpItems(items: seq<Json>): string
    decreases items, 1
  {
    if items == [] then [] else Dump(items[0]) + (Comma(|items| - 1) + DumpItems(items[1..]))
  }

  function DumpFields(fields: seq<Field>): string
    decreases fields, 1
  {
    if fields == [] then []
    else Quoted(fields[0].key) + ([':'] + (Dump(fields[0].value) + (Comma(|fields| - 1) + DumpFields(fields[1..]))))
  }

  // ----- where a marker can be in a value -----

  /** No key and no string holds it. */
  predicate Unmarked(m: string, j: Json)
    decreases j, 0
  {
    match j
    case Str(s) => !Contains(s, m)
    case Arr(items) => ItemsUnmarked(m, items)
    case Obj(fields) => FieldsUnmarked(m, fields)
    case _ => true
  }

  predicate ItemsUnmarked(m: string, items: seq<Json>)
    decreases items, 1
  {
    items == [] || (Unmarked(m, items[0]) && ItemsUnmarked(m, items[1..]))
  }

  predicate FieldsUnmarked(m: string, fields: seq<Field>)
    decreases fields, 1
  {
    fields == [] || (!Contains(fields[0].key, m) && Unmarked(m, fields[0].value) && FieldsUnmarked(m, fields[1..]))
  }

  /** And no number holds it. */
  predicate MarkerFree(m: string, j: Json)
    decreases j, 0
  {
    match j
    case Num(text) => !Contains(text, m)
    case Str(s) => !Contains(s, m)
    case Arr(items) => ItemsFree(m, items)
    case Obj(fields) => FieldsFree(m, fields)
    case _ => true
  }

  predicate ItemsFree(m: string, items: seq<Json>)
    decreases items, 1
  {
    items == [] || (MarkerFree(m, items[0]) && ItemsFree(m, items[1..]))
  }

  predicate FieldsFree(m: string, fields: seq<Field>)
    decreases fields, 1
  {
    fields == [] || (!Contains(fields[0].key, m) && MarkerFree(m, fields[0].value) && FieldsFree(m, fields[1..]))
  }

  lemma {:induction false} SetFieldFree(m: string, fields: seq<Field>, key: string, value: Json)
    requires FieldsFree(m, fields) && !Contains(key, m) && MarkerFree(m, value)
    ensures FieldsFree(m, SetField(fields, key, value))
    decreases |fields|
  {
    if fields != [] && fields[0].key != key {
      SetFieldFree(m, fields[1..], key, value);
      assert SetField(fields, key, value)[1..] == SetField(fields[1..], key, value);
    } else if fields != [] {
      assert SetField(fields, key, value)[1..] == fields[1..];
    }
  }

  lemma {:induction false} SnocFree(m: string, items: seq<Json>, item: Json)
    requires ItemsFree(m, items) && MarkerFree(m, item)
    ensures ItemsFree(m, items + [item])
    decreases |items|
  {
    if items != [] {
      assert (items + [item])[1..] == items[1..] + [item];
      SnocFree(m, items[1..], item);
    }
  }

  // ----- a marker in the text -----

  /** What the parser uses as a marker: the digits of a random number. */
  predicate IsMarker(m: string) {
    m != "" && forall i :: 0 <= i < |m| ==> '0' <= m[i] <= '9'
  }

  /** x stands in s at p. */
  predicate Inside(s: string, p: nat, x: string) {
    p + |x| <= |s| && s[p..p + |x|] == x
  }

  lemma OccursAtInside(s: string, p: nat, x: string, m: string, i: nat) returns (k: nat)
    requires Inside(s, p, x) && OccursAt(x, m, i)
    ensures OccursAt(s, m, k) && k >= p && k >= i
  {
    OccursInside(s, p, x, m, i);
    k := p + i;
  }

  lemma OccursInside(s: string, p: nat, x: string, m: string, i: nat)
    requires Inside(s, p, x) && OccursAt(x, m, i)
    ensures OccursAt(s, m, p + i) && p + i + |m| <= p + |x|
  {
    OccursInSlice(s, p, p + |x|, m, i);
  }

  lemma ContainsInside(s: string, p: nat, x: string, m: string)
    requires Inside(s, p, x) && Contains(x, m)
    ensures Contains(s, m)
  {
    OccursInside(s, p, x, m, Find(x, m, 0).value);
  }

  lemma InsideContains(s: string, p: nat, x: string)
    requires Inside(s, p, x)
    ensures Contains(s, x)
  {
    assert OccursAt(s, x, p);
  }

  ghost predicate AtMostOnce(s: string, m: string) {
    forall i: nat, k: nat :: OccursAt(s, m, i) && OccursAt(s, m, k) ==> i == k
  }

  /** The marker is in the text once or not at all. */
  ghost predicate Once(s: string, m: string, marked: bool) {
    AtMostOnce(s, m) && (Contains(s, m) <==> marked)
  }

  lemma OncePart(s: string, p: nat, x: string, m: string)
    requires AtMostOnce(s, m) && Inside(s, p, x)
    ensures AtMostOnce(x, m)
  {
    forall i: nat, k: nat | OccursAt(x, m, i) && OccursAt(x, m, k) ensures i == k {
      OccursInside(s, p, x, m, i);
      OccursInside(s, p, x, m, k);
    }
  }

  lemma NotInBoth(s: string, p: nat, x: string, q: nat, y: string, m: string)
    requires m != "" && AtMostOnce(s, m) && Inside(s, p, x) && Inside(s, q, y) && p + |x| <= q
    ensures !(Contains(x, m) && Contains(y, m))
  {
    if Contains(x, m) && Contains(y, m) {
      OccursInside(s, p, x, m, Find(x, m, 0).value);
      OccursInside(s, q, y, m, Find(y, m, 0).value);
    }
  }

  /** If a text holds the marker once and it is in one of two parts, each part holds it once or not at all. */
  lemma OnceTwo(s: string, m: string, p: nat, x: string, markedX: bool, q: nat, y: string, markedY: bool)
    requires m != "" && Once(s, m, markedX || markedY) && Inside(s, p, x) && Inside(s, q, y) && p + |x| <= q
    requires (markedX ==> Contains(x, m)) && (markedY ==> Contains(y, m))
    ensures Once(x, m, markedX) && Once(y, m, markedY) && !(markedX && markedY)
  {
    OncePart(s, p, x, m);
    OncePart(s, q, y, m);
    NotInBoth(s, p, x, q, y, m);
    if Contains(x, m) {
      ContainsInside(s, p, x, m);
    }
    if Contains(y, m) {
      ContainsInside(s, q, y, m);
    }
  }

  lemma SliceOfSlice(s: string, a: nat, b: nat, c: nat, d: nat)
    requires a <= b <= |s| && c <= d <= b - a
    ensures s[a..b][c..d] == s[a + c..a + d]
  {
    assert forall k :: 0 <= k < d - c ==> s[a..b][c..d][k] == s[a + c..a + d][k];
  }

  lemma InsideTrans(s: string, p: nat, x: string, q: nat, y: string)
    requires Inside(s, p, x) && Inside(x, q, y)
    ensures Inside(s, p + q, y)
  {
    SliceOfSlice(s, p, p + |x|, q, q + |y|);
  }

  lemma InsideMiddle(a: string, x: string, b: string)
    ensures Inside(a + (x + b), |a|, x) && Inside(a + (x + b), |a| + |x|, b)
  {
    var s := a + (x + b);
    assert s[|a|..] == x + b;
    assert s[|a|..][..|x|] == x && s[|a|..][|x|..] == b;
  }

  // ----- the pieces of a printed value -----

  lemma ItemPieces(items: seq<Json>) returns (q: nat)
    requires items != []
    ensures Inside(DumpItems(items), 0, Dump(items[0])) && Inside(DumpItems(items), q, DumpItems(items[1..]))
    ensures |Dump(items[0])| <= q
  {
    var x, comma, rest := Dump(items[0]), Comma(|items| - 1), DumpItems(items[1..]);
    q := |x| + |comma|;
    InsideFirst(x, comma + rest);
    InsideMiddle(x, comma, rest);
  }

  lemma InsideFirst(x: string, b: string)
    ensures Inside(x + b, 0, x)
  {
  }

  lemma ValuePieces(quoted: string, x: string, comma: string, rest: string)
    ensures var s, p := quoted + ([':'] + (x + (comma + rest))), |quoted| + 1;
            Inside(s, 0, quoted) && Inside(s, p, x) && Inside(s, p + (|x| + |comma|), rest)
  {
    var value := x + (comma + rest);
    var s := quoted + ([':'] + value);
    InsideFirst(quoted, [':'] + value);
    InsideMiddle(quoted, [':'], value);
    InsideFirst(x, comma + rest);
    InsideTrans(s, |quoted| + 1, value, 0, x);
    InsideMiddle(x, comma, rest);
    InsideTrans(s, |quoted| + 1, value, |x| + |comma|, rest);
  }

  lemma FieldPieces(fields: seq<Field>) returns (p: nat, q: nat)
    requires fields != []
    ensures var s := DumpFields(fields);
            && Inside(s, 1, Escape(fields[0].key)) && Inside(s, p, Dump(fields[0].value)) && Inside(s, q, DumpFields(fields[1..]))
            && 1 + |Escape(fields[0].key)| <= p && p + |Dump(fields[0].value)| <= q
  {
    var quoted, x, comma := Quoted(fields[0].key), Dump(fields[0].value), Comma(|fields| - 1);
    p, q := |quoted| + 1, |quoted| + 1 + (|x| + |comma|);
    ValuePieces(quoted, x, comma, DumpFields(fields[1..]));
    InsideMiddle(['"'], Escape(fields[0].key), ['"']);
    InsideTrans(DumpFields(fields), 0, quoted, 1, Escape(fields[0].key));
  }

  lemma {:induction false} EscapeAppend(a: string, b: string)
    ensures Escape(a + b) == Escape(a) + Escape(b)
    decreases |a|
  {
    if a == "" {
      assert a + b == b;
    } else {
      assert (a + b)[1..] == a[1..] + b;
      EscapeAppend(a[1..], b);
      Assoc(EscapeChar(a[0]), Escape(a[1..]), Escape(b));
    }
  }

  lemma EscapeDigit(c: char)
    requires '0' <= c <= '9'
    ensures EscapeChar(c) == [c]
  {
  }

  lemma {:induction false} EscapeDigits(m: string)
    requires forall i :: 0 <= i < |m| ==> '0' <= m[i] <= '9'
    ensures Escape(m) == m
    decreases |m|
  {
    if m != "" {
      EscapeDigits(m[1..]);
      EscapeDigit(m[0]);
      assert m == [m[0]] + m[1..];
    }
  }

  /** Digits are printed as they are. */
  lemma EscapeContains(s: string, m: string)
    requires IsMarker(m) && Contains(s, m)
    ensures Contains(Escape(s), m)
  {
    var i := Find(s, m, 0).value;
    var a, b := s[..i], s[i + |m|..];
    assert s == a + (m + b);
    EscapeAppend(a, m + b);
    EscapeAppend(m, b);
    EscapeDigits(m);
    InsideMiddle(Escape(a), m, Escape(b));
    InsideContains(Escape(s), |Escape(a)|, m);
  }

  // ----- a marked value shows its marker -----

  lemma QuotedContains(s: string, m: string) returns (i: nat)
    requires IsMarker(m) && Contains(s, m)
    ensures OccursAt(Quoted(s), m, i) && i >= 1
  {
    EscapeContains(s, m);
    var k := Find(Escape(s), m, 0).value;
    InsideMiddle(['"'], Escape(s), ['"']);
    OccursInside(Quoted(s), 1, Escape(s), m, k);
    i := 1 + k;
  }

  /** Where a marked value shows it: behind the quotation mark, and the bracket of a container. */
  lemma {:induction false} MarkedShows(j: Json, m: string) returns (i: nat)
    requires IsMarker(m) && !Unmarked(m, j)
    ensures OccursAt(Dump(j), m, i) && i >= 1 && (j.Arr? || j.Obj? ==> i >= 2)
    decreases j, 0
  {
    match j
    case Str(s) => i := QuotedContains(s, m);
    case Arr(items) =>
      i := MarkedItemsShow(items, m);
      InsideMiddle(['['], DumpItems(items), [']']);
      OccursInside(Dump(j), 1, DumpItems(items), m, i);
      i := i + 1;
    case Obj(fields) =>
      i := MarkedFieldsShow(fields, m);
      InsideMiddle(['{'], DumpFields(fields), ['}']);
      OccursInside(Dump(j), 1, DumpFields(fields), m, i);
      i := i + 1;
    case _ =>
  }

  lemma {:induction false} MarkedItemsShow(items: seq<Json>, m: string) returns (i: nat)
    requires IsMarker(m) && !ItemsUnmarked(m, items)
    ensures OccursAt(DumpItems(items), m, i) && i >= 1
    decreases items, 1
  {
    var q := ItemPieces(items);
    if !Unmarked(m, items[0]) {
      i := MarkedShows(items[0], m);
      i := OccursAtInside(DumpItems(items), 0, Dump(items[0]), m, i);
    } else {
      i := MarkedItemsShow(items[1..], m);
      i := OccursAtInside(DumpItems(items), q, DumpItems(items[1..]), m, i);
    }
  }

  lemma KeyShows(fields: seq<Field>, m: string) returns (i: nat)
    requires IsMarker(m) && fields != [] && Contains(fields[0].key, m)
    ensures OccursAt(DumpFields(fields), m, i) && i >= 1
  {
    var p, q := FieldPieces(fields);
    EscapeContains(fields[0].key, m);
    i := Find(Escape(fields[0].key), m, 0).value;
    i := OccursAtInside(DumpFields(fields), 1, Escape(fields[0].key), m, i);
  }

  lemma {:induction false} MarkedFieldsShow(fields: seq<Field>, m: string) returns (i: nat)
    requires IsMarker(m) && !FieldsUnmarked(m, fields)
    ensures OccursAt(DumpFields(fields), m, i) && i >= 1
    decreases fields, 1
  {
    if Contains(fields[0].key, m) {
      i := KeyShows(fields, m);
    } else {
      var p, q := FieldPieces(fields);
      if !Unmarked(m, fields[0].value) {
        i := MarkedShows(fields[0].value, m);
        i := OccursAtInside(DumpFields(fields), p, Dump(fields[0].value), m, i);
      } else {
        i := MarkedFieldsShow(fields[1..], m);
        i := OccursAtInside(DumpFields(fields), q, DumpFields(fields[1..]), m, i);
      }
    }
  }

  // ----- one marker in a value -----

  /** The text of the value shows the marker once if a key or string holds it, and not at all otherwise. */
  ghost predicate Single(m: string, j: Json) {
    Once(Dump(j), m, !Unmarked(m, j))
  }

  ghost predicate SingleItems(m: string, items: seq<Json>) {
    Once(DumpItems(items), m, !ItemsUnmarked(m, items))
  }

  ghost predicate SingleFields(m: string, fields: seq<Field>) {
    Once(DumpFields(fields), m, !FieldsUnmarked(m, fields))
  }

  lemma OncePiece(s: string, m: string, p: nat, x: string, marked: bool)
    requires Once(s, m, marked) && Inside(s, p, x) && (marked ==> Contains(x, m))
    ensures Once(x, m, marked)
  {
    OncePart(s, p, x, m);
    if Contains(x, m) {
      ContainsInside(s, p, x, m);
    }
  }

  lemma SingleInside(m: string, j: Json)
    requires IsMarker(m) && Single(m, j)
    ensures j.Arr? ==> SingleItems(m, j.items)
    ensures j.Obj? ==> SingleFields(m, j.fields)
  {
    match j
    case Arr(items) =>
      if !ItemsUnmarked(m, items) {
        var i := MarkedItemsShow(items, m);
      }
      InsideMiddle(['['], DumpItems(items), [']']);
      OncePiece(Dump(j), m, 1, DumpItems(items), !ItemsUnmarked(m, items));
    case Obj(fields) =>
      if !FieldsUnmarked(m, fields) {
        var i := MarkedFieldsShow(fields, m);
      }
      InsideMiddle(['{'], DumpFields(fields), ['}']);
      OncePiece(Dump(j), m, 1, DumpFields(fields), !FieldsUnmarked(m, fields));
    case _ =>
  }

  lemma SingleItemsSplit(m: string, items: seq<Json>)
    requires IsMarker(m) && SingleItems(m, items) && items != []
    ensures Single(m, items[0]) && SingleItems(m, items[1..])
    ensures Unmarked(m, items[0]) || ItemsUnmarked(m, items[1..])
  {
    var q := ItemPieces(items);
    var x, rest := Dump(items[0]), DumpItems(items[1..]);
    if !Unmarked(m, items[0]) {
      var i := MarkedShows(items[0], m);
    }
    if !ItemsUnmarked(m, items[1..]) {
      var i := MarkedItemsShow(items[1..], m);
    }
    OnceTwo(DumpItems(items), m, 0, x, !Unmarked(m, items[0]), q, rest, !ItemsUnmarked(m, items[1..]));
  }

  lemma SingleFieldsSplit(m: string, fields: seq<Field>)
    requires IsMarker(m) && SingleFields(m, fields) && fields != []
    ensures !Contains(fields[0].key, m) ==> Single(m, fields[0].value) && SingleFields(m, fields[1..])
    ensures !Unmarked(m, fields[0].value) ==> FieldsUnmarked(m, fields[1..])
  {
    var p, q := FieldPieces(fields);
    var key, x, rest := Escape(fields[0].key), Dump(fields[0].value), DumpFields(fields[1..]);
    if !Unmarked(m, fields[0].value) {
      var i := MarkedShows(fields[0].value, m);
    }
    if !FieldsUnmarked(m, fields[1..]) {
      var i := MarkedFieldsShow(fields[1..], m);
    }
    NotInBoth(DumpFields(fields), p, x, q, rest, m);
    if !Contains(fields[0].key, m) {
      OnceTwo(DumpFields(fields), m, p, x, !Unmarked(m, fields[0].value), q, rest, !FieldsUnmarked(m, fields[1..]));
    }
  }
}
