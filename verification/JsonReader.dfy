/**
 * A reader for JSON values without spaces, written from the grammar of RFC 8259, and the proof that it reads back every
 * value that is printed.
 */
module JsonReader {
  import opened StringUtils
  import opened JsonText

  // ----- the reader -----

  predicate IsNumberChar(c: char) {
    '0' <= c <= '9' || c in "+-.eE"
  }

  function HexNumber(c: char): Option<nat> {
    if '0' <= c <= '9' then Some(c as int - '0' as int)
    else if 'a' <= c <= 'f' then Some(10 + c as int - 'a' as int)
    else if 'A' <= c <= 'F' then Some(10 + c as int - 'A' as int)
    else None
  }

  /** What stands for one character in a string, and the rest; section 7. */
  function ReadEscape(s: string): (r: Option<(char, string)>)
    ensures r.Some? ==> |r.value.1| < |s|
  {
    if s == "" then None
    else match s[0]
      case '"' => Some(('"', s[1..]))
      case '\\' => Some(('\\', s[1..]))
      case '/' => Some(('/', s[1..]))
      case 'b' => Some((8 as char, s[1..]))
      case 'f' => Some((12 as char, s[1..]))
      case 'n' => Some((10 as char, s[1..]))
      case 'r' => Some((13 as char, s[1..]))
      case 't' => Some((9 as char, s[1..]))
      case 'u' =>
        if |s| < 5 then None
        else
          var a :- HexNumber(s[1]);
          var b :- HexNumber(s[2]);
          var c :- HexNumber(s[3]);
          var d :- HexNumber(s[4]);
          var code := 4096 * a + 256 * b + 16 * c + d;
          if 0xD800 <= code <= 0xDFFF then None else Some((code as char, s[5..]))
      case _ => None
  }

  /** The characters up to the closing quote, and what is behind it. */
  function ReadString(s: string): (r: Option<(string, string)>)
    ensures r.Some? ==> |r.value.1| < |s|
    decreases |s|
  {
    if s == "" || (s[0] < ' ') then None
    else if s[0] == '"' then Some(("", s[1..]))
    else if s[0] == '\\' then
      var escape :- ReadEscape(s[1..]);
      var more :- ReadString(escape.1);
      Some(([escape.0] + more.0, more.1))
    else
      var more :- ReadString(s[1..]);
      Some(([s[0]] + more.0, more.1))
  }

  function NumberEnd(s: string): (n: nat)
    ensures n <= |s|
  {
    if s == "" || !IsNumberChar(s[0]) then 0 else 1 + NumberEnd(s[1..])
  }

  function ReadWord(s: string, word: string, j: Json): (r: Option<(Json, string)>)
    requires word != ""
    ensures r.Some? ==> |r.value.1| < |s|
  {
    if word <= s then Some((j, s[|word|..])) else None
  }

  /** A value, and what is behind it. */
  function ReadValue(s: string): (r: Option<(Json, string)>)
    ensures r.Some? ==> |r.value.1| < |s|
    decreases |s|, 2
  {
    if s == "" then None
    else if s[0] == 'n' then ReadWord(s, "null", Null)
    else if s[0] == 't' then ReadWord(s, "true", Bool(true))
    else if s[0] == 'f' then ReadWord(s, "false", Bool(false))
    else if s[0] == '"' then
      var str :- ReadString(s[1..]);
      Some((Str(str.0), str.1))
    else if s[0] == '[' then
      if |s| > 1 && s[1] == ']' then Some((Arr([]), s[2..]))
      else
        var items :- ReadItems(s[1..]);
        Some((Arr(items.0), items.1))
    else if s[0] == '{' then
      if |s| > 1 && s[1] == '}' then Some((Obj([]), s[2..]))
      else
        var fields :- ReadFields(s[1..]);
        Some((Obj(fields.0), fields.1))
    else
      var n := NumberEnd(s);
      if n == 0 then None else Some((Num(s[..n]), s[n..]))
  }

  /** Values with commas between them, up to the bracket. */
  function ReadItems(s: string): (r: Option<(seq<Json>, string)>)
    ensures r.Some? ==> |r.value.1| < |s|
    decreases |s|, 3
  {
    var first :- ReadValue(s);
    if first.1 == "" then None
    else if first.1[0] == ']' then Some(([first.0], first.1[1..]))
    else if first.1[0] == ',' then
      var more :- ReadItems(first.1[1..]);
      Some(([first.0] + more.0, more.1))
    else None
  }

  /** Keys and values with commas between them, up to the brace. */
  function ReadFields(s: string): (r: Option<(seq<Field>, string)>)
    ensures r.Some? ==> |r.value.1| < |s|
    decreases |s|, 3
  {
    if s == "" || s[0] != '"' then None
    else
      var key :- ReadString(s[1..]);
      if key.1 == "" || key.1[0] != ':' then None
      else
        var value :- ReadValue(key.1[1..]);
        var field := Field(key.0, value.0);
        if value.1 == "" then None
        else if value.1[0] == '}' then Some(([field], value.1[1..]))
        else if value.1[0] == ',' then
          var more :- ReadFields(value.1[1..]);
          Some(([field] + more.0, more.1))
        else None
  }

  // ----- what is printed is read back -----

  /** Numbers are texts of number characters, as the reader and the parser give them. */
  predicate HasNumbers(j: Json)
    decreases j, 0
  {
    match j
    case Num(text) => text != "" && forall k :: 0 <= k < |text| ==> IsNumberChar(text[k])
    case Arr(items) => ItemsHaveNumbers(items)
    case Obj(fields) => FieldsHaveNumbers(fields)
    case _ => true
  }

  predicate ItemsHaveNumbers(items: seq<Json>)
    decreases items, 1
  {
    items == [] || (HasNumbers(items[0]) && ItemsHaveNumbers(items[1..]))
  }

  predicate FieldsHaveNumbers(fields: seq<Field>)
    decreases fields, 1
  {
    fields == [] || (HasNumbers(fields[0].value) && FieldsHaveNumbers(fields[1..]))
  }

  lemma EscapeCharIsRead(c: char, rest: string)
    ensures var e := EscapeChar(c);
            if e == [c] then c >= ' ' && c != '"' && c != '\\'
            else |e| > 1 && e[0] == '\\' && ReadEscape(e[1..] + rest) == Some((c, rest))
  {
    var e := EscapeChar(c);
    if |e| == 2 {
      assert (e[1..] + rest)[1..] == rest;
    } else if |e| == 6 {
      HexIsNumber(c as int);
      assert (e[1..] + rest)[5..] == rest;
    }
  }

  lemma HexIsNumber(n: nat)
    requires n < 32
    ensures HexNumber(HexDigit(n / 16)) == Some(n / 16) && HexNumber(HexDigit(n % 16)) == Some(n % 16)
  {
  }

  lemma PlainIsRead(c: char, more: string, s: string, rest: string)
    requires c >= ' ' && c != '"' && c != '\\' && ReadString(more) == Some((s, rest))
    ensures ReadString([c] + more) == Some(([c] + s, rest))
  {
    assert ([c] + more)[1..] == more;
  }

  lemma EscapedIsRead(e: string, c: char, more: string, s: string, rest: string)
    requires |e| > 1 && e[0] == '\\' && ReadEscape(e[1..] + more) == Some((c, more)) && ReadString(more) == Some((s, rest))
    ensures ReadString(e + more) == Some(([c] + s, rest))
  {
    assert (e + more)[1..] == e[1..] + more;
  }

  lemma QuoteEnds(rest: string)
    ensures ReadString(['"'] + rest) == Some(("", rest))
  {
    assert (['"'] + rest)[1..] == rest;
  }

  lemma {:induction false} StringIsRead(s: string, rest: string)
    ensures ReadString(Escape(s) + (['"'] + rest)) == Some((s, rest))
    decreases |s|
  {
    if s == "" {
      QuoteEnds(rest);
      assert Escape(s) + (['"'] + rest) == ['"'] + rest;
    } else {
      var c, e, tail := s[0], EscapeChar(s[0]), Escape(s[1..]);
      var more := tail + (['"'] + rest);
      Assoc(e, tail, ['"'] + rest);
      EscapeCharIsRead(c, more);
      StringIsRead(s[1..], rest);
      if e == [c] {
        PlainIsRead(c, more, s[1..], rest);
      } else {
        EscapedIsRead(e, c, more, s[1..], rest);
      }
      assert s == [c] + s[1..];
    }
  }

  lemma QuotedIsRead(s: string, rest: string)
    ensures var text := Quoted(s) + rest; text[0] == '"' && ReadString(text[1..]) == Some((s, rest))
  {
    StringIsRead(s, rest);
    assert (Quoted(s) + rest)[1..] == Escape(s) + (['"'] + rest);
  }

  lemma {:induction false} NumberEndIs(text: string, rest: string)
    requires (forall k :: 0 <= k < |text| ==> IsNumberChar(text[k])) && (rest == "" || !IsNumberChar(rest[0]))
    ensures NumberEnd(text + rest) == |text|
    decreases |text|
  {
    if text == "" {
      assert text + rest == rest;
    } else {
      NumberEndIs(text[1..], rest);
      assert (text + rest)[1..] == text[1..] + rest;
    }
  }

  /** What follows a value does not lengthen a number. */
  predicate IsBehind(rest: string) {
    rest == "" || !IsNumberChar(rest[0])
  }

  lemma NumberIsRead(text: string, rest: string)
    requires HasNumbers(Num(text)) && IsBehind(rest)
    ensures ReadValue(text + rest) == Some((Num(text), rest))
  {
    NumberEndIs(text, rest);
    var s := text + rest;
    assert IsNumberChar(s[0]) && s[..|text|] == text && s[|text|..] == rest;
  }

  lemma WordIsRead(word: string, rest: string, j: Json)
    requires word != ""
    ensures ReadWord(word + rest, word, j) == Some((j, rest))
  {
    assert (word + rest)[|word|..] == rest;
  }

  lemma StrIsRead(s: string, rest: string)
    ensures ReadValue(Quoted(s) + rest) == Some((Str(s), rest))
  {
    QuotedIsRead(s, rest);
  }

  lemma FirstOfDump(j: Json, rest: string)
    requires HasNumbers(j)
    ensures var s := Dump(j) + rest; s != "" && s[0] != ']' && s[0] != '}'
  {
    if j.Num? {
      assert IsNumberChar(j.text[0]);
    }
  }

  lemma FirstOfItems(items: seq<Json>, rest: string)
    requires items != [] && ItemsHaveNumbers(items)
    ensures var s := DumpItems(items) + rest; s != "" && s[0] != ']'
  {
    FirstOfDump(items[0], Comma(|items| - 1) + DumpItems(items[1..]) + rest);
  }

  /** Every printed value is read back, up to what follows it. */
  lemma {:induction false} ValueIsRead(j: Json, rest: string)
    requires HasNumbers(j) && IsBehind(rest)
    ensures ReadValue(Dump(j) + rest) == Some((j, rest))
    decreases j, 0
  {
    match j
    case Null => WordIsRead("null", rest, j);
    case Bool(b) => WordIsRead(if b then "true" else "false", rest, j);
    case Num(text) => NumberIsRead(text, rest);
    case Str(s) => StrIsRead(s, rest);
    case Arr(items) =>
      if items != [] {
        ItemsAreRead(items, rest);
      }
      ArrayIsRead(items, rest);
    case Obj(fields) =>
      if fields != [] {
        FieldsAreRead(fields, rest);
      }
      ObjectIsRead(fields, rest);
  }

  lemma BracketIsRead(s: string, items: seq<Json>, rest: string)
    requires |s| > 1 && s[0] == '[' && s[1] != ']' && ReadItems(s[1..]) == Some((items, rest))
    ensures ReadValue(s) == Some((Arr(items), rest))
  {
  }

  lemma BraceIsRead(s: string, fields: seq<Field>, rest: string)
    requires |s| > 1 && s[0] == '{' && s[1] != '}' && ReadFields(s[1..]) == Some((fields, rest))
    ensures ReadValue(s) == Some((Obj(fields), rest))
  {
  }

  lemma EmptyIsRead(rest: string)
    ensures ReadValue("[]" + rest) == Some((Arr([]), rest)) && ReadValue("{}" + rest) == Some((Obj([]), rest))
  {
    assert ("[]" + rest)[2..] == rest && ("{}" + rest)[2..] == rest;
  }

  lemma Enclosed(open: char, inner: string, end: char, rest: string)
    ensures ([open] + (inner + [end])) + rest == [open] + (inner + ([end] + rest))
    ensures ([open] + (inner + ([end] + rest)))[1..] == inner + ([end] + rest)
  {
  }

  lemma ArrayIsRead(items: seq<Json>, rest: string)
    requires ItemsHaveNumbers(items)
    requires items != [] ==> ReadItems(DumpItems(items) + ([']'] + rest)) == Some((items, rest))
    ensures ReadValue(Dump(Arr(items)) + rest) == Some((Arr(items), rest))
  {
    var dump := DumpItems(items);
    Enclosed('[', dump, ']', rest);
    if items == [] {
      EmptyIsRead(rest);
      assert Dump(Arr([])) == "[]";
    } else {
      var inner := dump + ([']'] + rest);
      FirstOfItems(items, [']'] + rest);
      BracketIsRead(['['] + inner, items, rest);
    }
  }

  lemma ObjectIsRead(fields: seq<Field>, rest: string)
    requires fields != [] ==> ReadFields(DumpFields(fields) + (['}'] + rest)) == Some((fields, rest))
    ensures ReadValue(Dump(Obj(fields)) + rest) == Some((Obj(fields), rest))
  {
    var dump := DumpFields(fields);
    Enclosed('{', dump, '}', rest);
    if fields == [] {
      EmptyIsRead(rest);
      assert Dump(Obj([])) == "{}";
    } else {
      assert dump[0] == '"';
      BraceIsRead(['{'] + (dump + (['}'] + rest)), fields, rest);
    }
  }

  lemma LastItemIsRead(s: string, x: Json, rest: string)
    requires ReadValue(s) == Some((x, [']'] + rest))
    ensures ReadItems(s) == Some(([x], rest))
  {
    assert ([']'] + rest)[1..] == rest;
  }

  lemma NextItemsAreRead(s: string, x: Json, next: string, more: seq<Json>, rest: string)
    requires ReadValue(s) == Some((x, [','] + next)) && ReadItems(next) == Some((more, rest))
    ensures ReadItems(s) == Some(([x] + more, rest))
  {
    assert ([','] + next)[1..] == next;
  }

  lemma ItemsText(items: seq<Json>, end: string, after: string)
    requires items != [] && after == if items[1..] == [] then end else [','] + (DumpItems(items[1..]) + end)
    ensures DumpItems(items) + end == Dump(items[0]) + after
  {
    var more := Comma(|items| - 1) + DumpItems(items[1..]);
    Assoc(Dump(items[0]), more, end);
    if items[1..] == [] {
      assert more == [] && more + end == end;
    } else {
      Assoc([','], DumpItems(items[1..]), end);
    }
  }

  lemma {:induction false} ItemsAreRead(items: seq<Json>, rest: string)
    requires items != [] && ItemsHaveNumbers(items)
    ensures ReadItems(DumpItems(items) + ([']'] + rest)) == Some((items, rest))
    decreases items, 1
  {
    var x, more, end := items[0], items[1..], [']'] + rest;
    var next := DumpItems(more) + end;
    var after := if more == [] then end else [','] + next;
    ItemsText(items, end, after);
    ValueIsRead(x, after);
    if more == [] {
      LastItemIsRead(Dump(x) + after, x, rest);
      assert items == [x];
    } else {
      ItemsAreRead(more, rest);
      NextItemsAreRead(Dump(x) + after, x, next, more, rest);
      assert items == [x] + more;
    }
  }

  /** A key, and the text of its value behind the colon. */
  predicate ReadsKey(s: string, key: string, text: string) {
    s != "" && s[0] == '"' && ReadString(s[1..]) == Some((key, [':'] + text))
  }

  lemma KeyIsRead(key: string, text: string)
    ensures ReadsKey(Quoted(key) + ([':'] + text), key, text)
  {
    QuotedIsRead(key, [':'] + text);
  }

  lemma LastFieldIsRead(s: string, f: Field, text: string, rest: string)
    requires ReadsKey(s, f.key, text) && ReadValue(text) == Some((f.value, ['}'] + rest))
    ensures ReadFields(s) == Some(([f], rest))
  {
    assert ([':'] + text)[1..] == text && (['}'] + rest)[1..] == rest;
  }

  lemma NextFieldsAreRead(s: string, f: Field, text: string, next: string, more: seq<Field>, rest: string)
    requires ReadsKey(s, f.key, text) && ReadValue(text) == Some((f.value, [','] + next)) && ReadFields(next) == Some((more, rest))
    ensures ReadFields(s) == Some(([f] + more, rest))
  {
    assert ([':'] + text)[1..] == text && ([','] + next)[1..] == next;
  }

  lemma {:induction false} FieldsAreRead(fields: seq<Field>, rest: string)
    requires fields != [] && FieldsHaveNumbers(fields)
    ensures ReadFields(DumpFields(fields) + (['}'] + rest)) == Some((fields, rest))
    decreases fields, 1
  {
    var f, more, end := fields[0], fields[1..], ['}'] + rest;
    var next := DumpFields(more) + end;
    var after := if more == [] then end else [','] + next;
    var text := Dump(f.value) + after;
    FieldsText(fields, end, after);
    ValueIsRead(f.value, after);
    KeyIsRead(f.key, text);
    if more == [] {
      LastFieldIsRead(Quoted(f.key) + ([':'] + text), f, text, rest);
      assert fields == [f];
    } else {
      FieldsAreRead(more, rest);
      NextFieldsAreRead(Quoted(f.key) + ([':'] + text), f, text, next, more, rest);
      assert fields == [f] + more;
    }
  }

  lemma FieldText(q: string, x: string, more: string, end: string)
    ensures (q + ([':'] + (x + more))) + end == q + ([':'] + (x + (more + end)))
  {
    Assoc(x, more, end);
    Assoc([':'], x + more, end);
    Assoc(q, [':'] + (x + more), end);
  }

  lemma FieldsText(fields: seq<Field>, end: string, after: string)
    requires fields != [] && after == if fields[1..] == [] then end else [','] + (DumpFields(fields[1..]) + end)
    ensures DumpFields(fields) + end == Quoted(fields[0].key) + ([':'] + (Dump(fields[0].value) + after))
  {
    var more := Comma(|fields| - 1) + DumpFields(fields[1..]);
    FieldText(Quoted(fields[0].key), Dump(fields[0].value), more, end);
    MoreText(fields[1..], end);
  }

  lemma MoreText(fields: seq<Field>, end: string)
    ensures (Comma(|fields|) + DumpFields(fields)) + end == if fields == [] then end else [','] + (DumpFields(fields) + end)
  {
    if fields == [] {
      assert [] + [] + end == end;
    } else {
      Assoc([','], DumpFields(fields), end);
    }
  }

  /** So no two values are printed alike. */
  lemma PrintedDiffer(a: Json, b: Json)
    requires HasNumbers(a) && HasNumbers(b) && Dump(a) == Dump(b)
    ensures a == b
  {
    ValueIsRead(a, "");
    ValueIsRead(b, "");
  }
}
