/**
 * Inputs of the JSON cleaner: one whose repeated key makes the shared path stack miss the arguments of a tool call, and
 * values that keep what the JSON parser promises.
 */
module JsonExamples {
  import opened StringUtils
  import opened JsonText
  import opened JsonCleaner
  import opened JsonRouting

  // ----- an input for which they differ -----

  /** The fields in the order of the text, each assigned to its key. */
  function ReadFields(fields: seq<Field>, obj: seq<Field>): seq<Field>
    decreases |fields|
  {
    if fields == [] then obj else ReadFields(fields[1..], SetField(obj, fields[0].key, fields[0].value))
  }

  /** {n: f, x: {}, a: v, x: {b: t}} is read as {n: f, x: {b: t}, a: v}: the repeated key keeps its first place. */
  lemma RepeatedKeyRead(n: Field, x: string, v: Json, a: string, w: Json)
    requires n.key != x && n.key != a && x != a
    ensures ReadFields([n, Field(x, Obj([])), Field(a, v), Field(x, w)], []) == [n, Field(x, w), Field(a, v)]
  {
    var e, g, c := Field(x, Obj([])), Field(a, v), Field(x, w);
    var fields := [n, e, g, c];
    assert fields[1..] == [e, g, c] && fields[1..][1..] == [g, c] && fields[1..][1..][1..] == [c];
    assert fields[1..][1..][1..][1..] == [];
    SetThree(n, e, g, c);
    assert SetField([], n.key, n.value) == [n];
    assert ReadFields(fields, []) == ReadFields([e, g, c], [n]);
    assert ReadFields([e, g, c], [n]) == ReadFields([g, c], [n, e]);
    assert ReadFields([g, c], [n, e]) == ReadFields([c], [n, e, g]);
  }

  lemma SetThree(n: Field, e: Field, g: Field, c: Field)
    requires n.key != e.key && n.key != g.key && e.key != g.key && c.key == e.key
    ensures SetField([n], e.key, e.value) == [n, e] && SetField([n, e], g.key, g.value) == [n, e, g]
    ensures SetField([n, e, g], c.key, c.value) == [n, c, g]
  {
    assert [n][1..] == [] && [n, e][1..] == [e] && [e][1..] == [] && [n, e, g][1..] == [e, g] && [e, g][1..] == [g];
    assert SetField([e], g.key, g.value) == [e, g];
    assert SetField([e, g], c.key, c.value) == [c, g];
  }

  /** The object that is left early keeps its key on the stack. */
  lemma LeftEarly(env: Env, x: string, b: string, t: string)
    requires env.contentPaths == [] && [x] !in env.argsPaths
    requires !Contains(b, env.healingMarker) && Contains(t, env.healingMarker)
    ensures StackClean(env, Obj([Field(b, Str(t))]), [x], false) == Walk(Ok(Obj([])), [x] + [b], true)
    ensures PureClean(env, Obj([Field(b, Str(t))]), [x]) == Pure(Ok(Obj([])), true)
  {
  }

  lemma LastField(env: Env, field: Field, obj: seq<Field>, path: Path, found: bool)
    requires !Contains(field.key, env.healingMarker) && !field.value.Str?
    ensures var w := StackClean(env, field.value, path + [field.key], found);
            w.value.Ok? ==> StackFields(env, [field], obj, path, found).value == Ok(Obj(SetField(obj, field.key, w.value.value)))
    ensures var p := PureClean(env, field.value, path + [field.key]);
            p.value.Ok? ==> PureFields(env, [field], obj, path, found).value == Ok(Obj(SetField(obj, field.key, p.value.value)))
  {
    StackOneField(env, [field], obj, path, found);
    PureOneField(env, [field], obj, path, found);
    assert [field][1..] == [];
  }

  /** With that key on the stack, the arguments behind are not recognised; the walk without a stack dumps them. */
  lemma ArgumentsMisrouted(env: Env, obj: seq<Field>, x: string, a: string, v: seq<Field>)
    requires env.argsPaths == [[a]] && env.contentPaths == [] && x != a && a !in Keys(obj) && !Contains(a, env.healingMarker)
    ensures exists clean ::
              StackFields(env, [Field(a, Obj(v))], obj, [x], true).value == Ok(Obj(obj + [Field(a, Obj(clean))]))
    ensures PureFields(env, [Field(a, Obj(v))], obj, [], true).value
            == Ok(Obj(obj + [Field(a, Str(DumpArguments(env, Obj(v)).0))]))
  {
    var field, dumped := Field(a, Obj(v)), Str(DumpArguments(env, Obj(v)).0);
    assert |[x] + [a]| == 2 && [x] + [a] != [a] && [] + [a] == [a];
    LastField(env, field, obj, [x], true);
    LastField(env, field, obj, [], true);
    NeverFails(env, Obj(v), [x] + [a]);
    StackGoes(env, Obj(v), [x] + [a], true);
    var w := StackClean(env, Obj(v), [x] + [a], true);
    NewField(obj, a, w.value.value);
    NewField(obj, a, dumped);
    assert StackFields(env, [field], obj, [x], true).value == Ok(Obj(obj + [Field(a, Obj(w.value.value.fields))]));
  }

  lemma {:induction false} NeverFails(env: Env, j: Json, path: Path)
    requires env.contentPaths == []
    ensures !Fails(env, j, path, true)
    decreases j, 0
  {
    match j
    case Obj(fields) => FieldsNeverFail(env, fields, path);
    case Arr(items) => ItemsNeverFail(env, items, path);
    case _ =>
  }

  lemma {:induction false} FieldsNeverFail(env: Env, fields: seq<Field>, path: Path)
    requires env.contentPaths == []
    ensures !FieldsFail(env, fields, path, true)
    decreases fields, 1
  {
    if fields != [] {
      var value, inner := fields[0].value, path + [fields[0].key];
      NeverFails(env, value, inner);
      FieldsNeverFail(env, fields[1..], After(env, value, inner));
    }
  }

  lemma {:induction false} ItemsNeverFail(env: Env, items: seq<Json>, path: Path)
    requires env.contentPaths == []
    ensures !ItemsFail(env, items, path, true)
    decreases items, 1
  {
    if items != [] {
      NeverFails(env, items[0], path);
      ItemsNeverFail(env, items[1..], Left(env, items[0], path));
    }
  }

  lemma FirstString(env: Env, fields: seq<Field>, rest: seq<Field>, path: Path)
    requires fields != [] && fields[1..] == rest && fields[0].value.Str?
    requires !Contains(fields[0].key, env.healingMarker) && !Contains(fields[0].value.s, env.healingMarker)
    ensures StackFields(env, fields, [], path, false) == StackFields(env, rest, [fields[0]], path, false)
    ensures PureFields(env, fields, [], path, false) == PureFields(env, rest, [fields[0]], path, false)
  {
    assert SetField([], fields[0].key, fields[0].value) == [fields[0]];
  }

  /** Both walks up to the arguments, where one has a key on its stack. */
  lemma ToArguments(env: Env, n: string, f: string, x: string, a: string, v: seq<Field>, b: string, t: string)
    requires env.argsPaths == [[a]] && env.contentPaths == [] && n != x && x != a && Contains(t, env.healingMarker)
    requires !Contains(n, env.healingMarker) && !Contains(f, env.healingMarker)
    requires !Contains(x, env.healingMarker) && !Contains(b, env.healingMarker)
    ensures var fields := [Field(n, Str(f)), Field(x, Obj([Field(b, Str(t))])), Field(a, Obj(v))];
            var args, obj := [Field(a, Obj(v))], [Field(n, Str(f)), Field(x, Obj([]))];
            && StackFields(env, fields, [], [], false) == StackFields(env, args, obj, [x], true)
            && PureFields(env, fields, [], [], false) == PureFields(env, args, obj, [], true)
  {
    var first, cut, args := Field(n, Str(f)), Field(x, Obj([Field(b, Str(t))])), Field(a, Obj(v));
    var fields, two := [first, cut, args], [cut, args];
    assert fields[1..] == two;
    FirstString(env, fields, two, []);
    SecondObject(env, cut, args, first, b, t);
  }

  lemma SecondObject(env: Env, cut: Field, args: Field, first: Field, b: string, t: string)
    requires env.argsPaths == [[args.key]] && env.contentPaths == [] && first.key != cut.key && cut.key != args.key
    requires !Contains(cut.key, env.healingMarker) && !Contains(b, env.healingMarker) && Contains(t, env.healingMarker)
    requires cut.value == Obj([Field(b, Str(t))])
    ensures var obj := [first, Field(cut.key, Obj([]))];
            && StackFields(env, [cut, args], [first], [], false) == StackFields(env, [args], obj, [cut.key], true)
            && PureFields(env, [cut, args], [first], [], false) == PureFields(env, [args], obj, [], true)
  {
    var x := cut.key;
    assert [cut, args][1..] == [args];
    assert [] + [x] == [x] && [x] != [args.key] && ([x] + [b])[..1] == [x];
    LeftEarly(env, x, b, t);
    SetTwo(first, Field(x, Obj([])));
    StackOneField(env, [cut, args], [first], [], false);
    PureOneField(env, [cut, args], [first], [], false);
  }

  lemma SetTwo(n: Field, e: Field)
    requires n.key != e.key
    ensures SetField([], n.key, n.value) == [n] && SetField([n], e.key, e.value) == [n, e]
  {
    assert [n][1..] == [];
  }

  lemma KeysOfTwo(n: Field, e: Field)
    ensures Keys([n, e]) == {n.key, e.key}
  {
    assert [n, e][1..] == [e] && [e][1..] == [];
    assert Keys([e]) == {e.key} + {};
  }

  /**
   * Cut off in a string of a repeated key, {n: f, x: {}, a: {..}, x: {b: t: whatever is in the arguments, they stay an
   * object, where the walk without a stack dumps them to a string.
   */
  lemma RepeatedKeyMisroutes(env: Env, n: string, f: string, x: string, a: string, v: seq<Field>, b: string, t: string)
    requires env.argsPaths == [[a]] && env.contentPaths == [] && n != x && n != a && x != a
    requires Contains(t, env.healingMarker) && !Contains(n, env.healingMarker) && !Contains(f, env.healingMarker)
    requires !Contains(x, env.healingMarker) && !Contains(b, env.healingMarker) && !Contains(a, env.healingMarker)
    ensures var read := ReadFields([Field(n, Str(f)), Field(x, Obj([])), Field(a, Obj(v)), Field(x, Obj([Field(b, Str(t))]))], []);
            var before := [Field(n, Str(f)), Field(x, Obj([]))];
            && read == [Field(n, Str(f)), Field(x, Obj([Field(b, Str(t))])), Field(a, Obj(v))]
            && (exists clean :: StackClean(env, Obj(read), [], false).value == Ok(Obj(before + [Field(a, Obj(clean))])))
            && PureClean(env, Obj(read), []).value == Ok(Obj(before + [Field(a, Str(DumpArguments(env, Obj(v)).0))]))
  {
    RepeatedKeyRead(Field(n, Str(f)), x, Obj(v), a, Obj([Field(b, Str(t))]));
    ToArguments(env, n, f, x, a, v, b, t);
    KeysOfTwo(Field(n, Str(f)), Field(x, Obj([])));
    ArgumentsMisrouted(env, [Field(n, Str(f)), Field(x, Obj([]))], x, a, v);
  }

  // ----- values that keep the parser's promises -----

  function Digits(s: string): nat {
    if s == "" then 0 else (if '0' <= s[0] <= '9' then 1 else 0) + Digits(s[1..])
  }

  lemma {:induction false} DigitsAppend(a: string, b: string)
    ensures Digits(a + b) == Digits(a) + Digits(b)
    decreases |a|
  {
    if a == "" {
      assert a + b == b;
    } else {
      assert (a + b)[1..] == a[1..] + b;
      DigitsAppend(a[1..], b);
    }
  }

  lemma DigitsCons(c: char, s: string)
    ensures Digits([c] + s) == (if '0' <= c <= '9' then 1 else 0) + Digits(s)
  {
    assert ([c] + s)[1..] == s;
  }

  lemma {:induction false} DigitCounts(s: string, i: nat)
    requires i < |s| && '0' <= s[i] <= '9'
    ensures Digits(s) >= 1
    decreases i
  {
    if i > 0 {
      DigitCounts(s[1..], i - 1);
    }
  }

  lemma {:induction false} TwoDigitsCount(s: string, i: nat, k: nat)
    requires i < k < |s| && '0' <= s[i] <= '9' && '0' <= s[k] <= '9'
    ensures Digits(s) >= 2
    decreases i
  {
    if i > 0 {
      TwoDigitsCount(s[1..], i - 1, k - 1);
    } else {
      DigitCounts(s[1..], k - 1);
    }
  }

  /** A marker of one digit is in a text with one digit at most once. */
  lemma OneDigitOnce(s: string, m: string)
    requires IsMarker(m) && |m| == 1 && Digits(s) <= 1
    ensures AtMostOnce(s, m)
  {
    forall i: nat, k: nat | OccursAt(s, m, i) && OccursAt(s, m, k) ensures i == k {
      assert s[i..i + 1][0] == m[0] && s[k..k + 1][0] == m[0];
      if i < k {
        TwoDigitsCount(s, i, k);
      } else if k < i {
        TwoDigitsCount(s, k, i);
      }
    }
  }

  lemma QuotedDigits(s: string)
    ensures Digits(Quoted(s)) == Digits(Escape(s))
  {
    DigitsCons('"', Escape(s) + ['"']);
    DigitsAppend(Escape(s), ['"']);
    assert ['"'] == ['"'] + [];
    DigitsCons('"', []);
  }

  lemma CommaDigits(n: nat)
    ensures Digits(Comma(n)) == 0
  {
    assert [','][1..] == [];
  }

  lemma FieldsDigits(fields: seq<Field>)
    requires fields != []
    ensures Digits(DumpFields(fields))
            == Digits(Escape(fields[0].key)) + Digits(Dump(fields[0].value)) + Digits(DumpFields(fields[1..]))
  {
    var comma, rest := Comma(|fields| - 1), DumpFields(fields[1..]);
    var value := Dump(fields[0].value) + (comma + rest);
    QuotedDigits(fields[0].key);
    DigitsAppend(Quoted(fields[0].key), [':'] + value);
    DigitsCons(':', value);
    DigitsAppend(Dump(fields[0].value), comma + rest);
    DigitsAppend(comma, rest);
    CommaDigits(|fields| - 1);
  }

  lemma ObjectDigits(fields: seq<Field>)
    ensures Digits(Dump(Obj(fields))) == Digits(DumpFields(fields))
  {
    DigitsCons('{', DumpFields(fields) + ['}']);
    DigitsAppend(DumpFields(fields), ['}']);
    assert ['}'] == ['}'] + [];
    DigitsCons('}', []);
  }

  /** Letters are printed as they are, and are no digits. */
  lemma {:induction false} LetterDigits(s: string)
    requires forall i :: 0 <= i < |s| ==> 'a' <= s[i] <= 'z'
    ensures Digits(Escape(s)) == 0
    decreases |s|
  {
    if s != "" {
      LetterDigits(s[1..]);
      DigitsCons(s[0], Escape(s[1..]));
      assert EscapeChar(s[0]) == [s[0]];
    }
  }

  predicate Letters(s: string) {
    forall i :: 0 <= i < |s| ==> 'a' <= s[i] <= 'z'
  }

  /** {n: f, x: {b: m}, a: {c: null}}, as it is read from the input above. */
  function Example(n: string, f: string, x: string, b: string, m: string, a: string, c: string): Json {
    Obj([Field(n, Str(f)), Field(x, Obj([Field(b, Str(m))])), Field(a, Obj([Field(c, Null)]))])
  }

  lemma OneFieldDigits(field: Field)
    ensures Digits(Dump(Obj([field]))) == Digits(Escape(field.key)) + Digits(Dump(field.value))
  {
    ObjectDigits([field]);
    FieldsDigits([field]);
    assert [field][1..] == [];
  }

  lemma ThreeFieldsDigits(first: Field, second: Field, third: Field)
    ensures Digits(Dump(Obj([first, second, third])))
            == Digits(Escape(first.key)) + Digits(Dump(first.value)) + Digits(Escape(second.key)) + Digits(Dump(second.value))
               + Digits(Escape(third.key)) + Digits(Dump(third.value))
  {
    var fields := [first, second, third];
    assert fields[1..] == [second, third] && fields[1..][1..] == [third] && [third][1..] == [];
    ObjectDigits(fields);
    FieldsDigits(fields);
    FieldsDigits([second, third]);
    FieldsDigits([third]);
  }

  lemma NullDigits()
    ensures Digits(Dump(Null)) == 0
  {
    var s := Dump(Null);
    assert s[1..][1..][1..][1..] == [];
  }

  lemma ExampleDigits(n: string, f: string, x: string, b: string, m: string, a: string, c: string)
    requires Letters(n) && Letters(f) && Letters(x) && Letters(b) && Letters(a) && Letters(c)
    ensures Digits(Dump(Example(n, f, x, b, m, a, c))) == Digits(Escape(m))
  {
    ThreeFieldsDigits(Field(n, Str(f)), Field(x, Obj([Field(b, Str(m))])), Field(a, Obj([Field(c, Null)])));
    OneFieldDigits(Field(b, Str(m)));
    OneFieldDigits(Field(c, Null));
    QuotedDigits(f);
    QuotedDigits(m);
    LetterDigits(n);
    LetterDigits(f);
    LetterDigits(x);
    LetterDigits(b);
    LetterDigits(a);
    LetterDigits(c);
    NullDigits();
  }

  lemma FieldShows(fields: seq<Field>, pattern: string)
    requires fields != []
    ensures Contains(Dump(fields[0].value), pattern) || Contains(DumpFields(fields[1..]), pattern) ==>
              Contains(DumpFields(fields), pattern) && Contains(Dump(Obj(fields)), pattern)
  {
    var p, q := FieldPieces(fields);
    InsideMiddle(['{'], DumpFields(fields), ['}']);
    if Contains(Dump(fields[0].value), pattern) {
      ContainsInside(DumpFields(fields), p, Dump(fields[0].value), pattern);
    } else if Contains(DumpFields(fields[1..]), pattern) {
      ContainsInside(DumpFields(fields), q, DumpFields(fields[1..]), pattern);
    }
    if Contains(DumpFields(fields), pattern) {
      ContainsInside(Dump(Obj(fields)), 1, DumpFields(fields), pattern);
    }
  }

  lemma ExampleShows(n: string, f: string, x: string, b: string, m: string, a: string, c: string, pattern: string)
    requires Contains(Quoted(m), pattern)
    ensures Contains(Dump(Example(n, f, x, b, m, a, c)), pattern)
  {
    var first, cut, args := Field(n, Str(f)), Field(x, Obj([Field(b, Str(m))])), Field(a, Obj([Field(c, Null)]));
    assert [first, cut, args][1..] == [cut, args];
    FieldShows([Field(b, Str(m))], pattern);
    FieldShows([cut, args], pattern);
    FieldShows([first, cut, args], pattern);
  }

  lemma MarkerShows(m: string)
    requires IsMarker(m)
    ensures Contains(m, m) && Contains(Quoted(m), m) && Contains(Quoted(m), ['"'] + m)
  {
    EscapeDigits(m);
    assert OccursAt(m, m, 0);
    InsideMiddle(['"'], m, ['"']);
    ContainsInside(Quoted(m), 1, m, m);
    assert Quoted(m)[0..1 + |m|] == ['"'] + m;
    assert OccursAt(Quoted(m), ['"'] + m, 0);
  }

  lemma OneFieldUnique(field: Field)
    requires UniqueKeys(field.value)
    ensures UniqueKeys(Obj([field]))
  {
    assert [field][1..] == [];
  }

  lemma ExampleKeys(n: string, f: string, x: string, b: string, m: string, a: string, c: string)
    requires n != x && n != a && x != a
    ensures UniqueKeys(Example(n, f, x, b, m, a, c))
  {
    var first, cut, args := Field(n, Str(f)), Field(x, Obj([Field(b, Str(m))])), Field(a, Obj([Field(c, Null)]));
    assert [first, cut, args][1..] == [cut, args] && [cut, args][1..] == [args] && [args][1..] == [];
    assert Keys([args]) == {a} + {};
    KeysOfTwo(cut, args);
    OneFieldUnique(Field(b, Str(m)));
    OneFieldUnique(Field(c, Null));
    assert UniqueInFields([args]);
    assert UniqueInFields([cut, args]);
  }

  /**
   * Such values keep the parser's promises, whether the input was cut off in the string or before it: for every marker of
   * one digit, and keys of letters. So the promises can be met, also by the input that is misrouted.
   */
  lemma ExampleKeepsPromises(n: string, f: string, x: string, b: string, m: string, a: string, c: string)
    requires n != x && n != a && x != a && IsMarker(m) && |m| == 1
    requires Letters(n) && Letters(f) && Letters(x) && Letters(b) && Letters(a) && Letters(c)
    ensures var json := Example(n, f, x, b, m, a, c);
            ParserContract(Parsed(json, m, m), m) && ParserContract(Parsed(json, m, ['"'] + m), m)
  {
    var json := Example(n, f, x, b, m, a, c);
    ExampleKeys(n, f, x, b, m, a, c);
    ExampleDigits(n, f, x, b, m, a, c);
    EscapeDigits(m);
    assert m[1..] == [] && Digits(m) == 1;
    OneDigitOnce(Dump(json), m);
    MarkerShows(m);
    ExampleShows(n, f, x, b, m, a, c, m);
    ExampleShows(n, f, x, b, m, a, c, ['"'] + m);
    ExampleMarked(n, f, x, b, m, a, c);
  }

  lemma ExampleMarked(n: string, f: string, x: string, b: string, m: string, a: string, c: string)
    requires Contains(m, m)
    ensures !Unmarked(m, Example(n, f, x, b, m, a, c))
  {
    var first, cut, args := Field(n, Str(f)), Field(x, Obj([Field(b, Str(m))])), Field(a, Obj([Field(c, Null)]));
    assert [first, cut, args][1..] == [cut, args];
    var inner := [Field(b, Str(m))];
    assert !Unmarked(m, inner[0].value);
    assert !FieldsUnmarked(m, inner);
    assert !Unmarked(m, [cut, args][0].value);
    assert !FieldsUnmarked(m, [cut, args]);
  }

  /** And complete input does: values of letters only. */
  lemma CompleteKeepsPromises(n: string, f: string, m: string)
    requires IsMarker(m) && Letters(n) && Letters(f)
    ensures ParserContract(Parsed(Obj([Field(n, Str(f))]), "", ""), m)
  {
    var field := Field(n, Str(f));
    OneFieldDigits(field);
    QuotedDigits(f);
    LetterDigits(n);
    LetterDigits(f);
    OneFieldUnique(field);
    if Contains(Dump(Obj([field])), m) {
      var i := Find(Dump(Obj([field])), m, 0).value;
      assert Dump(Obj([field]))[i..i + |m|][0] == m[0];
      DigitCounts(Dump(Obj([field])), i);
    }
  }

  lemma ValuesDiffer(env: Env, n: string, f: string, x: string, b: string, m: string, a: string, c: string)
    requires n != x && n != a && x != a && IsMarker(m) && env == Env([[a]], [], true, m, m, m)
    requires Letters(n) && Letters(f) && Letters(x) && Letters(b) && Letters(a)
    ensures var json := Example(n, f, x, b, m, a, c);
            StackClean(env, json, [], false).value != PureClean(env, json, []).value && PureClean(env, json, []).value.Ok?
  {
    var json, v := Example(n, f, x, b, m, a, c), [Field(c, Null)];
    var before, dumped := [Field(n, Str(f)), Field(x, Obj([]))], Str(DumpArguments(env, Obj(v)).0);
    MarkerShows(m);
    RepeatedKeyMisroutes(env, n, f, x, a, v, b, m);
    var clean :| StackClean(env, json, [], false).value == Ok(Obj(before + [Field(a, Obj(clean))]));
    SnocEqual(before, Field(a, Obj(clean)), before, Field(a, dumped));
  }

  /** Cut off in a repeated key, with the arguments in between: the two walks differ, though the promises are kept. */
  lemma ExampleMisrouted(env: Env, n: string, f: string, x: string, b: string, m: string, a: string, c: string)
    requires n != x && n != a && x != a && IsMarker(m) && |m| == 1 && env == Env([[a]], [], true, m, m, m)
    requires Letters(n) && Letters(f) && Letters(x) && Letters(b) && Letters(a) && Letters(c)
    ensures var json := Example(n, f, x, b, m, a, c);
            && ParserContract(Parsed(json, m, m), m) && !SameRoute(env, json, [], [])
            && StackClean(env, json, [], false).value != PureClean(env, json, []).value
  {
    var json := Example(n, f, x, b, m, a, c);
    ExampleKeepsPromises(n, f, x, b, m, a, c);
    ValuesDiffer(env, n, f, x, b, m, a, c);
    NotSameRoute(env, Parsed(json, m, m));
  }

  lemma NotSameRoute(env: Env, parsed: Parsed)
    requires ParserContract(parsed, env.healingMarker) && ReportedBy(env, parsed) && env.isPartial && env.marker != ""
    requires env.contentPaths == [] && StackClean(env, parsed.json, [], false).value != PureClean(env, parsed.json, []).value
    requires PureClean(env, parsed.json, []).value.Ok?
    ensures !SameRoute(env, parsed.json, [], [])
  {
    StackEqualsPureExactlyWhen(env, parsed);
    NeverFails(env, parsed.json, []);
    PureComes(env, parsed.json, []);
  }

  /** As for a tool call, whose arguments then stay an object where a string is asked for. */
  lemma ToolCallMisrouted(env: Env)
    requires env == Env([["arguments"]], [], true, "7", "7", "7")
    ensures var json := Example("name", "f", "x", "b", "7", "arguments", "a");
            StackClean(env, json, [], false).value != PureClean(env, json, []).value
  {
    ExampleMisrouted(env, "name", "f", "x", "b", "7", "arguments", "a");
  }

  /**
   * A string that the escapes of complete input spell as the marker, such as "\u0037" where the marker is "7", is lost, and
   * the input is called partial.
   */
  lemma SpelledMarkerIsCut(env: Env, k: string, s: string)
    requires env.marker == "" && Contains(s, env.healingMarker) && !Contains(k, env.healingMarker)
    requires [] !in env.argsPaths && [] !in env.contentPaths && [k] !in env.contentPaths
    ensures StackClean(env, Obj([Field(k, Str(s))]), [], false) == Walk(Ok(Obj([])), [k], true)
  {
    var fields := [Field(k, Str(s))];
    assert [] + [k] == [k];
    assert StackFields(env, fields, [], [], false) == Walk(Ok(Obj([])), [k], true);
  }
}
