/**
 * The cleaner that takes healing markers out of a JSON value that was completed ("healed") after being cut off, and
 * turns the subtrees at given paths into dumped strings. It walks the value with one shared path stack.
 */
module JsonCleaner {
  import opened StringUtils
  import opened JsonText

  type Path = seq<string>

  /**
   * What the walk reads and never changes. `healingMarker` is the parser's own marker; `marker` and `dumpMarker` are
   * those the JSON parser reports, empty if nothing was healed.
   */
  datatype Env = Env(
    argsPaths: seq<Path>, contentPaths: seq<Path>, isPartial: bool,
    healingMarker: string, marker: string, dumpMarker: string)

  // ----- the two ways to treat a leaf path -----

  /** The subtree printed, and cut at the marker; the flag says whether it was cut. */
  function DumpArguments(env: Env, j: Json): (string, bool) {
    var arguments := Dump(j);
    if env.isPartial && env.marker != "" then
      var idx := Find(arguments, env.dumpMarker, 0);
      var cut := if idx.Some? then arguments[..idx.value] else arguments;
      (if cut == "\"" then "" else cut, idx.Some?)
    else (arguments, false)
  }

  function CutContent(env: Env, s: string): (string, bool) {
    var idx := Find(s, env.marker, 0);
    if idx.Some? then (s[..idx.value], true) else (s, false)
  }

  // ----- the walk with the shared stack -----

  /** The value, the path stack left behind, and the marker flag; an Err is the exception, after which nothing is read. */
  datatype Walk = Walk(value: Result<Json>, path: Path, found: bool)

  function StackClean(env: Env, j: Json, path: Path, found: bool): (w: Walk)
    ensures w.value.Ok? ==> path <= w.path
    decreases j, 0
  {
    if path in env.argsPaths then
      var (arguments, cut) := DumpArguments(env, j);
      Walk(Ok(Str(arguments)), path, found || cut)
    else if path in env.contentPaths then
      if !j.Str? then Walk(Err("Content path must be a string"), path, found)
      else
        var (str, cut) := CutContent(env, j.s);
        Walk(Ok(Str(str)), path, found || cut)
    else match j
      case Obj(fields) => StackFields(env, fields, [], path, found)
      case Arr(items) => StackItems(env, items, [], path, found)
      case _ => Walk(Ok(j), path, found)
  }

  /** The loop over an object. Leaving it early on a string value leaves that value's key on the stack. */
  function StackFields(env: Env, fields: seq<Field>, obj: seq<Field>, path: Path, found: bool): (w: Walk)
    ensures w.value.Ok? ==> path <= w.path && w.value.value.Obj?
    decreases fields, 1
  {
    if fields == [] then Walk(Ok(Obj(obj)), path, found)
    else
      var key, value, inner := fields[0].key, fields[0].value, path + [fields[0].key];
      if Contains(key, env.healingMarker) then Walk(Ok(Obj(obj)), path, true)
      else if value.Str? then
        if Contains(value.s, env.healingMarker) then
          if inner in env.contentPaths && env.marker == env.dumpMarker then
            var w := StackClean(env, value, inner, true);
            if w.value.Err? then w else Walk(Ok(Obj(SetField(obj, key, w.value.value))), w.path, w.found)
          else Walk(Ok(Obj(obj)), inner, true)
        else StackFields(env, fields[1..], SetField(obj, key, value), path, found)
      else
        var w := StackClean(env, value, inner, found);
        if w.value.Err? then w
        else StackFields(env, fields[1..], SetField(obj, key, w.value.value), w.path[..|w.path| - 1], w.found)
  }

  function StackItems(env: Env, items: seq<Json>, arr: seq<Json>, path: Path, found: bool): (w: Walk)
    ensures w.value.Ok? ==> path <= w.path && w.value.value.Arr?
    decreases items, 1
  {
    if items == [] then Walk(Ok(Arr(arr)), path, found)
    else if items[0].Str? && Contains(items[0].s, env.healingMarker) then Walk(Ok(Arr(arr)), path, true)
    else
      var w := StackClean(env, items[0], path, found);
      if w.value.Err? then w
      else StackItems(env, items[1..], arr + [w.value.value], w.path, w.found)
  }

  /** The walk as the source runs it: `path` and `found` are captured variables of the recursive closure. */
  class Cleaner {
    const env: Env
    var path: Path
    var found: bool

    constructor (env: Env)
      ensures this.env == env && path == [] && !found
    {
      this.env := env;
      path, found := [], false;
    }

    method Clean(j: Json) returns (r: Result<Json>)
      modifies this
      ensures var w := StackClean(env, j, old(path), old(found));
              r == w.value && (r.Ok? ==> path == w.path && found == w.found)
      decreases j, 0
    {
      if path in env.argsPaths {
        var arguments := Dump(j);
        if env.isPartial && env.marker != "" {
          var idx := Find(arguments, env.dumpMarker, 0);
          if idx.Some? {
            arguments := arguments[..idx.value];
            found := true;
          }
          if arguments == "\"" {
            arguments := "";
          }
        }
        return Ok(Str(arguments));
      }
      if path in env.contentPaths {
        if !j.Str? {
          return Err("Content path must be a string");
        }
        var str := j.s;
        var idx := Find(str, env.marker, 0);
        if idx.Some? {
          str := str[..idx.value];
          found := true;
        }
        return Ok(Str(str));
      }
      if j.Obj? {
        r := CleanObject(j.fields);
      } else if j.Arr? {
        r := CleanArray(j.items);
      } else {
        r := Ok(j);
      }
    }

    method CleanObject(fields: seq<Field>) returns (r: Result<Json>)
      modifies this
      ensures var w := StackFields(env, fields, [], old(path), old(found));
              r == w.value && (r.Ok? ==> path == w.path && found == w.found)
      decreases fields, 1
    {
      var obj: seq<Field> := [];
      for i := 0 to |fields|
        invariant StackFields(env, fields[i..], obj, path, found)
               == StackFields(env, fields, [], old(path), old(found))
      {
        var key, value := fields[i].key, fields[i].value;
        assert fields[i..][0] == fields[i] && fields[i..][1..] == fields[i + 1..];
        if Contains(key, env.healingMarker) {
          found := true;
          return Ok(Obj(obj));
        }
        path := path + [key];
        if value.Str? {
          if Contains(value.s, env.healingMarker) {
            found := true;
            if path in env.contentPaths {
              if env.marker == env.dumpMarker {
                var cleaned := Clean(value);
                if cleaned.Err? { return cleaned; }
                obj := SetField(obj, key, cleaned.value);
              }
            }
            return Ok(Obj(obj));
          }
          obj := SetField(obj, key, value);
        } else {
          var cleaned := Clean(value);
          if cleaned.Err? { return cleaned; }
          obj := SetField(obj, key, cleaned.value);
        }
        path := path[..|path| - 1];
      }
      r := Ok(Obj(obj));
    }

    method CleanArray(items: seq<Json>) returns (r: Result<Json>)
      modifies this
      ensures var w := StackItems(env, items, [], old(path), old(found));
              r == w.value && (r.Ok? ==> path == w.path && found == w.found)
      decreases items, 1
    {
      var arr: seq<Json> := [];
      for i := 0 to |items|
        invariant StackItems(env, items[i..], arr, path, found)
               == StackItems(env, items, [], old(path), old(found))
      {
        var value := items[i];
        assert items[i..][0] == value && items[i..][1..] == items[i + 1..];
        if value.Str? && Contains(value.s, env.healingMarker) {
          found := true;
          return Ok(Arr(arr));
        }
        var cleaned := Clean(value);
        if cleaned.Err? { return cleaned; }
        arr := arr + [cleaned.value];
      }
      r := Ok(Arr(arr));
    }
  }

  // ----- the walk one would write without a shared stack -----

  /** The path is passed down, so nothing can be left behind on it; the flag is passed up. */
  datatype Pure = Pure(value: Result<Json>, found: bool)

  function PureClean(env: Env, j: Json, path: Path): Pure
    decreases j, 0
  {
    if path in env.argsPaths then
      var (arguments, cut) := DumpArguments(env, j);
      Pure(Ok(Str(arguments)), cut)
    else if path in env.contentPaths then
      if !j.Str? then Pure(Err("Content path must be a string"), false)
      else
        var (str, cut) := CutContent(env, j.s);
        Pure(Ok(Str(str)), cut)
    else match j
      case Obj(fields) => PureFields(env, fields, [], path, false)
      case Arr(items) => PureItems(env, items, [], path, false)
      case _ => Pure(Ok(j), false)
  }

  function PureFields(env: Env, fields: seq<Field>, obj: seq<Field>, path: Path, found: bool): (p: Pure)
    ensures p.value.Ok? ==> (found ==> p.found) && p.value.value.Obj?
    decreases fields, 1
  {
    if fields == [] then Pure(Ok(Obj(obj)), found)
    else
      var key, value, inner := fields[0].key, fields[0].value, path + [fields[0].key];
      if Contains(key, env.healingMarker) then Pure(Ok(Obj(obj)), true)
      else if value.Str? && !Contains(value.s, env.healingMarker) then
        PureFields(env, fields[1..], SetField(obj, key, value), path, found)
      else if value.Str? && !(inner in env.contentPaths && env.marker == env.dumpMarker) then Pure(Ok(Obj(obj)), true)
      else
        var p := PureClean(env, value, inner);
        if p.value.Err? then p
        else if value.Str? then Pure(Ok(Obj(SetField(obj, key, p.value.value))), true)
        else PureFields(env, fields[1..], SetField(obj, key, p.value.value), path, found || p.found)
  }

  function PureItems(env: Env, items: seq<Json>, arr: seq<Json>, path: Path, found: bool): (p: Pure)
    ensures p.value.Ok? ==> (found ==> p.found) && p.value.value.Arr?
    decreases items, 1
  {
    if items == [] then Pure(Ok(Arr(arr)), found)
    else if items[0].Str? && Contains(items[0].s, env.healingMarker) then Pure(Ok(Arr(arr)), true)
    else
      var p := PureClean(env, items[0], path);
      if p.value.Err? then p
      else PureItems(env, items[1..], arr + [p.value.value], path, found || p.found)
  }

  // ----- where the marker may be -----

  /** The marker, if it occurs, is in the key or string that a left-to-right walk reaches last. */
  predicate MarkerLast(m: string, j: Json)
    decreases j, 0
  {
    match j
    case Arr(items) => ItemsLast(m, items)
    case Obj(fields) => FieldsLast(m, fields)
    case _ => true
  }

  predicate ItemsLast(m: string, items: seq<Json>)
    decreases items, 1
  {
    || items == []
    || (Unmarked(m, items[0]) && ItemsLast(m, items[1..]))
    || (|items| == 1 && MarkerLast(m, items[0]))
  }

  predicate FieldsLast(m: string, fields: seq<Field>)
    decreases fields, 1
  {
    || fields == []
    || (!Contains(fields[0].key, m) && Unmarked(m, fields[0].value) && FieldsLast(m, fields[1..]))
    || (|fields| == 1 && (Contains(fields[0].key, m) || MarkerLast(m, fields[0].value)))
  }

  lemma {:induction false} UnmarkedIsLast(m: string, j: Json)
    requires Unmarked(m, j)
    ensures MarkerLast(m, j)
    decreases j, 0
  {
    match j
    case Arr(items) => UnmarkedItemsAreLast(m, items);
    case Obj(fields) => UnmarkedFieldsAreLast(m, fields);
    case _ =>
  }

  lemma {:induction false} UnmarkedItemsAreLast(m: string, items: seq<Json>)
    requires ItemsUnmarked(m, items)
    ensures ItemsLast(m, items)
    decreases items, 1
  {
    if items != [] {
      UnmarkedItemsAreLast(m, items[1..]);
    }
  }

  lemma {:induction false} UnmarkedFieldsAreLast(m: string, fields: seq<Field>)
    requires FieldsUnmarked(m, fields)
    ensures FieldsLast(m, fields)
    decreases fields, 1
  {
    if fields != [] {
      UnmarkedFieldsAreLast(m, fields[1..]);
    }
  }

  // ----- the shared stack does no harm -----

  predicate Agree(w: Walk, p: Pure, path: Path, found: bool, restored: bool) {
    && w.value == p.value
    && (w.value.Ok? ==> w.found == (found || p.found))
    && (w.value.Ok? && restored ==> w.path == path)
  }

  /**
   * With the marker where the JSON parser puts it, the walk with the shared stack gives the value and the flag of the
   * pure walk, although it leaves keys behind on the stack; without a marker it even leaves the stack as it was.
   */
  lemma {:induction false} StackEqualsPure(env: Env, j: Json, path: Path, found: bool)
    requires MarkerLast(env.healingMarker, j)
    ensures Agree(StackClean(env, j, path, found), PureClean(env, j, path), path, found, Unmarked(env.healingMarker, j))
    decreases j, 0
  {
    if path !in env.argsPaths && path !in env.contentPaths {
      match j
      case Obj(fields) => StackFieldsEqualPure(env, fields, [], path, found, false);
      case Arr(items) => StackItemsEqualPure(env, items, [], path, found, false);
      case _ =>
    }
  }

  lemma {:induction false} StackFieldsEqualPure(
    env: Env, fields: seq<Field>, obj: seq<Field>, path: Path, found: bool, seen: bool)
    requires FieldsLast(env.healingMarker, fields) && (seen ==> found)
    ensures Agree(StackFields(env, fields, obj, path, found), PureFields(env, fields, obj, path, seen),
                  path, found, FieldsUnmarked(env.healingMarker, fields))
    decreases fields, 1
  {
    if fields != [] && !Contains(fields[0].key, env.healingMarker) {
      var m, key, value, inner := env.healingMarker, fields[0].key, fields[0].value, path + [fields[0].key];
      if Unmarked(m, value) {
        UnmarkedIsLast(m, value);
      }
      if value.Str? {
        if Contains(value.s, m) {
          StackEqualsPure(env, value, inner, true);
        } else {
          StackFieldsEqualPure(env, fields[1..], SetField(obj, key, value), path, found, seen);
        }
      } else {
        StackEqualsPure(env, value, inner, found);
        var w, p := StackClean(env, value, inner, found), PureClean(env, value, inner);
        if w.value.Ok? {
          var next := SetField(obj, key, w.value.value);
          if Unmarked(m, value) {
            assert w.path[..|w.path| - 1] == path;
            StackFieldsEqualPure(env, fields[1..], next, path, w.found, seen || p.found);
          } else {
            assert fields[1..] == [];
          }
        }
      }
    }
  }

  lemma {:induction false} StackItemsEqualPure(
    env: Env, items: seq<Json>, arr: seq<Json>, path: Path, found: bool, seen: bool)
    requires ItemsLast(env.healingMarker, items) && (seen ==> found)
    ensures Agree(StackItems(env, items, arr, path, found), PureItems(env, items, arr, path, seen),
                  path, found, ItemsUnmarked(env.healingMarker, items))
    decreases items, 1
  {
    if items != [] && !(items[0].Str? && Contains(items[0].s, env.healingMarker)) {
      var m := env.healingMarker;
      if Unmarked(m, items[0]) {
        UnmarkedIsLast(m, items[0]);
      }
      StackEqualsPure(env, items[0], path, found);
      var w, p := StackClean(env, items[0], path, found), PureClean(env, items[0], path);
      if w.value.Ok? {
        if Unmarked(m, items[0]) {
          StackItemsEqualPure(env, items[1..], arr + [w.value.value], path, w.found, seen || p.found);
        } else {
          assert items[1..] == [];
        }
      }
    }
  }

  // ----- what the cleaning achieves -----

  /** The JSON parser healed its input: it reports the parser's own marker, and that marker behind at most two characters. */
  predicate Healed(env: Env) {
    && env.isPartial && env.marker == env.healingMarker && IsMarker(env.marker)
    && IsMarkerBehind(env.dumpMarker, env.marker)
  }

  predicate IsMarkerBehind(dumpMarker: string, m: string) {
    |m| <= |dumpMarker| <= |m| + 2 && dumpMarker[|dumpMarker| - |m|..] == m
  }

  /** The text of a whole value, which shows the marker once, and there as the dump marker. */
  ghost predicate HealedText(env: Env, text: string) {
    AtMostOnce(text, env.marker) && Contains(text, env.dumpMarker)
  }

  lemma MarkerInDumpMarker(s: string, dm: string, m: string, k: nat, i: nat)
    requires IsMarkerBehind(dm, m) && OccursAt(s, dm, k) && i == k + (|dm| - |m|)
    ensures OccursAt(s, m, i)
  {
    SliceOfSlice(s, k, k + |dm|, |dm| - |m|, |dm|);
  }

  /** The dump marker is where the marker is. */
  lemma DumpMarkerAt(env: Env, text: string, i: nat) returns (k: nat)
    requires Healed(env) && HealedText(env, text) && OccursAt(text, env.marker, i)
    ensures i == k + (|env.dumpMarker| - |env.marker|) && OccursAt(text, env.dumpMarker, k)
  {
    k := Find(text, env.dumpMarker, 0).value;
    var at := k + (|env.dumpMarker| - |env.marker|);
    MarkerInDumpMarker(text, env.dumpMarker, env.marker, k, at);
  }

  lemma CutIsFree(s: string, m: string, i: nat)
    requires Find(s, m, 0) == Some(i)
    ensures !Contains(s[..i], m) || m == ""
  {
    if m != "" && Contains(s[..i], m) {
      var k := Find(s[..i], m, 0).value;
      assert s[..i] == s[0..i];
      OccursInSlice(s, 0, i, m, k);
    }
  }

  lemma BeforeOnlyIsFree(s: string, m: string, i: nat, k: nat)
    requires AtMostOnce(s, m) && OccursAt(s, m, i) && k <= i && m != ""
    ensures !Contains(s[..k], m)
  {
    if Contains(s[..k], m) {
      var n := Find(s[..k], m, 0).value;
      assert s[..k] == s[0..k];
      OccursInSlice(s, 0, k, m, n);
    }
  }

  lemma CutShowsNothing(x: string, dm: string, m: string)
    requires IsMarkerBehind(dm, m) && m != "" && AtMostOnce(x, m) && Contains(x, dm)
    ensures !Contains(x[..Find(x, dm, 0).value], m)
  {
    var c := Find(x, dm, 0).value;
    var n := c + (|dm| - |m|);
    MarkerInDumpMarker(x, dm, m, c, n);
    BeforeOnlyIsFree(x, m, n, c);
  }

  /** A part of the text in which the dump marker fits in front of the marker shows it. */
  lemma DumpMarkerInPart(env: Env, text: string, a: nat, x: string, i: nat)
    requires Healed(env) && HealedText(env, text) && Inside(text, a, x)
    requires OccursAt(x, env.marker, i) && i + |env.marker| >= |env.dumpMarker|
    ensures Contains(x, env.dumpMarker)
  {
    OccursInside(text, a, x, env.marker, i);
    var at := a + i;
    var k := DumpMarkerAt(env, text, at);
    var c := OccursBack(text, a, x, env.dumpMarker, k);
  }

  lemma OccursBack(s: string, a: nat, x: string, pattern: string, k: nat) returns (i: nat)
    requires Inside(s, a, x) && OccursAt(s, pattern, k) && a <= k && k + |pattern| <= a + |x|
    ensures k == a + i && OccursAt(x, pattern, i)
  {
    i := k - a;
    SliceOfSlice(s, a, a + |x|, i, i + |pattern|);
  }

  /** Dumped arguments show no marker, and are cut exactly if they did. */
  lemma ArgumentsAreExact(env: Env, text: string, a: nat, j: Json)
    requires Healed(env) && HealedText(env, text) && Inside(text, a, Dump(j)) && Single(env.marker, j)
    requires j.Obj? || j.Arr? || Unmarked(env.marker, j) || env.dumpMarker == env.marker
    ensures var (arguments, cut) := DumpArguments(env, j);
            !Contains(arguments, env.marker) && (cut <==> !Unmarked(env.marker, j))
  {
    var m, dm := env.marker, env.dumpMarker;
    if Unmarked(m, j) {
      if Contains(Dump(j), dm) {
        var k := Find(Dump(j), dm, 0).value;
        MarkerInDumpMarker(Dump(j), dm, m, k, k + (|dm| - |m|));
      }
    } else {
      var i := MarkedShows(j, m);
      DumpMarkerInPart(env, text, a, Dump(j), i);
      CutShowsNothing(Dump(j), dm, m);
    }
  }

  /** A value the walk can rid of its marker: a container, or a marked string only where the walk cuts strings. */
  predicate Cleanable(env: Env, j: Json, path: Path) {
    || j.Obj? || j.Arr? || Unmarked(env.marker, j)
    || (path in env.contentPaths && env.marker == env.dumpMarker)
  }

  /** No marker is left in a result, and the flag is set exactly if it was or the value was marked. */
  predicate Exact(m: string, w: Walk, found: bool, marked: bool) {
    w.value.Ok? ==> MarkerFree(m, w.value.value) && (w.found <==> found || marked)
  }

  /**
   * The walk with the shared stack, wherever in a healed text it is and whatever is on the stack: no marker survives
   * anywhere in the result, and the flag is set exactly if the value was marked.
   */
  lemma {:induction false} StackCleanIsExact(env: Env, text: string, a: nat, j: Json, path: Path, found: bool)
    requires Healed(env) && HealedText(env, text) && Inside(text, a, Dump(j)) && Single(env.marker, j)
    requires Cleanable(env, j, path)
    ensures Exact(env.marker, StackClean(env, j, path, found), found, !Unmarked(env.marker, j))
    decreases j, 0
  {
    var m := env.marker;
    if path in env.argsPaths {
      ArgumentsAreExact(env, text, a, j);
    } else if path in env.contentPaths {
      if j.Str? && Contains(j.s, m) {
        CutIsFree(j.s, m, Find(j.s, m, 0).value);
      }
    } else {
      SingleInside(m, j);
      match j
      case Obj(fields) =>
        var p := ContentsInside(text, a, j);
        StackFieldsAreExact(env, text, p, fields, [], path, found);
      case Arr(items) =>
        var p := ContentsInside(text, a, j);
        StackItemsAreExact(env, text, p, items, [], path, found);
      case _ =>
    }
  }

  lemma ContentsInside(text: string, a: nat, j: Json) returns (p: nat)
    requires Inside(text, a, Dump(j))
    ensures j.Obj? ==> Inside(text, p, DumpFields(j.fields))
    ensures j.Arr? ==> Inside(text, p, DumpItems(j.items))
  {
    p := a + 1;
    if j.Obj? {
      InsideMiddle(['{'], DumpFields(j.fields), ['}']);
      InsideTrans(text, a, Dump(j), 1, DumpFields(j.fields));
    } else if j.Arr? {
      InsideMiddle(['['], DumpItems(j.items), [']']);
      InsideTrans(text, a, Dump(j), 1, DumpItems(j.items));
    }
  }

  lemma FieldsInside(text: string, a: nat, fields: seq<Field>) returns (p: nat, q: nat)
    requires fields != [] && Inside(text, a, DumpFields(fields))
    ensures Inside(text, p, Dump(fields[0].value)) && Inside(text, q, DumpFields(fields[1..]))
  {
    var i, k := FieldPieces(fields);
    p, q := a + i, a + k;
    var whole, value, rest := DumpFields(fields), Dump(fields[0].value), DumpFields(fields[1..]);
    InsideTrans(text, a, whole, i, value);
    InsideTrans(text, a, whole, k, rest);
  }

  lemma ItemsInside(text: string, a: nat, items: seq<Json>) returns (q: nat)
    requires items != [] && Inside(text, a, DumpItems(items))
    ensures Inside(text, a, Dump(items[0])) && Inside(text, q, DumpItems(items[1..]))
  {
    var k := ItemPieces(items);
    q := a + k;
    var whole, item, rest := DumpItems(items), Dump(items[0]), DumpItems(items[1..]);
    InsideTrans(text, a, whole, 0, item);
    InsideTrans(text, a, whole, k, rest);
  }

  lemma {:induction false} StackFieldsAreExact(
    env: Env, text: string, a: nat, fields: seq<Field>, obj: seq<Field>, path: Path, found: bool)
    requires Healed(env) && HealedText(env, text) && Inside(text, a, DumpFields(fields))
    requires SingleFields(env.marker, fields) && FieldsFree(env.marker, obj)
    ensures Exact(env.marker, StackFields(env, fields, obj, path, found), found, !FieldsUnmarked(env.marker, fields))
    decreases fields, 1
  {
    if fields != [] && !Contains(fields[0].key, env.marker) {
      var p, q := FieldsInside(text, a, fields);
      SingleFieldsSplit(env.marker, fields);
      if !fields[0].value.Str? {
        ValueAndRestAreExact(env, text, p, q, fields, obj, path, found);
      } else if Contains(fields[0].value.s, env.marker) {
        MarkedStringIsExact(env, text, p, fields, obj, path, found);
      } else {
        StringAndRestAreExact(env, text, q, fields, obj, path, found);
      }
    }
  }

  /** An unmarked string, and the fields after it. */
  lemma {:induction false} StringAndRestAreExact(
    env: Env, text: string, q: nat, fields: seq<Field>, obj: seq<Field>, path: Path, found: bool)
    requires Healed(env) && HealedText(env, text) && fields != [] && fields[0].value.Str?
    requires Inside(text, q, DumpFields(fields[1..])) && SingleFields(env.marker, fields[1..]) && FieldsFree(env.marker, obj)
    requires !Contains(fields[0].key, env.marker) && !Contains(fields[0].value.s, env.marker)
    ensures Exact(env.marker, StackFields(env, fields, obj, path, found), found, !FieldsUnmarked(env.marker, fields))
    decreases fields, 0
  {
    var next, rest := SetField(obj, fields[0].key, fields[0].value), fields[1..];
    SetFieldFree(env.marker, obj, fields[0].key, fields[0].value);
    StackFieldsAreExact(env, text, q, rest, next, path, found);
    assert StackFields(env, fields, obj, path, found) == StackFields(env, rest, next, path, found);
  }

  /** A marked string ends the loop, with or without its field. */
  lemma {:induction false} MarkedStringIsExact(
    env: Env, text: string, p: nat, fields: seq<Field>, obj: seq<Field>, path: Path, found: bool)
    requires Healed(env) && HealedText(env, text) && fields != [] && fields[0].value.Str?
    requires Inside(text, p, Dump(fields[0].value)) && Single(env.marker, fields[0].value) && FieldsFree(env.marker, obj)
    requires !Contains(fields[0].key, env.marker) && Contains(fields[0].value.s, env.marker)
    ensures Exact(env.marker, StackFields(env, fields, obj, path, found), found, !FieldsUnmarked(env.marker, fields))
    decreases fields, 0
  {
    var value, inner := fields[0].value, path + [fields[0].key];
    if Cleanable(env, value, inner) {
      StackCleanIsExact(env, text, p, value, inner, true);
      var w := StackClean(env, value, inner, true);
      if w.value.Ok? {
        SetFieldFree(env.marker, obj, fields[0].key, w.value.value);
      }
    }
  }

  /** A value that is no string, and the fields after it. */
  lemma {:induction false} ValueAndRestAreExact(
    env: Env, text: string, p: nat, q: nat, fields: seq<Field>, obj: seq<Field>, path: Path, found: bool)
    requires Healed(env) && HealedText(env, text) && fields != [] && !fields[0].value.Str?
    requires Inside(text, p, Dump(fields[0].value)) && Inside(text, q, DumpFields(fields[1..]))
    requires !Contains(fields[0].key, env.marker) && Single(env.marker, fields[0].value) && SingleFields(env.marker, fields[1..])
    requires FieldsFree(env.marker, obj)
    ensures Exact(env.marker, StackFields(env, fields, obj, path, found), found, !FieldsUnmarked(env.marker, fields))
    decreases fields, 0
  {
    var key, value, rest, inner := fields[0].key, fields[0].value, fields[1..], path + [fields[0].key];
    StackCleanIsExact(env, text, p, value, inner, found);
    var w := StackClean(env, value, inner, found);
    if w.value.Ok? {
      var next, left := SetField(obj, key, w.value.value), w.path[..|w.path| - 1];
      SetFieldFree(env.marker, obj, key, w.value.value);
      StackFieldsAreExact(env, text, q, rest, next, left, w.found);
      assert StackFields(env, fields, obj, path, found) == StackFields(env, rest, next, left, w.found);
    }
  }

  lemma {:induction false} StackItemsAreExact(
    env: Env, text: string, a: nat, items: seq<Json>, arr: seq<Json>, path: Path, found: bool)
    requires Healed(env) && HealedText(env, text) && Inside(text, a, DumpItems(items))
    requires SingleItems(env.marker, items) && ItemsFree(env.marker, arr)
    ensures Exact(env.marker, StackItems(env, items, arr, path, found), found, !ItemsUnmarked(env.marker, items))
    decreases items, 1
  {
    var m := env.marker;
    if items != [] && !(items[0].Str? && Contains(items[0].s, m)) {
      var rest := items[1..];
      var next := ItemsInside(text, a, items);
      SingleItemsSplit(m, items);
      StackCleanIsExact(env, text, a, items[0], path, found);
      var w := StackClean(env, items[0], path, found);
      if w.value.Ok? {
        var longer := arr + [w.value.value];
        SnocFree(m, arr, w.value.value);
        StackItemsAreExact(env, text, next, rest, longer, w.path, w.found);
        assert StackItems(env, items, arr, path, found) == StackItems(env, rest, longer, w.path, w.found);
      }
    }
  }

  // ----- the whole operation -----

  /** What the JSON parser returns: the value, and the two markers, empty if the input was complete. */
  datatype Parsed = Parsed(json: Json, marker: string, dumpMarker: string)

  datatype Consumed = Consumed(value: Json, isPartial: bool)

  /**
   * The promises of json-partial.h about the value. Healed input: the value is a container, a key or string of it holds
   * the marker, and its text shows the marker once, as the dump marker. Complete input does not show the marker, which the
   * parser chose not to be in it. No object has a key twice.
   */
  ghost predicate ParserContract(parsed: Parsed, healingMarker: string) {
    && IsMarker(healingMarker) && UniqueKeys(parsed.json)
    && if parsed.marker == "" then !Contains(Dump(parsed.json), healingMarker)
       else
         && parsed.marker == healingMarker && IsMarkerBehind(parsed.dumpMarker, healingMarker)
         && (parsed.json.Obj? || parsed.json.Arr?) && !Unmarked(healingMarker, parsed.json)
         && AtMostOnce(Dump(parsed.json), healingMarker) && Contains(Dump(parsed.json), parsed.dumpMarker)
  }

  predicate ReportedBy(env: Env, parsed: Parsed) {
    env.marker == parsed.marker && env.dumpMarker == parsed.dumpMarker
  }

  /**
   * Cleaning healed input as the source does it: no marker survives anywhere in the result, and the result is reported
   * partial.
   */
  lemma CleaningIsExact(env: Env, parsed: Parsed)
    requires ParserContract(parsed, env.healingMarker) && ReportedBy(env, parsed) && env.isPartial && env.marker != ""
    ensures var w := StackClean(env, parsed.json, [], false);
            w.value.Ok? ==> MarkerFree(env.marker, w.value.value) && w.found
  {
    var text := Dump(parsed.json);
    assert text[0..|text|] == text;
    var i := MarkedShows(parsed.json, env.marker);
    StackCleanIsExact(env, text, 0, parsed.json, [], false);
  }

  /** A value whose text does not show the marker is unmarked, and so are its parts. */
  lemma HiddenIsUnmarked(m: string, j: Json)
    requires IsMarker(m) && !Contains(Dump(j), m)
    ensures Unmarked(m, j)
  {
    if !Unmarked(m, j) {
      var i := MarkedShows(j, m);
    }
  }

  lemma HiddenInside(m: string, j: Json)
    requires !Contains(Dump(j), m)
    ensures j.Obj? ==> !Contains(DumpFields(j.fields), m)
    ensures j.Arr? ==> !Contains(DumpItems(j.items), m)
  {
    match j
    case Obj(fields) =>
      InsideMiddle(['{'], DumpFields(fields), ['}']);
      if Contains(DumpFields(fields), m) {
        ContainsInside(Dump(j), 1, DumpFields(fields), m);
      }
    case Arr(items) =>
      InsideMiddle(['['], DumpItems(items), [']']);
      if Contains(DumpItems(items), m) {
        ContainsInside(Dump(j), 1, DumpItems(items), m);
      }
    case _ =>
  }

  /** Complete input is not changed in a way that loses text, unless a bare string stands at the content path itself. */
  lemma {:induction false} CompleteIsNotFlagged(env: Env, j: Json, path: Path)
    requires env.marker == "" && IsMarker(env.healingMarker) && !Contains(Dump(j), env.healingMarker)
    requires !j.Str? || path !in env.contentPaths || path in env.argsPaths
    ensures var p := PureClean(env, j, path);
            p.value.Ok? ==> MarkerFree(env.healingMarker, p.value.value) && !p.found
    decreases j, 0
  {
    var m := env.healingMarker;
    HiddenIsUnmarked(m, j);
    HiddenInside(m, j);
    if path !in env.argsPaths && path !in env.contentPaths {
      match j
      case Obj(fields) => CompleteFieldsAreNotFlagged(env, fields, [], path);
      case Arr(items) => CompleteItemsAreNotFlagged(env, items, [], path);
      case _ =>
    }
  }

  lemma {:induction false} CompleteFieldsAreNotFlagged(env: Env, fields: seq<Field>, obj: seq<Field>, path: Path)
    requires env.marker == "" && IsMarker(env.healingMarker)
    requires !Contains(DumpFields(fields), env.healingMarker) && FieldsFree(env.healingMarker, obj)
    ensures var p := PureFields(env, fields, obj, path, false);
            p.value.Ok? ==> MarkerFree(env.healingMarker, p.value.value) && !p.found
    decreases fields, 1
  {
    if fields != [] {
      var m, key, value, inner := env.healingMarker, fields[0].key, fields[0].value, path + [fields[0].key];
      HiddenFields(m, fields);
      if value.Str? {
        SetFieldFree(m, obj, key, value);
        CompleteFieldsAreNotFlagged(env, fields[1..], SetField(obj, key, value), path);
      } else {
        CompleteIsNotFlagged(env, value, inner);
        var p := PureClean(env, value, inner);
        if p.value.Ok? {
          SetFieldFree(m, obj, key, p.value.value);
          CompleteFieldsAreNotFlagged(env, fields[1..], SetField(obj, key, p.value.value), path);
        }
      }
    }
  }

  /**
   * Complete input whose value shows the marker after all, as the parser looks for it only in the text: what the walk takes
   * for a marker is a key or a string outside the arguments that holds it, and every string that is itself the content.
   */
  predicate Mistaken(env: Env, j: Json, path: Path)
    decreases j, 0
  {
    path !in env.argsPaths
    && if path in env.contentPaths then j.Str?
       else match j
         case Obj(fields) => MistakenInFields(env, fields, path)
         case Arr(items) => MistakenInItems(env, items, path)
         case _ => false
  }

  predicate MistakenInFields(env: Env, fields: seq<Field>, path: Path)
    decreases fields, 1
  {
    fields != []
    && var Field(key, value) := fields[0];
       || Contains(key, env.healingMarker)
       || (if value.Str? then Contains(value.s, env.healingMarker) else Mistaken(env, value, path + [key]))
       || MistakenInFields(env, fields[1..], path)
  }

  predicate MistakenInItems(env: Env, items: seq<Json>, path: Path)
    decreases items, 1
  {
    items != []
    && (|| (items[0].Str? && Contains(items[0].s, env.healingMarker))
        || Mistaken(env, items[0], path)
        || MistakenInItems(env, items[1..], path))
  }

  /** The flag is set if it was, or there is such a text; and unless it is, the stack is as before. */
  predicate FlagIs(w: Walk, path: Path, found: bool, mistaken: bool) {
    w.value.Ok? ==> (w.found <==> found || mistaken) && (w.found || w.path == path)
  }

  /** For all complete input: the walk calls it partial exactly if it holds such a text. */
  lemma {:induction false} CompleteIsFlaggedExactlyWhen(env: Env, j: Json, path: Path, found: bool)
    requires env.marker == ""
    ensures FlagIs(StackClean(env, j, path, found), path, found, Mistaken(env, j, path))
    decreases j, 0
  {
    if path !in env.argsPaths && path !in env.contentPaths {
      match j
      case Obj(fields) => CompleteFieldsFlag(env, fields, [], path, found);
      case Arr(items) => CompleteItemsFlag(env, items, [], path, found);
      case _ =>
    }
  }

  lemma {:induction false} CompleteFieldsFlag(env: Env, fields: seq<Field>, obj: seq<Field>, path: Path, found: bool)
    requires env.marker == ""
    ensures FlagIs(StackFields(env, fields, obj, path, found), path, found, MistakenInFields(env, fields, path))
    decreases fields, 1
  {
    if fields != [] && !Contains(fields[0].key, env.healingMarker) {
      var key, value, inner := fields[0].key, fields[0].value, path + [fields[0].key];
      if value.Str? {
        CompleteIsFlaggedExactlyWhen(env, value, inner, true);
        CompleteFieldsFlag(env, fields[1..], SetField(obj, key, value), path, found);
      } else {
        CompleteIsFlaggedExactlyWhen(env, value, inner, found);
        var w := StackClean(env, value, inner, found);
        if w.value.Ok? {
          CompleteFieldsFlag(env, fields[1..], SetField(obj, key, w.value.value), w.path[..|w.path| - 1], w.found);
          assert inner[..|inner| - 1] == path;
        }
      }
    }
  }

  lemma {:induction false} CompleteItemsFlag(env: Env, items: seq<Json>, arr: seq<Json>, path: Path, found: bool)
    requires env.marker == ""
    ensures FlagIs(StackItems(env, items, arr, path, found), path, found, MistakenInItems(env, items, path))
    decreases items, 1
  {
    if items != [] && !(items[0].Str? && Contains(items[0].s, env.healingMarker)) {
      CompleteIsFlaggedExactlyWhen(env, items[0], path, found);
      var w := StackClean(env, items[0], path, found);
      if w.value.Ok? {
        CompleteItemsFlag(env, items[1..], arr + [w.value.value], w.path, w.found);
      }
    }
  }

  /** And it holds the marker nowhere. */
  lemma {:induction false} HiddenIsFree(m: string, j: Json)
    requires IsMarker(m) && !Contains(Dump(j), m)
    ensures MarkerFree(m, j)
    decreases j, 0
  {
    HiddenIsUnmarked(m, j);
    HiddenInside(m, j);
    match j
    case Obj(fields) => HiddenFieldsAreFree(m, fields);
    case Arr(items) => HiddenItemsAreFree(m, items);
    case _ =>
  }

  lemma {:induction false} HiddenFieldsAreFree(m: string, fields: seq<Field>)
    requires IsMarker(m) && !Contains(DumpFields(fields), m)
    ensures FieldsFree(m, fields)
    decreases fields, 1
  {
    if fields != [] {
      HiddenFields(m, fields);
      HiddenIsFree(m, fields[0].value);
      HiddenFieldsAreFree(m, fields[1..]);
    }
  }

  lemma {:induction false} HiddenItemsAreFree(m: string, items: seq<Json>)
    requires IsMarker(m) && !Contains(DumpItems(items), m)
    ensures ItemsFree(m, items)
    decreases items, 1
  {
    if items != [] {
      HiddenItems(m, items);
      HiddenIsFree(m, items[0]);
      HiddenItemsAreFree(m, items[1..]);
    }
  }

  lemma HiddenFields(m: string, fields: seq<Field>)
    requires IsMarker(m) && fields != [] && !Contains(DumpFields(fields), m)
    ensures !Contains(fields[0].key, m) && !Contains(Dump(fields[0].value), m) && !Contains(DumpFields(fields[1..]), m)
    ensures Unmarked(m, fields[0].value)
  {
    var p, q := FieldPieces(fields);
    var s := DumpFields(fields);
    if Contains(fields[0].key, m) {
      EscapeContains(fields[0].key, m);
      ContainsInside(s, 1, Escape(fields[0].key), m);
    }
    if Contains(Dump(fields[0].value), m) {
      ContainsInside(s, p, Dump(fields[0].value), m);
    }
    if Contains(DumpFields(fields[1..]), m) {
      ContainsInside(s, q, DumpFields(fields[1..]), m);
    }
    HiddenIsUnmarked(m, fields[0].value);
  }

  lemma {:induction false} CompleteItemsAreNotFlagged(env: Env, items: seq<Json>, arr: seq<Json>, path: Path)
    requires env.marker == "" && IsMarker(env.healingMarker) && path !in env.contentPaths
    requires !Contains(DumpItems(items), env.healingMarker) && ItemsFree(env.healingMarker, arr)
    ensures var p := PureItems(env, items, arr, path, false);
            p.value.Ok? ==> MarkerFree(env.healingMarker, p.value.value) && !p.found
    decreases items, 1
  {
    if items != [] {
      var m := env.healingMarker;
      HiddenItems(m, items);
      CompleteIsNotFlagged(env, items[0], path);
      var p := PureClean(env, items[0], path);
      if p.value.Ok? {
        SnocFree(m, arr, p.value.value);
        CompleteItemsAreNotFlagged(env, items[1..], arr + [p.value.value], path);
      }
    }
  }

  lemma HiddenItems(m: string, items: seq<Json>)
    requires IsMarker(m) && items != [] && !Contains(DumpItems(items), m)
    ensures !Contains(Dump(items[0]), m) && !Contains(DumpItems(items[1..]), m) && Unmarked(m, items[0])
  {
    var q := ItemPieces(items);
    if Contains(Dump(items[0]), m) {
      ContainsInside(DumpItems(items), 0, Dump(items[0]), m);
    }
    if Contains(DumpItems(items[1..]), m) {
      ContainsInside(DumpItems(items), q, DumpItems(items[1..]), m);
    }
    HiddenIsUnmarked(m, items[0]);
  }

  /** The one exception: a complete bare string that is itself the content is erased and called partial. */
  lemma CompleteStringAtContentRootIsErased(env: Env, s: string)
    requires env.marker == "" && [] in env.contentPaths && [] !in env.argsPaths
    ensures StackClean(env, Str(s), [], false) == Walk(Ok(Str("")), [], true)
  {
    assert s[..0] == "";
  }
}
