/**
 * What comes out of the JSON cleaner: which parts of a value are kept, and which text stands for the arguments and the
 * content, said of the value and its printed text.
 */
module JsonMeaning {
  import opened StringUtils
  import opened JsonText
  import opened JsonCleaner
  import opened JsonRouting

  // ----- texts that are cut off -----

  /** The text `a` is what stands before the first place of the marker. */
  ghost predicate IsBefore(text: string, marker: string, a: string) {
    && (exists rest :: text == a + (marker + rest))
    && forall i: nat :: i < |a| ==> !OccursAt(text, marker, i)
  }

  ghost predicate IsNowhere(text: string, marker: string) {
    forall i: nat :: !OccursAt(text, marker, i)
  }

  /** What stands before the marker, or everything. */
  ghost predicate IsCut(text: string, marker: string, a: string) {
    if IsNowhere(text, marker) then a == text else IsBefore(text, marker, a)
  }

  /**
   * The text of a value at an arguments path: what is printed, and in healed input what is printed before the dump marker; but
   * nothing where that is a lone quote.
   */
  ghost predicate IsArguments(env: Env, x: Json, a: string) {
    if !env.isPartial || env.marker == "" then a == Dump(x)
    else exists cut :: IsCut(Dump(x), env.dumpMarker, cut) && a == if cut == ['"'] then "" else cut
  }

  lemma FirstPlaceIsBefore(text: string, marker: string, i: nat)
    requires Find(text, marker, 0) == Some(i)
    ensures i <= |text| && IsBefore(text, marker, text[..i]) && !IsNowhere(text, marker)
  {
    var rest := text[i + |marker|..];
    assert text == text[..i] + (marker + rest) by {
      assert text[i..] == marker + rest;
    }
  }

  lemma CutIs(text: string, marker: string)
    ensures var place := Find(text, marker, 0); IsCut(text, marker, if place.Some? then text[..place.value] else text)
  {
    var place := Find(text, marker, 0);
    if place.Some? {
      FirstPlaceIsBefore(text, marker, place.value);
    }
  }

  lemma ArgumentsAre(env: Env, x: Json)
    ensures IsArguments(env, x, DumpArguments(env, x).0)
  {
    CutIs(Dump(x), env.dumpMarker);
  }

  // ----- what is kept -----

  /**
   * `y` is what is made of `x` at a path: at an arguments path its text, at a content path the text of the string, elsewhere the
   * same value with the fields and items up to the marker. `shared` tells the walk whose stack keeps keys from the one without.
   */
  ghost predicate Means(env: Env, x: Json, path: Path, y: Json, shared: bool)
    decreases x, 0
  {
    if path in env.argsPaths then y.Str? && IsArguments(env, x, y.s)
    else if path in env.contentPaths then x.Str? && y.Str? && IsCut(x.s, env.marker, y.s)
    else match x
      case Obj(fields) => y.Obj? && MeansFields(env, fields, path, y.fields, shared)
      case Arr(items) => y.Arr? && MeansItems(env, items, path, y.items, shared)
      case _ => y == x
  }

  /** A string that is cut off where it is content, and nowhere else, is kept up to the marker. */
  predicate IsKeptContent(env: Env, path: Path) {
    path in env.contentPaths && env.marker == env.dumpMarker
  }

  ghost predicate MeansFields(env: Env, fields: seq<Field>, path: Path, kept: seq<Field>, shared: bool)
    decreases fields, 1
  {
    if fields == [] || Contains(fields[0].key, env.healingMarker) then kept == []
    else
      var Field(key, x) := fields[0];
      if MarkedString(env, x) && !IsKeptContent(env, path + [key]) then kept == []
      else
        && kept != [] && kept[0].key == key
        && (if MarkedString(env, x) then Means(env, x, path + [key], kept[0].value, shared) && |kept| == 1
            else
              && (if x.Str? then kept[0].value == x else Means(env, x, path + [key], kept[0].value, shared))
              && MeansFields(env, fields[1..], if shared then After(env, x, path + [key]) else path, kept[1..], shared))
  }

  ghost predicate MeansItems(env: Env, items: seq<Json>, path: Path, kept: seq<Json>, shared: bool)
    decreases items, 1
  {
    if items == [] || MarkedString(env, items[0]) then kept == []
    else
      && kept != [] && Means(env, items[0], path, kept[0], shared)
      && MeansItems(env, items[1..], if shared then Left(env, items[0], path) else path, kept[1..], shared)
  }

  ghost predicate Gained(env: Env, fields: seq<Field>, path: Path, before: seq<Field>, after: Result<Json>, shared: bool) {
    after.Ok? ==> after.value.Obj? && exists kept :: after.value.fields == before + kept && MeansFields(env, fields, path, kept, shared)
  }

  ghost predicate GainedItems(env: Env, items: seq<Json>, path: Path, before: seq<Json>, after: Result<Json>, shared: bool) {
    after.Ok? ==> after.value.Arr? && exists kept :: after.value.items == before + kept && MeansItems(env, items, path, kept, shared)
  }

  lemma NothingGained(env: Env, fields: seq<Field>, path: Path, before: seq<Field>, shared: bool)
    requires MeansFields(env, fields, path, [], shared)
    ensures Gained(env, fields, path, before, Ok(Obj(before)), shared)
  {
    assert before == before + [];
  }

  /** A field and what is gained behind it. */
  lemma OneGained(env: Env, fields: seq<Field>, path: Path, before: seq<Field>, y: Json, after: Result<Json>, shared: bool)
    requires fields != [] && !Contains(fields[0].key, env.healingMarker) && !MarkedString(env, fields[0].value)
    requires var Field(key, x) := fields[0];
             && (if x.Str? then y == x else Means(env, x, path + [key], y, shared))
             && Gained(env, fields[1..], if shared then After(env, x, path + [key]) else path, before + [Field(key, y)], after, shared)
    ensures Gained(env, fields, path, before, after, shared)
  {
    if after.Ok? {
      var key, x := fields[0].key, fields[0].value;
      var next := if shared then After(env, x, path + [key]) else path;
      var rest :| after.value.fields == before + [Field(key, y)] + rest && MeansFields(env, fields[1..], next, rest, shared);
      var kept := [Field(key, y)] + rest;
      assert kept[1..] == rest && before + [Field(key, y)] + rest == before + kept;
      assert MeansFields(env, fields, path, kept, shared);
    }
  }

  lemma LastGained(env: Env, fields: seq<Field>, path: Path, before: seq<Field>, y: Json, shared: bool)
    requires fields != [] && !Contains(fields[0].key, env.healingMarker) && MarkedString(env, fields[0].value)
    requires var Field(key, x) := fields[0]; IsKeptContent(env, path + [key]) && Means(env, x, path + [key], y, shared)
    ensures Gained(env, fields, path, before, Ok(Obj(before + [Field(fields[0].key, y)])), shared)
  {
    assert MeansFields(env, fields, path, [Field(fields[0].key, y)], shared);
  }

  // ----- the walk with the stack -----

  lemma {:induction false} StackMeans(env: Env, x: Json, path: Path, found: bool)
    requires UniqueKeys(x)
    ensures var w := StackClean(env, x, path, found); w.value.Ok? ==> Means(env, x, path, w.value.value, true)
    decreases x, 0
  {
    if path in env.argsPaths {
      ArgumentsAre(env, x);
    } else if path in env.contentPaths {
      if x.Str? {
        CutIs(x.s, env.marker);
      }
    } else {
      match x
      case Obj(fields) =>
        StackFieldsMean(env, fields, [], path, found);
        GainedFromNothing(env, fields, path, StackFields(env, fields, [], path, found).value, true);
      case Arr(items) =>
        StackItemsMean(env, items, [], path, found);
        GainedItemsFromNothing(env, items, path, StackItems(env, items, [], path, found).value, true);
      case _ =>
    }
  }

  lemma GainedFromNothing(env: Env, fields: seq<Field>, path: Path, after: Result<Json>, shared: bool)
    requires Gained(env, fields, path, [], after, shared)
    ensures after.Ok? ==> after.value.Obj? && MeansFields(env, fields, path, after.value.fields, shared)
  {
    if after.Ok? {
      var kept :| after.value.fields == [] + kept && MeansFields(env, fields, path, kept, shared);
      assert [] + kept == kept;
    }
  }

  lemma GainedItemsFromNothing(env: Env, items: seq<Json>, path: Path, after: Result<Json>, shared: bool)
    requires GainedItems(env, items, path, [], after, shared)
    ensures after.Ok? ==> after.value.Arr? && MeansItems(env, items, path, after.value.items, shared)
  {
    if after.Ok? {
      var kept :| after.value.items == [] + kept && MeansItems(env, items, path, kept, shared);
      assert [] + kept == kept;
    }
  }

  lemma NothingLeft(path: Path, key: string)
    ensures (path + [key])[..|path + [key]| - 1] == path
  {
  }

  lemma StackLastMeans(env: Env, fields: seq<Field>, obj: seq<Field>, path: Path, found: bool)
    requires fields != [] && !Contains(fields[0].key, env.healingMarker) && MarkedString(env, fields[0].value)
    requires IsKeptContent(env, path + [fields[0].key]) && fields[0].key !in Keys(obj)
    requires var w := StackClean(env, fields[0].value, path + [fields[0].key], true);
             w.value.Ok? ==> Means(env, fields[0].value, path + [fields[0].key], w.value.value, true)
    ensures Gained(env, fields, path, obj, StackFields(env, fields, obj, path, found).value, true)
  {
    var w := StackClean(env, fields[0].value, path + [fields[0].key], true);
    if w.value.Ok? {
      NewField(obj, fields[0].key, w.value.value);
      LastGained(env, fields, path, obj, w.value.value, true);
    }
  }

  lemma {:induction false} StackFieldsMean(env: Env, fields: seq<Field>, obj: seq<Field>, path: Path, found: bool)
    requires UniqueInFields(fields) && Keys(obj) !! Keys(fields)
    ensures Gained(env, fields, path, obj, StackFields(env, fields, obj, path, found).value, true)
    decreases fields, 1
  {
    if fields == [] || Contains(fields[0].key, env.healingMarker) {
      NothingGained(env, fields, path, obj, true);
    } else {
      var key, x, inner := fields[0].key, fields[0].value, path + [fields[0].key];
      if MarkedString(env, x) && !IsKeptContent(env, inner) {
        NothingGained(env, fields, path, obj, true);
      } else if MarkedString(env, x) {
        StackMeans(env, x, inner, true);
        StackLastMeans(env, fields, obj, path, found);
      } else if x.Str? {
        var after := StackFields(env, fields[1..], SetField(obj, key, x), path, found).value;
        NothingLeft(path, key);
        NewField(obj, key, x);
        StackFieldsMean(env, fields[1..], SetField(obj, key, x), path, found);
        OneGained(env, fields, path, obj, x, after, true);
      } else {
        var w := StackClean(env, x, inner, found);
        StackMeans(env, x, inner, found);
        StackGoes(env, x, inner, found);
        if w.value.Ok? {
          var y, next := w.value.value, w.path[..|w.path| - 1];
          NewField(obj, key, y);
          StackFieldsMean(env, fields[1..], SetField(obj, key, y), next, w.found);
          OneGained(env, fields, path, obj, y, StackFields(env, fields[1..], SetField(obj, key, y), next, w.found).value, true);
        }
      }
    }
  }

  lemma OneItemGained(env: Env, items: seq<Json>, path: Path, before: seq<Json>, y: Json, after: Result<Json>, shared: bool)
    requires items != [] && !MarkedString(env, items[0]) && Means(env, items[0], path, y, shared)
    requires GainedItems(env, items[1..], if shared then Left(env, items[0], path) else path, before + [y], after, shared)
    ensures GainedItems(env, items, path, before, after, shared)
  {
    if after.Ok? {
      var next := if shared then Left(env, items[0], path) else path;
      var rest :| after.value.items == before + [y] + rest && MeansItems(env, items[1..], next, rest, shared);
      var kept := [y] + rest;
      assert kept[1..] == rest && before + [y] + rest == before + kept;
      assert MeansItems(env, items, path, kept, shared);
    }
  }

  lemma {:induction false} StackItemsMean(env: Env, items: seq<Json>, arr: seq<Json>, path: Path, found: bool)
    requires UniqueInItems(items)
    ensures GainedItems(env, items, path, arr, StackItems(env, items, arr, path, found).value, true)
    decreases items, 1
  {
    if items == [] || MarkedString(env, items[0]) {
      assert arr == arr + [] && MeansItems(env, items, path, [], true);
    } else {
      var w := StackClean(env, items[0], path, found);
      StackMeans(env, items[0], path, found);
      StackGoes(env, items[0], path, found);
      if w.value.Ok? {
        var y := w.value.value;
        StackItemsMean(env, items[1..], arr + [y], w.path, w.found);
        OneItemGained(env, items, path, arr, y, StackItems(env, items[1..], arr + [y], w.path, w.found).value, true);
      }
    }
  }

  // ----- the walk without -----

  lemma {:induction false} PureMeans(env: Env, x: Json, path: Path)
    requires UniqueKeys(x)
    ensures var p := PureClean(env, x, path); p.value.Ok? ==> Means(env, x, path, p.value.value, false)
    decreases x, 0
  {
    if path in env.argsPaths {
      ArgumentsAre(env, x);
    } else if path in env.contentPaths {
      if x.Str? {
        CutIs(x.s, env.marker);
      }
    } else {
      match x
      case Obj(fields) =>
        PureFieldsMean(env, fields, [], path, false);
        GainedFromNothing(env, fields, path, PureFields(env, fields, [], path, false).value, false);
      case Arr(items) =>
        PureItemsMean(env, items, [], path, false);
        GainedItemsFromNothing(env, items, path, PureItems(env, items, [], path, false).value, false);
      case _ =>
    }
  }

  lemma {:induction false} PureFieldsMean(env: Env, fields: seq<Field>, obj: seq<Field>, path: Path, found: bool)
    requires UniqueInFields(fields) && Keys(obj) !! Keys(fields)
    ensures Gained(env, fields, path, obj, PureFields(env, fields, obj, path, found).value, false)
    decreases fields, 1
  {
    if fields == [] || Contains(fields[0].key, env.healingMarker) {
      NothingGained(env, fields, path, obj, false);
    } else {
      var key, x, inner := fields[0].key, fields[0].value, path + [fields[0].key];
      if MarkedString(env, x) && !IsKeptContent(env, inner) {
        NothingGained(env, fields, path, obj, false);
      } else if x.Str? && !MarkedString(env, x) {
        NewField(obj, key, x);
        PureFieldsMean(env, fields[1..], SetField(obj, key, x), path, found);
        OneGained(env, fields, path, obj, x, PureFields(env, fields[1..], SetField(obj, key, x), path, found).value, false);
      } else {
        var p := PureClean(env, x, inner);
        PureMeans(env, x, inner);
        if p.value.Ok? {
          var y := p.value.value;
          NewField(obj, key, y);
          if x.Str? {
            LastGained(env, fields, path, obj, y, false);
          } else {
            PureFieldsMean(env, fields[1..], SetField(obj, key, y), path, found || p.found);
            OneGained(env, fields, path, obj, y, PureFields(env, fields[1..], SetField(obj, key, y), path, found || p.found).value, false);
          }
        }
      }
    }
  }

  lemma {:induction false} PureItemsMean(env: Env, items: seq<Json>, arr: seq<Json>, path: Path, found: bool)
    requires UniqueInItems(items)
    ensures GainedItems(env, items, path, arr, PureItems(env, items, arr, path, found).value, false)
    decreases items, 1
  {
    if items == [] || MarkedString(env, items[0]) {
      assert arr == arr + [] && MeansItems(env, items, path, [], false);
    } else {
      var p := PureClean(env, items[0], path);
      PureMeans(env, items[0], path);
      if p.value.Ok? {
        var y := p.value.value;
        PureItemsMean(env, items[1..], arr + [y], path, found || p.found);
        OneItemGained(env, items, path, arr, y, PureItems(env, items[1..], arr + [y], path, found || p.found).value, false);
      }
    }
  }

  // ----- at a place in the value -----

  function FieldOf(fields: seq<Field>, key: string): Option<Json> {
    if fields == [] then None else if fields[0].key == key then Some(fields[0].value) else FieldOf(fields[1..], key)
  }

  /** The value that keys lead to. */
  function ValueAt(j: Json, keys: Path): Option<Json>
    decreases |keys|
  {
    if keys == [] then Some(j)
    else if !j.Obj? then None
    else
      var inner :- FieldOf(j.fields, keys[0]);
      ValueAt(inner, keys[1..])
  }

  /** No path on the way from `path` along the keys is one of arguments or of content. */
  predicate IsReached(env: Env, path: Path, keys: Path) {
    forall i :: 0 <= i < |keys| ==> path + keys[..i] !in env.argsPaths && path + keys[..i] !in env.contentPaths
  }

  /** A field in what is kept, as one in the value; a string without the marker is kept as it is, even at these paths. */
  ghost predicate FieldMeans(env: Env, x: Json, path: Path, y: Json) {
    if x.Str? && !MarkedString(env, x) then y == x else Means(env, x, path, y, false)
  }

  lemma {:induction false} FieldIsKept(env: Env, fields: seq<Field>, path: Path, kept: seq<Field>, key: string)
    requires MeansFields(env, fields, path, kept, false) && FieldOf(kept, key).Some?
    ensures FieldOf(fields, key).Some? && FieldMeans(env, FieldOf(fields, key).value, path + [key], FieldOf(kept, key).value)
    decreases |fields|
  {
    if fields[0].key != key && !MarkedString(env, fields[0].value) {
      FieldIsKept(env, fields[1..], path, kept[1..], key);
    }
  }

  lemma {:induction false} UnmarkedFieldIsKept(env: Env, fields: seq<Field>, path: Path, kept: seq<Field>, key: string)
    requires MeansFields(env, fields, path, kept, false) && FieldsUnmarked(env.healingMarker, fields)
    ensures FieldOf(kept, key).Some? <==> FieldOf(fields, key).Some?
    ensures forall x :: FieldOf(fields, key) == Some(x) ==> Unmarked(env.healingMarker, x)
    decreases |fields|
  {
    if fields != [] && fields[0].key != key {
      UnmarkedFieldIsKept(env, fields[1..], path, kept[1..], key);
    }
  }

  lemma ReachedFurther(env: Env, path: Path, keys: Path)
    requires IsReached(env, path, keys) && |keys| > 0
    ensures path !in env.argsPaths && path !in env.contentPaths && IsReached(env, path + [keys[0]], keys[1..])
    ensures path + keys == path + [keys[0]] + keys[1..]
  {
    assert path + keys[..0] == path;
    forall i | 0 <= i < |keys| - 1
      ensures path + [keys[0]] + keys[1..][..i] !in env.argsPaths && path + [keys[0]] + keys[1..][..i] !in env.contentPaths
    {
      assert path + [keys[0]] + keys[1..][..i] == path + keys[..i + 1];
    }
  }

  /** Whatever comes out at a place was there, and is what the value there stands for. */
  lemma {:induction false} PlaceMeans(env: Env, x: Json, path: Path, y: Json, keys: Path)
    requires Means(env, x, path, y, false) && IsReached(env, path, keys) && keys != [] && ValueAt(y, keys).Some?
    ensures ValueAt(x, keys).Some? && FieldMeans(env, ValueAt(x, keys).value, path + keys, ValueAt(y, keys).value)
    decreases |keys|
  {
    ReachedFurther(env, path, keys);
    FieldIsKept(env, x.fields, path, y.fields, keys[0]);
    var a, b := FieldOf(x.fields, keys[0]).value, FieldOf(y.fields, keys[0]).value;
    if |keys| > 1 {
      PlaceMeans(env, a, path + [keys[0]], b, keys[1..]);
    } else {
      assert path + keys == path + [keys[0]] && keys[1..] == [];
    }
  }

  /** In an unmarked value every place reached is kept. */
  lemma {:induction false} PlaceIsKept(env: Env, x: Json, path: Path, y: Json, keys: Path)
    requires Means(env, x, path, y, false) && IsReached(env, path, keys) && Unmarked(env.healingMarker, x)
    ensures ValueAt(y, keys).Some? <==> ValueAt(x, keys).Some?
    decreases |keys|
  {
    if keys != [] {
      ReachedFurther(env, path, keys);
      if x.Obj? {
        UnmarkedFieldIsKept(env, x.fields, path, y.fields, keys[0]);
        if FieldOf(y.fields, keys[0]).Some? {
          FieldIsKept(env, x.fields, path, y.fields, keys[0]);
          var a, b := FieldOf(x.fields, keys[0]).value, FieldOf(y.fields, keys[0]).value;
          if a.Str? {
            assert a == b;
          } else {
            PlaceIsKept(env, a, path + [keys[0]], b, keys[1..]);
          }
        }
      }
    }
  }

  /**
   * What the arguments at a path are, for every healed or complete input that the shared stack does not misroute: the string that
   * was there, or the printed value up to the dump marker.
   */
  lemma ArgumentsComeOut(env: Env, parsed: Parsed, keys: Path)
    requires ParserContract(parsed, env.healingMarker) && ReportedBy(env, parsed)
    requires var w := StackClean(env, parsed.json, [], false);
             && w.value.Ok? && w.value == PureClean(env, parsed.json, []).value
             && keys != [] && keys in env.argsPaths && IsReached(env, [], keys) && ValueAt(w.value.value, keys).Some?
    ensures var a, b := ValueAt(parsed.json, keys), ValueAt(StackClean(env, parsed.json, [], false).value.value, keys).value;
            && a.Some? && b.Str?
            && (if a.value.Str? && !MarkedString(env, a.value) then b == a.value else IsArguments(env, a.value, b.s))
  {
    var y := StackClean(env, parsed.json, [], false).value.value;
    PureMeans(env, parsed.json, []);
    PlaceMeans(env, parsed.json, [], y, keys);
    assert [] + keys == keys;
  }

  // ----- the whole operation -----

  predicate Gives(r: Result<Option<Consumed>>, w: Walk) {
    if w.value.Ok? then r == Ok(Some(Consumed(w.value.value, w.found))) else r.Err?
  }

  /**
   * try_consume_json_with_dumped_args, given what the JSON parser returned (None: no JSON here). Err stands for the
   * exceptions. The value stands for what was parsed; under the parser's contract no marker gets out and only cut-off input is
   * reported partial.
   */
  method TryConsumeJsonWithDumpedArgs(parsed: Option<Parsed>, env: Env) returns (r: Result<Option<Consumed>>)
    requires parsed.Some? ==> ReportedBy(env, parsed.value)
    ensures parsed.None? ==> r == Ok(None)
    ensures parsed.Some? && env.marker != "" && !env.isPartial ==> r.Err?
    ensures parsed.Some? && r.Ok? ==> r.value.Some?
    ensures parsed.Some? && env.marker == "" && env.argsPaths == [] ==> r == Ok(Some(Consumed(parsed.value.json, false)))
    ensures parsed.Some? && (if env.marker == "" then env.argsPaths != [] else env.isPartial) ==>
              Gives(r, StackClean(env, parsed.value.json, [], false))
    ensures parsed.Some? && r.Ok? && env.marker == "" && env.argsPaths != [] ==>
              (r.value.value.isPartial <==> Mistaken(env, parsed.value.json, []))
    ensures parsed.Some? && r.Ok? && !(env.marker == "" && env.argsPaths == []) && MarkerLast(env.healingMarker, parsed.value.json) ==>
              Ok(r.value.value.value) == PureClean(env, parsed.value.json, []).value
    ensures parsed.Some? && r.Ok? && !(env.marker == "" && env.argsPaths == []) && UniqueKeys(parsed.value.json) ==>
              && Means(env, parsed.value.json, [], r.value.value.value, true)
              && (MarkerLast(env.healingMarker, parsed.value.json) ==> Means(env, parsed.value.json, [], r.value.value.value, false))
    ensures && parsed.Some? && r.Ok?
            && ParserContract(parsed.value, env.healingMarker) && !(parsed.value.json.Str? && [] in env.contentPaths)
            ==> && MarkerFree(env.healingMarker, r.value.value.value)
                && (r.value.value.isPartial <==> env.marker != "")
  {
    if parsed.None? {
      return Ok(None);
    }
    var json := parsed.value.json;
    if env.marker != "" && !env.isPartial {
      return Err("JSON");
    }
    ghost var contract := ParserContract(parsed.value, env.healingMarker);
    if contract && env.marker == "" {
      HiddenIsFree(env.healingMarker, json);
    }
    if env.marker == "" {
      if env.argsPaths == [] {
        return Ok(Some(Consumed(json, false)));
      }
      if [] in env.argsPaths {
        ArgumentsAre(env, json);
        return Ok(Some(Consumed(Str(Dump(json)), false)));
      }
    }
    var cleaner := new Cleaner(env);
    var cleaned := cleaner.Clean(json);
    if cleaned.Err? {
      return Err(cleaned.error);
    }
    if env.marker == "" {
      CompleteIsFlaggedExactlyWhen(env, json, [], false);
    }
    if UniqueKeys(json) {
      StackMeans(env, json, [], false);
      PureMeans(env, json, []);
    }
    if MarkerLast(env.healingMarker, json) {
      StackEqualsPure(env, json, [], false);
    }
    if contract && env.marker != "" {
      CleaningIsExact(env, parsed.value);
    }
    if contract && env.marker == "" && !(json.Str? && [] in env.contentPaths) {
      HiddenIsUnmarked(env.healingMarker, json);
      UnmarkedIsLast(env.healingMarker, json);
      StackEqualsPure(env, json, [], false);
      CompleteIsNotFlagged(env, json, []);
    }
    r := Ok(Some(Consumed(cleaned.value, cleaner.found)));
  }
}
