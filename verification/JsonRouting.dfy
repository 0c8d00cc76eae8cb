/**
 * Exactly when the cleaner's one shared path stack does as well as a path passed down, for all values a healed input can
 * give.
 */
module JsonRouting {
  import opened StringUtils
  import opened JsonText
  import opened JsonCleaner

  // ----- what a walk leaves behind -----

  /** The stack after a walk that started with `path` on it: a key is left by leaving an object at a marked string. */
  function Left(env: Env, j: Json, path: Path): (left: Path)
    ensures path <= left
    decreases j, 0
  {
    if path in env.argsPaths || path in env.contentPaths then path
    else match j
      case Obj(fields) => LeftByFields(env, fields, path)
      case Arr(items) => LeftByItems(env, items, path)
      case _ => path
  }

  function LeftByFields(env: Env, fields: seq<Field>, path: Path): (left: Path)
    ensures path <= left
    decreases fields, 1
  {
    if fields == [] || Contains(fields[0].key, env.healingMarker) then path
    else
      var value, inner := fields[0].value, path + [fields[0].key];
      if MarkedString(env, value) then inner
      else LeftByFields(env, fields[1..], After(env, value, inner))
  }

  function LeftByItems(env: Env, items: seq<Json>, path: Path): (left: Path)
    ensures path <= left
    decreases items, 1
  {
    if items == [] || MarkedString(env, items[0]) then path
    else LeftByItems(env, items[1..], Left(env, items[0], path))
  }

  predicate MarkedString(env: Env, j: Json) {
    j.Str? && Contains(j.s, env.healingMarker)
  }

  /** What is on the stack for the field after this one. */
  function After(env: Env, value: Json, inner: Path): (path: Path)
    requires inner != []
    ensures inner[..|inner| - 1] <= path
    decreases value, 1
  {
    if value.Str? then inner[..|inner| - 1]
    else
      var left := Left(env, value, inner);
      left[..|left| - 1]
  }

  // ----- when a walk raises -----

  /** A value at a content path that is no string; `shared` tells the walk with the stack from the one without. */
  predicate Fails(env: Env, j: Json, path: Path, shared: bool)
    decreases j, 0
  {
    path !in env.argsPaths
    && if path in env.contentPaths then !j.Str?
       else match j
         case Obj(fields) => FieldsFail(env, fields, path, shared)
         case Arr(items) => ItemsFail(env, items, path, shared)
         case _ => false
  }

  predicate FieldsFail(env: Env, fields: seq<Field>, path: Path, shared: bool)
    decreases fields, 1
  {
    fields != [] && !Contains(fields[0].key, env.healingMarker) && !MarkedString(env, fields[0].value)
    && var value, inner := fields[0].value, path + [fields[0].key];
       || (!value.Str? && Fails(env, value, inner, shared))
       || FieldsFail(env, fields[1..], if shared then After(env, value, inner) else path, shared)
  }

  predicate ItemsFail(env: Env, items: seq<Json>, path: Path, shared: bool)
    decreases items, 1
  {
    items != [] && !MarkedString(env, items[0])
    && (|| Fails(env, items[0], path, shared)
        || ItemsFail(env, items[1..], if shared then Left(env, items[0], path) else path, shared))
  }

  // ----- the same treatment at two paths -----

  /** At `path` and, as the stack has it, at `stack`, the same parts of the value are arguments to dump. */
  predicate SameRoute(env: Env, j: Json, path: Path, stack: Path)
    decreases j, 0
  {
    (path in env.argsPaths <==> stack in env.argsPaths)
    && (|| path in env.argsPaths || j.Str?
        || match j
           case Obj(fields) => SameRouteFields(env, fields, path, stack)
           case Arr(items) => SameRouteItems(env, items, path, stack)
           case _ => true)
  }

  predicate SameRouteFields(env: Env, fields: seq<Field>, path: Path, stack: Path)
    decreases fields, 1
  {
    fields == [] || Contains(fields[0].key, env.healingMarker) || MarkedString(env, fields[0].value)
    || var key, value := fields[0].key, fields[0].value;
       && (value.Str? || SameRoute(env, value, path + [key], stack + [key]))
       && SameRouteFields(env, fields[1..], path, After(env, value, stack + [key]))
  }

  predicate SameRouteItems(env: Env, items: seq<Json>, path: Path, stack: Path)
    decreases items, 1
  {
    items == [] || MarkedString(env, items[0])
    || (SameRoute(env, items[0], path, stack) && SameRouteItems(env, items[1..], path, Left(env, items[0], stack)))
  }

  // ----- they describe the walks -----

  predicate Raises(r: Result<Json>) {
    r == Err("Content path must be a string")
  }

  /** A walk raises, or leaves the stack so. */
  predicate Goes(w: Walk, fails: bool, left: Path) {
    if fails then Raises(w.value) else w.value.Ok? && w.path == left
  }

  lemma {:induction false} StackGoes(env: Env, j: Json, path: Path, found: bool)
    ensures Goes(StackClean(env, j, path, found), Fails(env, j, path, true), Left(env, j, path))
    decreases j, 0
  {
    if path !in env.argsPaths && path !in env.contentPaths {
      match j
      case Obj(fields) => StackFieldsGo(env, fields, [], path, found);
      case Arr(items) => StackItemsGo(env, items, [], path, found);
      case _ =>
    }
  }

  lemma {:induction false} StackFieldsGo(env: Env, fields: seq<Field>, obj: seq<Field>, path: Path, found: bool)
    ensures Goes(StackFields(env, fields, obj, path, found), FieldsFail(env, fields, path, true), LeftByFields(env, fields, path))
    decreases fields, 1
  {
    if fields != [] && !Contains(fields[0].key, env.healingMarker) {
      var key, value, rest, inner := fields[0].key, fields[0].value, fields[1..], path + [fields[0].key];
      if MarkedString(env, value) {
        StackGoes(env, value, inner, true);
      } else if value.Str? {
        StackFieldsGo(env, rest, SetField(obj, key, value), path, found);
      } else {
        StackGoes(env, value, inner, found);
        var w := StackClean(env, value, inner, found);
        if w.value.Ok? {
          StackFieldsGo(env, rest, SetField(obj, key, w.value.value), After(env, value, inner), w.found);
        }
      }
    }
  }

  lemma {:induction false} StackItemsGo(env: Env, items: seq<Json>, arr: seq<Json>, path: Path, found: bool)
    ensures Goes(StackItems(env, items, arr, path, found), ItemsFail(env, items, path, true), LeftByItems(env, items, path))
    decreases items, 1
  {
    if items != [] && !MarkedString(env, items[0]) {
      StackGoes(env, items[0], path, found);
      var w := StackClean(env, items[0], path, found);
      if w.value.Ok? {
        StackItemsGo(env, items[1..], arr + [w.value.value], w.path, w.found);
      }
    }
  }

  predicate Comes(p: Pure, fails: bool) {
    if fails then Raises(p.value) else p.value.Ok?
  }

  lemma {:induction false} PureComes(env: Env, j: Json, path: Path)
    ensures Comes(PureClean(env, j, path), Fails(env, j, path, false))
    decreases j, 0
  {
    if path !in env.argsPaths && path !in env.contentPaths {
      match j
      case Obj(fields) => PureFieldsCome(env, fields, [], path, false);
      case Arr(items) => PureItemsCome(env, items, [], path, false);
      case _ =>
    }
  }

  lemma {:induction false} PureFieldsCome(env: Env, fields: seq<Field>, obj: seq<Field>, path: Path, found: bool)
    ensures Comes(PureFields(env, fields, obj, path, found), FieldsFail(env, fields, path, false))
    decreases fields, 1
  {
    if fields != [] && !Contains(fields[0].key, env.healingMarker) {
      var key, value, rest, inner := fields[0].key, fields[0].value, fields[1..], path + [fields[0].key];
      if MarkedString(env, value) {
        PureComes(env, value, inner);
      } else if value.Str? {
        PureFieldsCome(env, rest, SetField(obj, key, value), path, found);
      } else {
        PureComes(env, value, inner);
        var p := PureClean(env, value, inner);
        if p.value.Ok? {
          PureFieldsCome(env, rest, SetField(obj, key, p.value.value), path, found || p.found);
        }
      }
    }
  }

  lemma {:induction false} PureItemsCome(env: Env, items: seq<Json>, arr: seq<Json>, path: Path, found: bool)
    ensures Comes(PureItems(env, items, arr, path, found), ItemsFail(env, items, path, false))
    decreases items, 1
  {
    if items != [] && !MarkedString(env, items[0]) {
      PureComes(env, items[0], path);
      var p := PureClean(env, items[0], path);
      if p.value.Ok? {
        PureItemsCome(env, items[1..], arr + [p.value.value], path, found || p.found);
      }
    }
  }

  /** An unmarked value leaves nothing behind. */
  lemma {:induction false} UnmarkedLeavesNothing(env: Env, j: Json, path: Path)
    requires Unmarked(env.healingMarker, j)
    ensures Left(env, j, path) == path
    decreases j, 0
  {
    match j
    case Obj(fields) => UnmarkedFieldsLeaveNothing(env, fields, path);
    case Arr(items) => UnmarkedItemsLeaveNothing(env, items, path);
    case _ =>
  }

  lemma {:induction false} UnmarkedFieldsLeaveNothing(env: Env, fields: seq<Field>, path: Path)
    requires FieldsUnmarked(env.healingMarker, fields)
    ensures LeftByFields(env, fields, path) == path
    decreases fields, 1
  {
    if fields != [] {
      NothingAfter(env, fields[0].value, path, fields[0].key);
      UnmarkedFieldsLeaveNothing(env, fields[1..], path);
    }
  }

  lemma {:induction false} NothingAfter(env: Env, value: Json, path: Path, key: string)
    requires Unmarked(env.healingMarker, value)
    ensures After(env, value, path + [key]) == path
    decreases value, 1
  {
    UnmarkedLeavesNothing(env, value, path + [key]);
    assert (path + [key])[..|path|] == path;
  }

  lemma {:induction false} UnmarkedItemsLeaveNothing(env: Env, items: seq<Json>, path: Path)
    requires ItemsUnmarked(env.healingMarker, items)
    ensures LeftByItems(env, items, path) == path
    decreases items, 1
  {
    if items != [] {
      UnmarkedLeavesNothing(env, items[0], path);
      UnmarkedItemsLeaveNothing(env, items[1..], path);
    }
  }

  // ----- arguments against anything else -----

  lemma {:induction false} EscapeLonger(s: string)
    ensures |Escape(s)| >= |s|
    decreases |s|
  {
    if s != "" {
      EscapeLonger(s[1..]);
    }
  }

  /** An unmarked value dumped is not what the walk makes of it elsewhere. */
  lemma DumpedDiffers(env: Env, j: Json, other: Json)
    requires Healed(env) && Single(env.marker, j) && Unmarked(env.marker, j) && (if j.Str? then other == j else !other.Str?)
    ensures Str(DumpArguments(env, j).0) != other
  {
    if j.Str? {
      var dm, m := env.dumpMarker, env.marker;
      if Contains(Dump(j), dm) {
        var k := Find(Dump(j), dm, 0).value;
        MarkerInDumpMarker(Dump(j), dm, m, k, k + (|dm| - |m|));
      }
      EscapeLonger(j.s);
      assert DumpArguments(env, j).0 == Quoted(j.s);
    }
  }

  // ----- fields that are new -----

  lemma {:induction false} NewField(obj: seq<Field>, key: string, value: Json)
    requires key !in Keys(obj)
    ensures SetField(obj, key, value) == obj + [Field(key, value)]
    ensures Keys(SetField(obj, key, value)) == Keys(obj) + {key}
    decreases |obj|
  {
    if obj == [] {
      assert Keys([Field(key, value)]) == {key} + Keys([]);
    } else {
      NewField(obj[1..], key, value);
      assert SetField(obj, key, value)[1..] == SetField(obj[1..], key, value);
    }
  }

  lemma SnocEqual<T>(a: seq<T>, x: T, b: seq<T>, y: T)
    requires |a| == |b|
    ensures a + [x] == b + [y] <==> a == b && x == y
  {
    if a + [x] == b + [y] {
      assert (a + [x])[..|a|] == a && (b + [y])[..|a|] == b && (a + [x])[|a|] == x && (b + [y])[|a|] == y;
    }
  }

  /** Objects built side by side, to which fields with new keys are added. */
  ghost predicate Beside(stacked: seq<Field>, pure: seq<Field>, fields: seq<Field>) {
    |stacked| == |pure| && Keys(stacked) !! Keys(fields) && Keys(pure) !! Keys(fields)
  }

  lemma BesideGrows(stacked: seq<Field>, pure: seq<Field>, fields: seq<Field>, a: Json, b: Json)
    requires fields != [] && Beside(stacked, pure, fields) && fields[0].key !in Keys(fields[1..])
    ensures var key := fields[0].key;
            && Beside(SetField(stacked, key, a), SetField(pure, key, b), fields[1..])
            && (SetField(stacked, key, a) == SetField(pure, key, b) <==> stacked == pure && a == b)
  {
    var key := fields[0].key;
    NewField(stacked, key, a);
    NewField(pure, key, b);
    SnocEqual(stacked, Field(key, a), pure, Field(key, b));
  }

  // ----- the two walks side by side -----

  /** Where both walks are at the same path, or the stack is off it but no marker is left to come. */
  predicate Apart(env: Env, unmarked: bool, path: Path, stack: Path) {
    path == stack || unmarked
  }

  lemma {:induction false} SameExactlyWhen(env: Env, j: Json, path: Path, stack: Path, found: bool)
    requires Healed(env) && Single(env.marker, j) && UniqueKeys(j) && Apart(env, Unmarked(env.marker, j), path, stack)
    requires !Fails(env, j, path, false) && !Fails(env, j, stack, true)
    ensures StackClean(env, j, stack, found).value == PureClean(env, j, path).value <==> SameRoute(env, j, path, stack)
    decreases j, 0
  {
    StackGoes(env, j, stack, found);
    PureComes(env, j, path);
    if path in env.argsPaths || stack in env.argsPaths {
      if path !in env.argsPaths {
        DumpedDiffers(env, j, PureClean(env, j, path).value.value);
      } else if stack !in env.argsPaths {
        DumpedDiffers(env, j, StackClean(env, j, stack, found).value.value);
      }
    } else if !j.Str? {
      SingleInside(env.marker, j);
      match j
      case Obj(fields) => SameFieldsExactlyWhen(env, fields, [], [], path, stack, found, false);
      case Arr(items) => SameItemsExactlyWhen(env, items, [], [], path, stack, found, false);
      case _ =>
    }
  }

  lemma {:induction false} SameFieldsExactlyWhen(
    env: Env, fields: seq<Field>, stacked: seq<Field>, pure: seq<Field>, path: Path, stack: Path, found: bool, seen: bool)
    requires Healed(env) && SingleFields(env.marker, fields) && UniqueInFields(fields)
    requires Apart(env, FieldsUnmarked(env.marker, fields), path, stack) && Beside(stacked, pure, fields)
    requires !FieldsFail(env, fields, path, false) && !FieldsFail(env, fields, stack, true)
    ensures StackFields(env, fields, stacked, stack, found).value == PureFields(env, fields, pure, path, seen).value
            <==> stacked == pure && SameRouteFields(env, fields, path, stack)
    decreases fields, 2
  {
    if fields != [] && !Contains(fields[0].key, env.marker) {
      SingleFieldsSplit(env.marker, fields);
      if MarkedString(env, fields[0].value) {
        SameMarkedString(env, fields, stacked, pure, path, found, seen);
      } else if fields[0].value.Str? {
        SameStringAndRest(env, fields, stacked, pure, path, stack, found, seen);
      } else {
        SameFieldAndRest(env, fields, stacked, pure, path, stack, found, seen);
      }
    }
  }

  lemma SameMarkedString(
    env: Env, fields: seq<Field>, stacked: seq<Field>, pure: seq<Field>, path: Path, found: bool, seen: bool)
    requires Healed(env) && fields != [] && !Contains(fields[0].key, env.marker) && MarkedString(env, fields[0].value)
    requires Beside(stacked, pure, fields) && UniqueInFields(fields)
    ensures StackFields(env, fields, stacked, path, found).value == PureFields(env, fields, pure, path, seen).value
            <==> stacked == pure
  {
    var value, inner := fields[0].value, path + [fields[0].key];
    if inner in env.contentPaths && env.marker == env.dumpMarker {
      var v := PureClean(env, value, inner).value.value;
      BesideGrows(stacked, pure, fields, v, v);
    }
  }

  lemma StackOneField(env: Env, fields: seq<Field>, obj: seq<Field>, path: Path, found: bool)
    requires fields != [] && !Contains(fields[0].key, env.healingMarker) && !fields[0].value.Str?
    ensures var inner := path + [fields[0].key];
            var w := StackClean(env, fields[0].value, inner, found);
            w.value.Ok? ==>
              StackFields(env, fields, obj, path, found)
              == StackFields(env, fields[1..], SetField(obj, fields[0].key, w.value.value), After(env, fields[0].value, inner), w.found)
  {
    StackGoes(env, fields[0].value, path + [fields[0].key], found);
  }

  lemma PureOneField(env: Env, fields: seq<Field>, obj: seq<Field>, path: Path, seen: bool)
    requires fields != [] && !Contains(fields[0].key, env.healingMarker) && !fields[0].value.Str?
    ensures var p := PureClean(env, fields[0].value, path + [fields[0].key]);
            p.value.Ok? ==>
              PureFields(env, fields, obj, path, seen)
              == PureFields(env, fields[1..], SetField(obj, fields[0].key, p.value.value), path, seen || p.found)
  {
  }

  /** A string copied by both walks, and the rest. */
  lemma {:induction false} SameStringAndRest(
    env: Env, fields: seq<Field>, stacked: seq<Field>, pure: seq<Field>, path: Path, stack: Path, found: bool, seen: bool)
    requires Healed(env) && fields != [] && !Contains(fields[0].key, env.marker)
    requires fields[0].value.Str? && !Contains(fields[0].value.s, env.marker)
    requires SingleFields(env.marker, fields[1..]) && UniqueInFields(fields)
    requires Apart(env, FieldsUnmarked(env.marker, fields), path, stack) && Beside(stacked, pure, fields)
    requires !FieldsFail(env, fields, path, false) && !FieldsFail(env, fields, stack, true)
    ensures StackFields(env, fields, stacked, stack, found).value == PureFields(env, fields, pure, path, seen).value
            <==> stacked == pure && SameRouteFields(env, fields, path, stack)
    decreases fields, 1
  {
    var key, value, rest := fields[0].key, fields[0].value, fields[1..];
    var a, b := SetField(stacked, key, value), SetField(pure, key, value);
    NothingAfter(env, value, stack, key);
    BesideGrows(stacked, pure, fields, value, value);
    SameFieldsExactlyWhen(env, rest, a, b, path, stack, found, seen);
    assert StackFields(env, fields, stacked, stack, found) == StackFields(env, rest, a, stack, found);
    assert PureFields(env, fields, pure, path, seen) == PureFields(env, rest, b, path, seen);
  }

  /** Any other value, cleaned by both walks, and the rest. */
  lemma {:induction false} SameFieldAndRest(
    env: Env, fields: seq<Field>, stacked: seq<Field>, pure: seq<Field>, path: Path, stack: Path, found: bool, seen: bool)
    requires Healed(env) && fields != [] && !Contains(fields[0].key, env.marker) && !fields[0].value.Str?
    requires Single(env.marker, fields[0].value) && SingleFields(env.marker, fields[1..]) && UniqueInFields(fields)
    requires !Unmarked(env.marker, fields[0].value) ==> FieldsUnmarked(env.marker, fields[1..])
    requires Apart(env, FieldsUnmarked(env.marker, fields), path, stack) && Beside(stacked, pure, fields)
    requires !FieldsFail(env, fields, path, false) && !FieldsFail(env, fields, stack, true)
    ensures StackFields(env, fields, stacked, stack, found).value == PureFields(env, fields, pure, path, seen).value
            <==> stacked == pure && SameRouteFields(env, fields, path, stack)
    decreases fields, 1
  {
    var key, value, rest := fields[0].key, fields[0].value, fields[1..];
    var inner, deep := path + [key], stack + [key];
    var next := After(env, value, deep);
    if Unmarked(env.marker, value) {
      NothingAfter(env, value, stack, key);
    }
    StackGoes(env, value, deep, found);
    PureComes(env, value, inner);
    SameExactlyWhen(env, value, inner, deep, found);
    var w, p := StackClean(env, value, deep, found), PureClean(env, value, inner);
    var a, b := SetField(stacked, key, w.value.value), SetField(pure, key, p.value.value);
    var more := seen || p.found;
    BesideGrows(stacked, pure, fields, w.value.value, p.value.value);
    SameFieldsExactlyWhen(env, rest, a, b, path, next, w.found, more);
    StackOneField(env, fields, stacked, stack, found);
    PureOneField(env, fields, pure, path, seen);
  }

  lemma {:induction false} SameItemsExactlyWhen(
    env: Env, items: seq<Json>, stacked: seq<Json>, pure: seq<Json>, path: Path, stack: Path, found: bool, seen: bool)
    requires Healed(env) && SingleItems(env.marker, items) && UniqueInItems(items)
    requires Apart(env, ItemsUnmarked(env.marker, items), path, stack) && |stacked| == |pure|
    requires !ItemsFail(env, items, path, false) && !ItemsFail(env, items, stack, true)
    ensures StackItems(env, items, stacked, stack, found).value == PureItems(env, items, pure, path, seen).value
            <==> stacked == pure && SameRouteItems(env, items, path, stack)
    decreases items, 1
  {
    if items != [] && !MarkedString(env, items[0]) {
      var value, rest := items[0], items[1..];
      SingleItemsSplit(env.marker, items);
      if Unmarked(env.marker, value) {
        UnmarkedLeavesNothing(env, value, stack);
      }
      StackGoes(env, value, stack, found);
      PureComes(env, value, path);
      SameExactlyWhen(env, value, path, stack, found);
      var w, p := StackClean(env, value, stack, found), PureClean(env, value, path);
      var a, b := w.value.value, p.value.value;
      SnocEqual(stacked, a, pure, b);
      SameItemsExactlyWhen(env, rest, stacked + [a], pure + [b], path, w.path, w.found, seen || p.found);
    }
  }

  /**
   * For every value a healed input can give: the walk with the shared stack gives the value of the walk that passes the
   * path down exactly if both raise, or neither does and the stack takes the same parts for arguments. The condition reads
   * off the value and the paths.
   */
  lemma StackEqualsPureExactlyWhen(env: Env, parsed: Parsed)
    requires ParserContract(parsed, env.healingMarker) && ReportedBy(env, parsed) && env.isPartial && env.marker != ""
    ensures var j := parsed.json;
            StackClean(env, j, [], false).value == PureClean(env, j, []).value
            <==> (|| (Fails(env, j, [], true) && Fails(env, j, [], false))
                  || (!Fails(env, j, [], true) && !Fails(env, j, [], false) && SameRoute(env, j, [], [])))
  {
    var j := parsed.json;
    var i := MarkedShows(j, env.marker);
    StackGoes(env, j, [], false);
    PureComes(env, j, []);
    if !Fails(env, j, [], true) && !Fails(env, j, [], false) {
      SameExactlyWhen(env, j, [], [], false);
    }
  }
}
