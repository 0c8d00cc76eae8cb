/** The string helpers of common.cpp that the chat parser and the argument parser rest on. */
module StringUtils {

  datatype Option<+T> = None | Some(value: T) {
    predicate IsFailure() {
      None?
    }

    function PropagateFailure<U>(): Option<U>
      requires None?
    {
      None
    }

    function Extract(): T
      requires Some?
    {
      value
    }
  }

  /** Err stands for an exception. */
  datatype Result<+T> = Ok(value: T) | Err(error: string) {
    predicate IsFailure() {
      Err?
    }

    function PropagateFailure<U>(): Result<U>
      requires Err?
    {
      Err(error)
    }

    function Extract(): T
      requires Ok?
    {
      value
    }
  }

  // ----- character classes and searching (the C library's part) -----

  /** std::isspace in the C locale: space, and the five control characters from tab to carriage return. */
  predicate IsSpace(c: char) {
    c == ' ' || '\t' <= c <= '\r'
  }

  predicate OccursAt(s: string, pattern: string, i: nat) {
    i + |pattern| <= |s| && s[i..i + |pattern|] == pattern
  }

  /** std::string::find: the first occurrence at or after `from`. */
  function Find(s: string, pattern: string, from: nat): (r: Option<nat>)
    ensures r.Some? ==> from <= r.value && OccursAt(s, pattern, r.value)
    ensures r.Some? ==> forall j: nat :: from <= j < r.value ==> !OccursAt(s, pattern, j)
    ensures r.None? ==> forall j: nat :: from <= j ==> !OccursAt(s, pattern, j)
    decreases |s| - from
  {
    if OccursAt(s, pattern, from) then Some(from)
    else if from >= |s| then None
    else Find(s, pattern, from + 1)
  }

  lemma FindIs(s: string, pattern: string, from: nat, i: nat)
    requires from <= i && OccursAt(s, pattern, i)
    requires forall j: nat :: from <= j < i ==> !OccursAt(s, pattern, j)
    ensures Find(s, pattern, from) == Some(i)
  {
    if Find(s, pattern, from).None? {
      assert false;
    }
  }

  /** An occurrence in a prefix is an occurrence in the whole text, and conversely when it fits. */
  lemma OccursInExtension(p: string, q: string, pattern: string, i: nat)
    requires p <= q
    ensures OccursAt(p, pattern, i) ==> OccursAt(q, pattern, i)
    ensures OccursAt(q, pattern, i) && i + |pattern| <= |p| ==> OccursAt(p, pattern, i)
  {
    if i + |pattern| <= |p| {
      assert q[i..i + |pattern|] == p[i..i + |pattern|];
    }
  }

  lemma OccursInSlice(s: string, a: nat, b: nat, pattern: string, i: nat)
    requires a <= b <= |s|
    ensures OccursAt(s[a..b], pattern, i) ==> OccursAt(s, pattern, a + i) && a + i + |pattern| <= b
  {
    if i + |pattern| <= b - a {
      var n := i + |pattern|;
      assert s[a..b] == s[a..a + n] + s[a + n..b];
      assert s[a..b][..n] == s[a..a + n];
      assert s[a..b][i..n] == s[a..b][..n][i..] == s[a + i..a + n];
    }
  }

  // ----- string_strip -----

  function SkipSpaces(s: string, i: nat): (r: nat)
    requires i <= |s|
    ensures i <= r <= |s|
    ensures forall k :: i <= k < r ==> IsSpace(s[k])
    ensures r < |s| ==> !IsSpace(s[r])
    decreases |s| - i
  {
    if i < |s| && IsSpace(s[i]) then SkipSpaces(s, i + 1) else i
  }

  function TrimEnd(s: string, lo: nat, hi: nat): (r: nat)
    requires lo <= hi <= |s|
    ensures lo <= r <= hi
    ensures forall k :: r <= k < hi ==> IsSpace(s[k])
    ensures lo < r ==> !IsSpace(s[r - 1])
  {
    if lo < hi && IsSpace(s[hi - 1]) then TrimEnd(s, lo, hi - 1) else hi
  }

  function Strip(s: string): string {
    var start := SkipSpaces(s, 0);
    s[start..TrimEnd(s, start, |s|)]
  }

  method StringStrip(s: string) returns (r: string)
    ensures r == Strip(s)
  {
    var start, end := 0, |s|;
    while start < end && IsSpace(s[start])
      invariant 0 <= start <= end == |s|
      invariant SkipSpaces(s, start) == SkipSpaces(s, 0)
    {
      start := start + 1;
    }
    assert start == SkipSpaces(s, 0);
    while end > start && IsSpace(s[end - 1])
      invariant start <= end <= |s|
      invariant TrimEnd(s, start, end) == TrimEnd(s, start, |s|)
    {
      end := end - 1;
    }
    r := s[start..end];
  }

  predicate AllSpace(s: string) {
    forall k :: 0 <= k < |s| ==> IsSpace(s[k])
  }

  /** `core` is `s` between its outermost non-space characters. */
  ghost predicate IsCoreOf(core: string, s: string, left: string, right: string) {
    && s == left + core + right && AllSpace(left) && AllSpace(right)
    && (core != [] ==> !IsSpace(core[0]) && !IsSpace(core[|core| - 1]))
  }

  /** Strip finds the one core there is, whichever way the text is cut up. */
  lemma StripIsTheCore(s: string, core: string, left: string, right: string)
    requires IsCoreOf(core, s, left, right)
    ensures Strip(s) == core
  {
    var start := SkipSpaces(s, 0);
    if core == [] {
      assert forall k :: 0 <= k < |s| ==> IsSpace(s[k]);
      assert start == |s|;
    } else {
      assert s[|left|] == core[0];
      assert s[|left| + |core| - 1] == core[|core| - 1];
      assert start == |left|;
      assert TrimEnd(s, start, |s|) == |left| + |core|;
    }
  }

  /** Stripping respects prefixes, which is what lets a stripped snapshot be extended by a longer one. */
  lemma StripMonotone(p: string, q: string)
    requires p <= q
    ensures Strip(p) <= Strip(q)
  {
    var start := SkipSpaces(p, 0);
    if start < |p| {
      assert p[start] == q[start];
      assert SkipSpaces(q, 0) == start;
      var ep, eq := TrimEnd(p, start, |p|), TrimEnd(q, start, |q|);
      assert !IsSpace(q[ep - 1]);
      assert ep <= eq;
      assert p[start..ep] == q[start..ep];
    }
  }

  // ----- string_find_partial_stop -----

  /** The text from `i` on is a non-empty beginning of `stop`. */
  predicate PartialAt(str: string, stop: string, i: nat) {
    i < |str| && str[i..] <= stop
  }

  /** Where the longest suffix of `str` that begins `stop` starts, if there is one. */
  function PartialStop(str: string, stop: string, from: nat := 0): (r: Option<nat>)
    ensures r.Some? ==> from <= r.value && PartialAt(str, stop, r.value)
    ensures r.Some? ==> forall j: nat :: from <= j < r.value ==> !PartialAt(str, stop, j)
    ensures r.None? ==> forall j: nat :: from <= j ==> !PartialAt(str, stop, j)
    decreases |str| - from
  {
    if from >= |str| then None
    else if PartialAt(str, stop, from) then Some(from)
    else PartialStop(str, stop, from + 1)
  }

  predicate EndsWith(str: string, suffix: string) {
    |str| >= |suffix| && str[|str| - |suffix|..] == suffix
  }

  /** Scans `stop` from its end, testing the last character before the whole comparison. */
  method FindPartialStop(str: string, stop: string) returns (r: Option<nat>)
    ensures r == PartialStop(str, stop)
  {
    if str != [] && stop != [] {
      var textLastChar := str[|str| - 1];
      var charIndex := |stop| - 1;
      while charIndex >= 0
        invariant -1 <= charIndex < |stop|
        invariant forall j: nat :: PartialAt(str, stop, j) ==> |str| - j <= charIndex + 1
      {
        if stop[charIndex] == textLastChar {
          var currentPartial := stop[..charIndex + 1];
          if EndsWith(str, currentPartial) {
            var at := |str| - charIndex - 1;
            assert PartialAt(str, stop, at);
            return Some(at);
          }
        }
        assert forall j: nat :: PartialAt(str, stop, j) && |str| - j == charIndex + 1 ==>
            str[j..][charIndex] == textLastChar && EndsWith(str, stop[..charIndex + 1]);
        charIndex := charIndex - 1;
      }
    }
    r := None;
  }

  /** Writing behind the place where reading goes on. */
  lemma Written<T>(s: seq<T>, out: nat, b: T, next: nat)
    requires out < next <= |s|
    ensures s[out := b][..out + 1] == s[..out] + [b] && s[out := b][next..] == s[next..]
  {
  }

  lemma Assoc<T>(a: seq<T>, b: seq<T>, c: seq<T>)
    ensures a + b + c == a + (b + c)
  {
  }

  // ----- string_split, string_join, string_replace_all -----

  function Split(s: string, delimiter: string, start: nat): (parts: seq<string>)
    requires delimiter != [] && start <= |s|
    ensures parts != []
    decreases |s| - start
  {
    var end := Find(s, delimiter, start);
    if end.None? then [s[start..]]
    else [s[start..end.value]] + Split(s, delimiter, end.value + |delimiter|)
  }

  function Join(values: seq<string>, separator: string): string {
    if values == [] then ""
    else if |values| == 1 then values[0]
    else values[0] + separator + Join(values[1..], separator)
  }

  /** One turn of the splitting loop, put so that the parts found so far can absorb it. */
  lemma SplitStep(parts: seq<string>, s: string, delimiter: string, start: nat)
    requires delimiter != [] && start <= |s| && Find(s, delimiter, start).Some?
    ensures var end := Find(s, delimiter, start).value;
            parts + Split(s, delimiter, start) == parts + [s[start..end]] + Split(s, delimiter, end + |delimiter|)
  {
  }

  method StringSplit(str: string, delimiter: string) returns (parts: seq<string>)
    requires delimiter != []
    ensures parts == Split(str, delimiter, 0)
  {
    parts := [];
    var start := 0;
    var end := Find(str, delimiter, 0);
    ghost var all := Split(str, delimiter, 0);
    assert parts + all == all;
    while end.Some?
      invariant start <= |str| && end == Find(str, delimiter, start)
      invariant parts + Split(str, delimiter, start) == all
      decreases |str| - start
    {
      SplitStep(parts, str, delimiter, start);
      parts := parts + [str[start..end.value]];
      start := end.value + |delimiter|;
      end := Find(str, delimiter, start);
    }
    assert Split(str, delimiter, start) == [str[start..]];
    parts := parts + [str[start..]];
  }

  lemma JoinCons(first: string, rest: seq<string>, separator: string)
    requires rest != []
    ensures Join([first] + rest, separator) == first + separator + Join(rest, separator)
  {
    assert ([first] + rest)[1..] == rest;
  }

  lemma JoinSnoc(values: seq<string>, last: string, separator: string)
    requires values != []
    ensures Join(values + [last], separator) == Join(values, separator) + separator + last
  {
    if |values| > 1 {
      assert (values + [last])[1..] == values[1..] + [last];
      JoinSnoc(values[1..], last, separator);
    }
  }

  method StringJoin(values: seq<string>, separator: string) returns (result: string)
    ensures result == Join(values, separator)
  {
    result := "";
    for i := 0 to |values|
      invariant result == Join(values[..i], separator)
    {
      assert values[..i + 1] == values[..i] + [values[i]];
      if i > 0 {
        JoinSnoc(values[..i], values[i], separator);
        result := result + separator;
      }
      result := result + values[i];
    }
    assert values[..|values|] == values;
  }

  /** What the rebuilding loop still produces once `built` is done and the text before `start` is used up. */
  function Rebuilt(s: string, search: string, replace: string, start: nat, built: string): string
    requires search != [] && start <= |s|
    decreases |s| - start
  {
    var pos := Find(s, search, start);
    if pos.None? then built + s[start..]
    else Rebuilt(s, search, replace, pos.value + |search|, built + s[start..pos.value] + replace)
  }

  lemma {:induction false} RebuiltIsJoin(s: string, search: string, replace: string, start: nat, built: string)
    requires search != [] && start <= |s|
    ensures Rebuilt(s, search, replace, start, built) == built + Join(Split(s, search, start), replace)
    decreases |s| - start
  {
    var pos := Find(s, search, start);
    if pos.Some? {
      var piece, next := s[start..pos.value], pos.value + |search|;
      RebuiltIsJoin(s, search, replace, next, built + piece + replace);
      var rest := Split(s, search, next);
      JoinCons(piece, rest, replace);
      Assoc(built, piece, replace);
      Assoc(built, piece + replace, Join(rest, replace));
    }
  }

  /** Rebuilds the text with every occurrence, taken left to right without overlap, exchanged. */
  method StringReplaceAll(s: string, search: string, replace: string) returns (r: string)
    ensures search == [] ==> r == s
    ensures search != [] ==> r == Join(Split(s, search, 0), replace)
  {
    if search == [] {
      return s;
    }
    var builder := "";
    var lastPos := 0;
    var pos := Find(s, search, 0);
    while pos.Some?
      invariant lastPos <= |s| && pos == Find(s, search, lastPos)
      invariant Rebuilt(s, search, replace, lastPos, builder) == Rebuilt(s, search, replace, 0, "")
      decreases |s| - lastPos
    {
      builder := builder + s[lastPos..pos.value];
      builder := builder + replace;
      lastPos := pos.value + |search|;
      pos := Find(s, search, lastPos);
    }
    r := builder + s[lastPos..];
    RebuiltIsJoin(s, search, replace, 0, "");
    assert "" + Join(Split(s, search, 0), replace) == Join(Split(s, search, 0), replace);
  }

  lemma CutAt(s: string, a: nat, b: nat, c: nat)
    requires a <= b <= c <= |s|
    ensures s[a..] == s[a..b] + s[b..c] + s[c..]
  {
  }

  /** Joining the parts with their own delimiter restores the text. */
  lemma {:induction false} JoinSplit(s: string, delimiter: string, start: nat)
    requires delimiter != [] && start <= |s|
    ensures Join(Split(s, delimiter, start), delimiter) == s[start..]
    decreases |s| - start
  {
    var end := Find(s, delimiter, start);
    if end.Some? {
      var next := end.value + |delimiter|;
      JoinSplit(s, delimiter, next);
      JoinCons(s[start..end.value], Split(s, delimiter, next), delimiter);
      CutAt(s, start, end.value, next);
    }
  }

  /** No part contains the delimiter anywhere. */
  lemma {:induction false} SplitPartsAreClean(s: string, delimiter: string, start: nat, k: nat, i: nat)
    requires delimiter != [] && start <= |s| && k < |Split(s, delimiter, start)|
    ensures !OccursAt(Split(s, delimiter, start)[k], delimiter, i)
    decreases |s| - start
  {
    var end := Find(s, delimiter, start);
    if k > 0 {
      SplitPartsAreClean(s, delimiter, end.value + |delimiter|, k - 1, i);
    } else {
      var stop := if end.Some? then end.value else |s|;
      assert Split(s, delimiter, start)[0] == s[start..stop];
      OccursInSlice(s, start, stop, delimiter, i);
    }
  }

  /** Splitting a join of delimiter-free parts on a one-character delimiter gives the parts back. */
  lemma SplitJoin(parts: seq<string>, c: char)
    requires parts != []
    requires forall k :: 0 <= k < |parts| ==> c !in parts[k]
    ensures Split(Join(parts, [c]), [c], 0) == parts
  {
    SplitJoinFrom(Join(parts, [c]), 0, parts, c);
  }

  lemma {:induction false} SplitJoinFrom(s: string, start: nat, parts: seq<string>, c: char)
    requires start <= |s| && parts != [] && s[start..] == Join(parts, [c])
    requires forall k :: 0 <= k < |parts| ==> c !in parts[k]
    ensures Split(s, [c], start) == parts
    decreases |parts|
  {
    if |parts| == 1 {
      NotIn(s, start, parts[0], c);
    } else {
      var first, rest := parts[0], parts[1..];
      assert parts == [first] + rest;
      JoinCons(first, rest, [c]);
      var next := start + |first| + 1;
      SplitFirst(s, start, first, c, Join(rest, [c]));
      SplitJoinFrom(s, next, rest, c);
    }
  }

  lemma SplitFirst(s: string, start: nat, part: string, c: char, after: string)
    requires start <= |s| && s[start..] == part + [c] + after && c !in part
    ensures start + |part| + 1 <= |s| && s[start + |part| + 1..] == after
    ensures Split(s, [c], start) == [part] + Split(s, [c], start + |part| + 1)
  {
    var at := start + |part|;
    assert s[start..][..|part|] == part;
    assert s[start..at] == part;
    assert s[at] == s[start..][|part|] == c;
    assert s[at..at + 1] == [c];
    assert s[at + 1..] == s[start..][|part| + 1..] == after;
    NotIn(s, start, part, c);
    FindIs(s, [c], start, at);
  }

  lemma NotIn(s: string, start: nat, part: string, c: char)
    requires start + |part| <= |s| && s[start..start + |part|] == part && c !in part
    ensures forall j: nat :: start <= j < start + |part| ==> !OccursAt(s, [c], j)
  {
    forall j: nat | start <= j < start + |part| ensures !OccursAt(s, [c], j) {
      assert s[j] == part[j - start];
      assert s[j] == s[j..j + 1][0];
    }
  }
}
