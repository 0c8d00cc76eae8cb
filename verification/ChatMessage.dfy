/** Chat messages, the deltas sent between two snapshots of one, and the pinning of tool-call ids. */
module ChatMessage {
  import opened StringUtils

  datatype ToolCall = ToolCall(name: string, arguments: string, id: string)

  /** The fields of a message that the deltas carry. */
  datatype Message = Message(reasoning: string, content: string, toolCalls: seq<ToolCall>)

  const EMPTY_CALL := ToolCall("", "", "")
  const EMPTY_MESSAGE := Message("", "", [])

  predicate IsEmpty(msg: Message) {
    msg.content == "" && msg.toolCalls == [] && msg.reasoning == ""
  }

  datatype Diff = Diff(reasoningDelta: string, contentDelta: string, toolCallIndex: Option<nat>, toolCallDelta: ToolCall)

  // ----- the sending side -----

  function StringDiff(last: string, current: string): Result<string> {
    if last == "" then Ok(current)
    else if !(last <= current) then
      if current <= last then Ok("") else Err("Invalid diff")
    else Ok(current[|last|..])
  }

  function TextDiffs(last: string, current: string, wrap: string -> Diff): Result<seq<Diff>> {
    if last == current then Ok([])
    else match StringDiff(last, current)
      case Ok(delta) => Ok([wrap(delta)])
      case Err(e) => Err(e)
  }

  function ReasoningDiff(delta: string): Diff { Diff(delta, "", None, EMPTY_CALL) }
  function ContentDiff(delta: string): Diff { Diff("", delta, None, EMPTY_CALL) }
  function CallDiff(index: nat, call: ToolCall): Diff { Diff("", "", Some(index), call) }

  /** Only the last call of the previous snapshot can still be growing. */
  function LastCallDiffs(previous: Message, current: Message): Result<seq<Diff>>
    requires |previous.toolCalls| <= |current.toolCalls|
  {
    if previous.toolCalls == [] then Ok([])
    else
      var idx := |previous.toolCalls| - 1;
      var p, n := previous.toolCalls[idx], current.toolCalls[idx];
      if p.name != n.name then Err("Invalid diff: tool call mismatch!")
      else match StringDiff(p.arguments, n.arguments)
        case Err(e) => Err(e)
        case Ok(delta) =>
          if p.id != n.id then Ok([CallDiff(idx, ToolCall(n.name, delta, n.id))])
          else if delta != "" then Ok([CallDiff(idx, ToolCall("", delta, ""))])
          else Ok([])
  }

  function NewCallDiffs(calls: seq<ToolCall>, from: nat): seq<Diff>
    decreases |calls| - from
  {
    if from >= |calls| then [] else [CallDiff(from, calls[from])] + NewCallDiffs(calls, from + 1)
  }

  function Diffs(previous: Message, current: Message): Result<seq<Diff>> {
    match TextDiffs(previous.reasoning, current.reasoning, ReasoningDiff)
    case Err(e) => Err(e)
    case Ok(reasoning) =>
      match TextDiffs(previous.content, current.content, ContentDiff)
      case Err(e) => Err(e)
      case Ok(content) =>
        if |current.toolCalls| < |previous.toolCalls| then Err("Invalid diff: now finding less tool calls!")
        else match LastCallDiffs(previous, current)
          case Err(e) => Err(e)
          case Ok(last) =>
            Ok(reasoning + content + last + NewCallDiffs(current.toolCalls, |previous.toolCalls|))
  }

  /** compute_diffs: grows the list of deltas step by step, and throws (Err) when no delta can explain the change. */
  method ComputeDiffs(previous: Message, current: Message) returns (r: Result<seq<Diff>>)
    ensures r == Diffs(previous, current)
  {
    var diffs: seq<Diff> := [];
    if previous.reasoning != current.reasoning {
      var d := StringDiff(previous.reasoning, current.reasoning);
      if d.Err? { return Err(d.error); }
      diffs := diffs + [ReasoningDiff(d.value)];
    }
    if previous.content != current.content {
      var d := StringDiff(previous.content, current.content);
      if d.Err? { return Err(d.error); }
      diffs := diffs + [ContentDiff(d.value)];
    }
    if |current.toolCalls| < |previous.toolCalls| {
      return Err("Invalid diff: now finding less tool calls!");
    }
    if previous.toolCalls != [] {
      var idx := |previous.toolCalls| - 1;
      var p, n := previous.toolCalls[idx], current.toolCalls[idx];
      if p.name != n.name {
        return Err("Invalid diff: tool call mismatch!");
      }
      var args := StringDiff(p.arguments, n.arguments);
      if args.Err? { return Err(args.error); }
      if args.value != "" || p.id != n.id {
        var delta := EMPTY_CALL;
        if p.id != n.id {
          delta := delta.(id := n.id, name := n.name);
        }
        diffs := diffs + [CallDiff(idx, delta.(arguments := args.value))];
      }
    }
    ghost var before := diffs;
    assert before == TextDiffs(previous.reasoning, current.reasoning, ReasoningDiff).value
                   + TextDiffs(previous.content, current.content, ContentDiff).value
                   + LastCallDiffs(previous, current).value;
    ghost var added := NewCallDiffs(current.toolCalls, |previous.toolCalls|);
    for idx := |previous.toolCalls| to |current.toolCalls|
      invariant diffs + NewCallDiffs(current.toolCalls, idx) == before + added
    {
      diffs := diffs + [CallDiff(idx, current.toolCalls[idx])];
    }
    assert diffs + [] == diffs;
    r := Ok(diffs);
  }

  // ----- the receiving side: what a client that concatenates deltas ends up with -----

  function Merge(call: ToolCall, delta: ToolCall): ToolCall {
    ToolCall(if delta.name != "" then delta.name else call.name,
             call.arguments + delta.arguments,
             if delta.id != "" then delta.id else call.id)
  }

  /** A call index equal to the number of calls opens a new call; a smaller one continues an old call. */
  function Apply(msg: Message, d: Diff): Message {
    var calls :=
      if d.toolCallIndex.None? || d.toolCallIndex.value > |msg.toolCalls| then msg.toolCalls
      else if d.toolCallIndex.value == |msg.toolCalls| then msg.toolCalls + [d.toolCallDelta]
      else msg.toolCalls[d.toolCallIndex.value := Merge(msg.toolCalls[d.toolCallIndex.value], d.toolCallDelta)];
    Message(msg.reasoning + d.reasoningDelta, msg.content + d.contentDelta, calls)
  }

  function Fold(msg: Message, diffs: seq<Diff>): Message
    decreases |diffs|
  {
    if diffs == [] then msg else Fold(Apply(msg, diffs[0]), diffs[1..])
  }

  lemma {:induction false} FoldConcat(msg: Message, a: seq<Diff>, b: seq<Diff>)
    ensures Fold(msg, a + b) == Fold(Fold(msg, a), b)
    decreases |a|
  {
    if a == [] {
      assert a + b == b;
    } else {
      assert (a + b)[1..] == a[1..] + b;
      FoldConcat(Apply(msg, a[0]), a[1..], b);
    }
  }

  lemma {:induction false} FoldNewCalls(msg: Message, calls: seq<ToolCall>)
    requires |msg.toolCalls| <= |calls|
    ensures Fold(msg, NewCallDiffs(calls, |msg.toolCalls|))
         == msg.(toolCalls := msg.toolCalls + calls[|msg.toolCalls|..])
    decreases |calls| - |msg.toolCalls|
  {
    var from := |msg.toolCalls|;
    if from < |calls| {
      var next := Apply(msg, CallDiff(from, calls[from]));
      assert next == msg.(toolCalls := msg.toolCalls + [calls[from]]);
      FoldNewCalls(next, calls);
      assert msg.toolCalls + calls[from..] == next.toolCalls + calls[from + 1..];
    } else {
      assert msg.toolCalls + calls[from..] == msg.toolCalls;
    }
  }

  // ----- which snapshots can follow which -----

  /** `current` continues `call`: arguments grow, the name stays, and an id is never taken back. */
  predicate CallExtends(call: ToolCall, current: ToolCall) {
    call.name == current.name && call.arguments <= current.arguments && (call.id == current.id || current.id != "")
  }

  /** `current` continues `previous`: texts grow, every call but the last is final, the last may grow. */
  predicate Extends(previous: Message, current: Message) {
    && previous.reasoning <= current.reasoning
    && previous.content <= current.content
    && |previous.toolCalls| <= |current.toolCalls|
    && (forall i :: 0 <= i < |previous.toolCalls| - 1 ==> previous.toolCalls[i] == current.toolCalls[i])
    && (previous.toolCalls != [] ==>
          var last := |previous.toolCalls| - 1;
          CallExtends(previous.toolCalls[last], current.toolCalls[last]))
  }

  predicate Comparable(a: string, b: string) {
    a <= b || b <= a
  }

  /** compute_diffs throws exactly when a text is neither longer nor shorter than before, or a call vanished or was renamed. */
  lemma DiffsThrowExactlyWhen(previous: Message, current: Message)
    ensures Diffs(previous, current).Ok? <==>
            && Comparable(previous.reasoning, current.reasoning)
            && Comparable(previous.content, current.content)
            && |previous.toolCalls| <= |current.toolCalls|
            && (previous.toolCalls != [] ==>
                  var last := |previous.toolCalls| - 1;
                  && previous.toolCalls[last].name == current.toolCalls[last].name
                  && Comparable(previous.toolCalls[last].arguments, current.toolCalls[last].arguments))
  {
  }

  /** What a client makes of a last call that went from `p` to `n`. */
  function GrownCall(p: ToolCall, n: ToolCall): ToolCall {
    ToolCall(n.name, Longer(p.arguments, n.arguments), if n.id != "" then n.id else p.id)
  }

  function Longer(a: string, b: string): string {
    if a <= b then b else a
  }

  /** The last call of `previous` as a client holds it after the step; earlier calls stay as they were. */
  function GrownCalls(previous: Message, current: Message): seq<ToolCall>
    requires |previous.toolCalls| <= |current.toolCalls|
  {
    if previous.toolCalls == [] then []
    else
      var last := |previous.toolCalls| - 1;
      previous.toolCalls[last := GrownCall(previous.toolCalls[last], current.toolCalls[last])]
  }

  /** What folding one step's deltas gives, whether or not the new snapshot extends the old one. */
  lemma FoldOfDiffs(previous: Message, current: Message)
    requires Diffs(previous, current).Ok?
    ensures Fold(previous, Diffs(previous, current).value)
         == Message(Longer(previous.reasoning, current.reasoning),
                    Longer(previous.content, current.content),
                    GrownCalls(previous, current) + current.toolCalls[|previous.toolCalls|..])
  {
    var a := TextDiffs(previous.reasoning, current.reasoning, ReasoningDiff).value;
    var b := TextDiffs(previous.content, current.content, ContentDiff).value;
    var c := LastCallDiffs(previous, current).value;
    FoldReasoning(previous, current.reasoning);
    var m1 := Fold(previous, a);
    FoldContent(m1, current.content);
    var m2 := Fold(m1, b);
    FoldLastCall(m2, previous, current);
    FoldNewCalls(Fold(m2, c), current.toolCalls);
    FoldFour(previous, a, b, c, NewCallDiffs(current.toolCalls, |previous.toolCalls|));
  }

  lemma StringDiffAppends(last: string, current: string)
    requires StringDiff(last, current).Ok?
    ensures last + StringDiff(last, current).value == Longer(last, current)
    ensures StringDiff(last, current).value == "" ==> Longer(last, current) == last
  {
  }

  lemma FoldReasoning(msg: Message, reasoning: string)
    requires TextDiffs(msg.reasoning, reasoning, ReasoningDiff).Ok?
    ensures Fold(msg, TextDiffs(msg.reasoning, reasoning, ReasoningDiff).value)
         == msg.(reasoning := Longer(msg.reasoning, reasoning))
  {
    FoldAtMostOne(msg, TextDiffs(msg.reasoning, reasoning, ReasoningDiff).value);
  }

  lemma FoldContent(msg: Message, content: string)
    requires TextDiffs(msg.content, content, ContentDiff).Ok?
    ensures Fold(msg, TextDiffs(msg.content, content, ContentDiff).value)
         == msg.(content := Longer(msg.content, content))
  {
    FoldAtMostOne(msg, TextDiffs(msg.content, content, ContentDiff).value);
  }

  lemma FoldLastCall(msg: Message, previous: Message, current: Message)
    requires |previous.toolCalls| <= |current.toolCalls| && LastCallDiffs(previous, current).Ok?
    requires msg.toolCalls == previous.toolCalls
    ensures Fold(msg, LastCallDiffs(previous, current).value) == msg.(toolCalls := GrownCalls(previous, current))
  {
    FoldAtMostOne(msg, LastCallDiffs(previous, current).value);
    if previous.toolCalls != [] {
      var last := |previous.toolCalls| - 1;
      var p, n := previous.toolCalls[last], current.toolCalls[last];
      StringDiffAppends(p.arguments, n.arguments);
      if LastCallDiffs(previous, current).value == [] {
        assert GrownCall(p, n) == p && previous.toolCalls[last := p] == previous.toolCalls;
      } else {
        assert Merge(p, LastCallDiffs(previous, current).value[0].toolCallDelta) == GrownCall(p, n);
      }
    }
  }

  lemma FoldAtMostOne(msg: Message, diffs: seq<Diff>)
    requires |diffs| <= 1
    ensures Fold(msg, diffs) == if diffs == [] then msg else Apply(msg, diffs[0])
  {
    if diffs != [] {
      assert diffs[1..] == [];
    }
  }

  lemma FoldFour(msg: Message, a: seq<Diff>, b: seq<Diff>, c: seq<Diff>, d: seq<Diff>)
    ensures Fold(msg, a + b + c + d) == Fold(Fold(Fold(Fold(msg, a), b), c), d)
  {
    FoldConcat(msg, a, b);
    FoldConcat(msg, a + b, c);
    FoldConcat(msg, a + b + c, d);
  }

  lemma GrownCallIs(p: ToolCall, n: ToolCall)
    requires p.name == n.name && Comparable(p.arguments, n.arguments)
    ensures GrownCall(p, n) == n <==> CallExtends(p, n)
  {
  }

  lemma GrownCallsAre(previous: Message, current: Message)
    requires |previous.toolCalls| <= |current.toolCalls|
    ensures GrownCalls(previous, current) + current.toolCalls[|previous.toolCalls|..] == current.toolCalls
            <==> && (forall i :: 0 <= i < |previous.toolCalls| - 1 ==> previous.toolCalls[i] == current.toolCalls[i])
                 && (previous.toolCalls != [] ==>
                       var last := |previous.toolCalls| - 1;
                       GrownCall(previous.toolCalls[last], current.toolCalls[last]) == current.toolCalls[last])
  {
    var n, grown := |previous.toolCalls|, GrownCalls(previous, current);
    var all := grown + current.toolCalls[n..];
    assert forall i :: 0 <= i < n ==> all[i] == grown[i];
    assert forall i :: n <= i < |all| ==> all[i] == current.toolCalls[i];
  }

  /** The deltas are computed without error and rebuild the new snapshot exactly when it extends the old one. */
  lemma DiffsRebuildExactlyExtensions(previous: Message, current: Message)
    ensures (Diffs(previous, current).Ok? && Fold(previous, Diffs(previous, current).value) == current)
            <==> Extends(previous, current)
  {
    DiffsThrowExactlyWhen(previous, current);
    if Diffs(previous, current).Ok? {
      FoldOfDiffs(previous, current);
      GrownCallsAre(previous, current);
      if previous.toolCalls != [] {
        var last := |previous.toolCalls| - 1;
        GrownCallIs(previous.toolCalls[last], current.toolCalls[last]);
      }
    }
  }

  // ----- whole runs -----

  /** Every snapshot extends the one before it. */
  predicate IsChain(previous: Message, msgs: seq<Message>)
    decreases |msgs|
  {
    msgs == [] || (Extends(previous, msgs[0]) && IsChain(msgs[0], msgs[1..]))
  }

  function RunDiffs(previous: Message, msgs: seq<Message>): Result<seq<Diff>>
    decreases |msgs|
  {
    if msgs == [] then Ok([])
    else match Diffs(previous, msgs[0])
      case Err(e) => Err(e)
      case Ok(first) =>
        match RunDiffs(msgs[0], msgs[1..])
        case Err(e) => Err(e)
        case Ok(rest) => Ok(first + rest)
  }

  function Last(previous: Message, msgs: seq<Message>): Message {
    if msgs == [] then previous else msgs[|msgs| - 1]
  }

  /** Over a chain of snapshots no step throws, and all the deltas in order rebuild the last snapshot. */
  lemma {:induction false} RunRebuildsLast(previous: Message, msgs: seq<Message>)
    requires IsChain(previous, msgs)
    ensures RunDiffs(previous, msgs).Ok?
    ensures Fold(previous, RunDiffs(previous, msgs).value) == Last(previous, msgs)
    decreases |msgs|
  {
    if msgs != [] {
      DiffsRebuildExactlyExtensions(previous, msgs[0]);
      RunRebuildsLast(msgs[0], msgs[1..]);
      FoldConcat(previous, Diffs(previous, msgs[0]).value, RunDiffs(msgs[0], msgs[1..]).value);
    }
  }

  // ----- pinning tool-call ids -----

  function PinnedIds(calls: seq<ToolCall>, ids: seq<string>, gen: nat -> string): (r: seq<string>)
    ensures ids <= r && |r| == if |ids| < |calls| then |calls| else |ids|
    ensures forall i :: |ids| <= i < |calls| ==> r[i] == if calls[i].id != "" then calls[i].id else gen(i)
    decreases |calls| - |ids|
  {
    if |ids| >= |calls| then ids
    else
      var id := calls[|ids|].id;
      PinnedIds(calls, ids + [if id != "" then id else gen(|ids|)], gen)
  }

  function WithIds(calls: seq<ToolCall>, ids: seq<string>): seq<ToolCall>
    requires |calls| <= |ids|
  {
    seq(|calls|, i requires 0 <= i < |calls| => calls[i].(id := ids[i]))
  }

  function Pinned(msg: Message, ids: seq<string>, gen: nat -> string): Message {
    msg.(toolCalls := WithIds(msg.toolCalls, PinnedIds(msg.toolCalls, ids, gen)))
  }

  /** The ids handed out so far; one per tool-call position, kept for the life of a request. */
  class IdsCache {
    var ids: seq<string>

    constructor ()
      ensures ids == []
    {
      ids := [];
    }
  }

  class ChatMsg {
    var value: Message

    constructor (msg: Message)
      ensures value == msg
    {
      value := msg;
    }

    /** ensure_tool_call_ids_set. `gen(i)` is the id the generator would hand out for position i. */
    method EnsureToolCallIdsSet(cache: IdsCache, gen: nat -> string)
      modifies this, cache
      ensures value == Pinned(old(value), old(cache.ids), gen)
      ensures cache.ids == PinnedIds(old(value).toolCalls, old(cache.ids), gen)
    {
      ghost var calls, ids := value.toolCalls, cache.ids;
      ghost var all := PinnedIds(calls, ids, gen);
      var i := 0;
      while i < |value.toolCalls|
        invariant 0 <= i <= |value.toolCalls| == |calls|
        invariant value == old(value).(toolCalls := value.toolCalls)
        invariant |cache.ids| == if |ids| < i then i else |ids|
        invariant PinnedIds(calls, cache.ids, gen) == all
        invariant forall k :: 0 <= k < i ==> value.toolCalls[k] == calls[k].(id := all[k])
        invariant forall k :: i <= k < |calls| ==> value.toolCalls[k] == calls[k]
      {
        if |cache.ids| <= i {
          var id := value.toolCalls[i].id;
          if id == "" {
            id := gen(i);
          }
          cache.ids := cache.ids + [id];
        }
        value := value.(toolCalls := value.toolCalls[i := value.toolCalls[i].(id := cache.ids[i])]);
        i := i + 1;
      }
      assert value.toolCalls == WithIds(calls, all);
    }
  }

  /** What the parser keeps from one snapshot to the next, when it does not know the ids: names and arguments. */
  predicate ExtendsButForIds(previous: Message, current: Message) {
    && previous.reasoning <= current.reasoning
    && previous.content <= current.content
    && |previous.toolCalls| <= |current.toolCalls|
    && (forall i :: 0 <= i < |previous.toolCalls| ==> previous.toolCalls[i].name == current.toolCalls[i].name)
    && (forall i :: 0 <= i < |previous.toolCalls| - 1 ==>
          previous.toolCalls[i].arguments == current.toolCalls[i].arguments)
    && (previous.toolCalls != [] ==>
          var last := |previous.toolCalls| - 1;
          previous.toolCalls[last].arguments <= current.toolCalls[last].arguments)
  }

  predicate IsChainButForIds(previous: Message, msgs: seq<Message>)
    decreases |msgs|
  {
    msgs == [] || (ExtendsButForIds(previous, msgs[0]) && IsChainButForIds(msgs[0], msgs[1..]))
  }

  /** The snapshots of a run, each pinned with the cache its predecessors left behind. */
  function PinRun(msgs: seq<Message>, ids: seq<string>, gen: nat -> string): (r: seq<Message>)
    ensures |r| == |msgs|
  {
    if msgs == [] then []
    else [Pinned(msgs[0], ids, gen)] + PinRun(msgs[1..], PinnedIds(msgs[0].toolCalls, ids, gen), gen)
  }

  predicate SendsId(d: Diff, index: nat) {
    d.toolCallIndex == Some(index) && d.toolCallDelta.id != ""
  }

  predicate SendsName(d: Diff, index: nat) {
    d.toolCallIndex == Some(index) && d.toolCallDelta.name != ""
  }

  function Count(diffs: seq<Diff>, p: Diff -> bool): nat {
    if diffs == [] then 0 else (if p(diffs[0]) then 1 else 0) + Count(diffs[1..], p)
  }

  lemma {:induction false} CountConcat(a: seq<Diff>, b: seq<Diff>, p: Diff -> bool)
    ensures Count(a + b, p) == Count(a, p) + Count(b, p)
    decreases |a|
  {
    if a == [] {
      assert a + b == b;
    } else {
      assert (a + b)[1..] == a[1..] + b;
      CountConcat(a[1..], b, p);
    }
  }

  lemma {:induction false} CountNewCalls(calls: seq<ToolCall>, from: nat, p: Diff -> bool, index: nat)
    requires forall k: nat :: k < |calls| ==> p(CallDiff(k, calls[k])) == (k == index)
    ensures Count(NewCallDiffs(calls, from), p) == if from <= index < |calls| then 1 else 0
    decreases |calls| - from
  {
    if from < |calls| {
      CountNewCalls(calls, from + 1, p, index);
      assert NewCallDiffs(calls, from)[1..] == NewCallDiffs(calls, from + 1);
    }
  }

  /** One step between snapshots with equal ids sends ids and names of the new calls only, each once. */
  lemma CountStep(previous: Message, current: Message, p: Diff -> bool, index: nat)
    requires Diffs(previous, current).Ok?
    requires previous.toolCalls != [] ==>
               previous.toolCalls[|previous.toolCalls| - 1].id == current.toolCalls[|previous.toolCalls| - 1].id
    requires forall d: Diff :: d.toolCallIndex.None? || (d.toolCallDelta.id == "" && d.toolCallDelta.name == "") ==> !p(d)
    requires forall k: nat :: k < |current.toolCalls| ==> p(CallDiff(k, current.toolCalls[k])) == (k == index)
    ensures Count(Diffs(previous, current).value, p)
         == if |previous.toolCalls| <= index < |current.toolCalls| then 1 else 0
  {
    var a := TextDiffs(previous.reasoning, current.reasoning, ReasoningDiff).value;
    var b := TextDiffs(previous.content, current.content, ContentDiff).value;
    var c := LastCallDiffs(previous, current).value;
    var d := NewCallDiffs(current.toolCalls, |previous.toolCalls|);
    CountConcat(a, b, p);
    CountConcat(a + b, c, p);
    CountConcat(a + b + c, d, p);
    CountNewCalls(current.toolCalls, |previous.toolCalls|, p, index);
  }

  /** A chain in which the id of a call, once set, never changes, and every call has an id and a name. */
  predicate IsStableChain(previous: Message, msgs: seq<Message>)
    decreases |msgs|
  {
    msgs == [] ||
    (&& Extends(previous, msgs[0])
     && (forall i :: 0 <= i < |previous.toolCalls| ==> previous.toolCalls[i].id == msgs[0].toolCalls[i].id)
     && (forall i :: 0 <= i < |msgs[0].toolCalls| ==> msgs[0].toolCalls[i].id != "" && msgs[0].toolCalls[i].name != "")
     && IsStableChain(msgs[0], msgs[1..]))
  }

  predicate AllNamed(msgs: seq<Message>)
    decreases |msgs|
  {
    msgs == [] ||
    ((forall i :: 0 <= i < |msgs[0].toolCalls| ==> msgs[0].toolCalls[i].name != "") && AllNamed(msgs[1..]))
  }

  lemma PinnedStep(previous: Message, current: Message, ids: seq<string>, gen: nat -> string)
    requires ExtendsButForIds(previous, current) && |previous.toolCalls| <= |ids|
    ensures var p := previous.(toolCalls := WithIds(previous.toolCalls, ids));
            var n := Pinned(current, ids, gen);
            && Extends(p, n)
            && forall i :: 0 <= i < |p.toolCalls| ==> p.toolCalls[i].id == n.toolCalls[i].id
  {
    var next := PinnedIds(current.toolCalls, ids, gen);
    assert forall i :: 0 <= i < |ids| ==> next[i] == ids[i];
  }

  /** Pinning turns a chain with unknown ids into one whose ids never change. */
  lemma {:induction false} PinnedRunIsStable(
    previous: Message, msgs: seq<Message>, ids: seq<string>, gen: nat -> string)
    requires IsChainButForIds(previous, msgs) && |previous.toolCalls| <= |ids| && AllNamed(msgs)
    requires forall i :: 0 <= i < |ids| ==> ids[i] != ""
    requires forall i: nat :: gen(i) != ""
    ensures IsStableChain(previous.(toolCalls := WithIds(previous.toolCalls, ids)), PinRun(msgs, ids, gen))
    decreases |msgs|
  {
    if msgs != [] {
      var next := PinnedIds(msgs[0].toolCalls, ids, gen);
      PinnedStep(previous, msgs[0], ids, gen);
      PinnedRunIsStable(msgs[0], msgs[1..], next, gen);
      assert PinRun(msgs, ids, gen)[1..] == PinRun(msgs[1..], next, gen);
    }
  }

  /** Along a stable chain the deltas carry the id, and the name, of each new call exactly once. */
  lemma {:induction false} StableRunCounts(previous: Message, msgs: seq<Message>, p: Diff -> bool, index: nat)
    requires IsStableChain(previous, msgs)
    requires p == (d => SendsId(d, index)) || p == (d => SendsName(d, index))
    ensures RunDiffs(previous, msgs).Ok?
    ensures |previous.toolCalls| <= |Last(previous, msgs).toolCalls|
    ensures Count(RunDiffs(previous, msgs).value, p)
         == if |previous.toolCalls| <= index < |Last(previous, msgs).toolCalls| then 1 else 0
    decreases |msgs|
  {
    if msgs != [] {
      DiffsRebuildExactlyExtensions(previous, msgs[0]);
      StableRunCounts(msgs[0], msgs[1..], p, index);
      CountStep(previous, msgs[0], p, index);
      CountConcat(Diffs(previous, msgs[0]).value, RunDiffs(msgs[0], msgs[1..]).value, p);
    }
  }

  lemma {:induction false} StableIsChain(previous: Message, msgs: seq<Message>)
    requires IsStableChain(previous, msgs)
    ensures IsChain(previous, msgs)
    decreases |msgs|
  {
    if msgs != [] {
      StableIsChain(msgs[0], msgs[1..]);
    }
  }

  /**
   * A whole response from the empty message: with ids pinned, whatever ids the parser reported on the way, no step
   * throws, the client rebuilds the last pinned message, and each call's id and each call's name is sent exactly once.
   */
  lemma IdsAndNamesAreSentOnce(msgs: seq<Message>, gen: nat -> string, index: nat)
    requires IsChainButForIds(EMPTY_MESSAGE, msgs) && AllNamed(msgs)
    requires forall i: nat :: gen(i) != ""
    ensures var run := PinRun(msgs, [], gen);
            var diffs := RunDiffs(EMPTY_MESSAGE, run);
            var final := Last(EMPTY_MESSAGE, run);
            && diffs.Ok?
            && Fold(EMPTY_MESSAGE, diffs.value) == final
            && (index < |final.toolCalls| ==>
                  Count(diffs.value, d => SendsId(d, index)) == 1 == Count(diffs.value, d => SendsName(d, index)))
            && (index >= |final.toolCalls| ==>
                  Count(diffs.value, d => SendsId(d, index)) == 0 == Count(diffs.value, d => SendsName(d, index)))
  {
    var run := PinRun(msgs, [], gen);
    assert WithIds([], []) == [];
    PinnedRunIsStable(EMPTY_MESSAGE, msgs, [], gen);
    StableIsChain(EMPTY_MESSAGE, run);
    RunRebuildsLast(EMPTY_MESSAGE, run);
    StableRunCounts(EMPTY_MESSAGE, run, d => SendsId(d, index), index);
    StableRunCounts(EMPTY_MESSAGE, run, d => SendsName(d, index), index);
  }
}
