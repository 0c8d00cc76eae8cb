/**
 * Streaming a response: the text so far is parsed again and again, and only the difference to the last snapshot is
 * sent. When does the sum of the differences equal the parse of the whole text?
 */
module Streaming {
  import opened StringUtils
  import opened ChatMessage
  import opened ChatParser

  datatype Progress = Progress(msg: Message, diffs: seq<Diff>)

  /** One update: an empty message is skipped, any other one replaces the last snapshot. */
  function Step(previous: Message, text: string, isPartial: bool, syntax: Syntax): Result<Progress> {
    var msg := Parse(text, isPartial, syntax);
    if IsEmpty(msg) then Ok(Progress(previous, []))
    else match Diffs(previous, msg)
      case Ok(diffs) => Ok(Progress(msg, diffs))
      case Err(e) => Err(e)
  }

  class Slot {
    var chatMsg: Message
    const cache: IdsCache

    constructor ()
      ensures chatMsg == EMPTY_MESSAGE && cache.ids == [] && fresh(cache)
    {
      chatMsg := EMPTY_MESSAGE;
      cache := new IdsCache();
    }

    /** update_chat_msg; Err stands for the exception of compute_diffs, thrown after the snapshot was replaced. */
    method UpdateChatMsg(text: string, isPartial: bool, syntax: Syntax, gen: nat -> string) returns (r: Result<seq<Diff>>)
      modifies this, cache
      ensures match Step(old(chatMsg), text, isPartial, syntax)
              case Ok(progress) => r == Ok(progress.diffs) && chatMsg == progress.msg
              case Err(e) => r == Err(e) && chatMsg == Parse(text, isPartial, syntax)
      ensures cache.ids == old(cache.ids)
    {
      var previous := chatMsg;
      var parsed := ChatParse(text, isPartial, syntax);
      if !IsEmpty(parsed.value) {
        var msg := new ChatMsg(parsed.value);
        msg.EnsureToolCallIdsSet(cache, gen);
        chatMsg := msg.value;
        r := ComputeDiffs(previous, msg.value);
      } else {
        r := Ok([]);
      }
    }
  }

  /** Each snapshot extends the one before, and the last one is the whole text. */
  predicate IsStream(snapshots: seq<string>, text: string)
    decreases |snapshots|
  {
    && snapshots != []
    && if |snapshots| == 1 then snapshots[0] == text
       else snapshots[0] <= snapshots[1] && IsStream(snapshots[1..], text)
  }

  /** All the deltas of a stream in order. Every parse but the last is partial; the last is complete if the model ended it. */
  function Stream(previous: Message, snapshots: seq<string>, syntax: Syntax, complete: bool): Result<seq<Diff>>
    requires snapshots != []
    decreases |snapshots|
  {
    match Step(previous, snapshots[0], |snapshots| > 1 || !complete, syntax)
    case Err(e) => Err(e)
    case Ok(progress) =>
      if |snapshots| == 1 then Ok(progress.diffs)
      else match Stream(progress.msg, snapshots[1..], syntax, complete)
        case Err(e) => Err(e)
        case Ok(rest) => Ok(progress.diffs + rest)
  }

  /** No step throws, and a client that adds up the deltas holds exactly the one-shot parse of the whole text. */
  predicate Faithful(snapshots: seq<string>, text: string, syntax: Syntax, complete: bool)
    requires snapshots != []
  {
    var diffs := Stream(EMPTY_MESSAGE, snapshots, syntax, complete);
    diffs.Ok? && Fold(EMPTY_MESSAGE, diffs.value) == Parse(text, !complete, syntax)
  }

  // ----- the shape of a parse -----

  const OPEN_LENGTH: nat := |THINK|

  /** Where the thinking text starts, if the parser takes the text to be thinking at all. */
  function ThoughtStart(text: string, syntax: Syntax): (r: Option<nat>)
    ensures r.Some? ==> r.value <= |text|
  {
    if syntax.format.ContentOnly? || syntax.reasoningFormat.ReasoningNone? then None
    else if syntax.thinkingForcedOpen then Some(0)
    else if THINK <= text then Some(OPEN_LENGTH)
    else None
  }

  /** What follows the closing tag and the spaces after it. */
  function Tail(text: string, pos: nat): string
    requires pos <= |text|
  {
    var idx := Find(text, END_THINK, pos);
    if idx.None? then "" else text[SkipSpaces(text, idx.value + |END_THINK|)..]
  }

  function Inlined(core: string, closed: bool): string {
    if core == "" then "" else THINK + core + (if closed then END_THINK else "")
  }

  function Closed(text: string, isPartial: bool, pos: nat): bool
    requires pos <= |text|
  {
    !isPartial || FindLiteral(text, isPartial, END_THINK, pos).Some?
  }

  function Thought(text: string, isPartial: bool, pos: nat): string
    requires pos <= |text|
  {
    Strip(Emitted(text, isPartial, END_THINK, pos))
  }

  lemma HandledShape(syntax: Syntax, pos: nat, reasoning: string, closed: bool)
    ensures var r := HandleReasoning(syntax, THINK, END_THINK, State(pos, "", ""), reasoning, closed);
            && r.pos == pos && r.reasoning == (if syntax.reasoningInContent then "" else Strip(reasoning))
            && r.content == (if syntax.reasoningInContent then Inlined(Strip(reasoning), closed) else "")
  {
    var core := Strip(reasoning);
    assert "" + THINK + core == THINK + core && "" + core == core;
  }

  lemma ThoughtShape(text: string, isPartial: bool, syntax: Syntax, pos: nat)
    requires pos <= |text|
    ensures var r := ParseThought(text, isPartial, syntax, THINK, END_THINK, State(pos, "", ""));
            var core := Thought(text, isPartial, pos);
            && text[r.pos..] == Tail(text, pos)
            && r.reasoning == (if syntax.reasoningInContent then "" else core)
            && r.content == (if syntax.reasoningInContent then Inlined(core, Closed(text, isPartial, pos)) else "")
  {
    HandledShape(syntax, pos, Emitted(text, isPartial, END_THINK, pos), Closed(text, isPartial, pos));
  }

  lemma ParseShape(text: string, isPartial: bool, syntax: Syntax)
    ensures var start := ThoughtStart(text, syntax);
            Parse(text, isPartial, syntax) ==
              if start.None? then Message("", text, [])
              else
                var core, tail := Thought(text, isPartial, start.value), Tail(text, start.value);
                if syntax.reasoningInContent
                then Message("", Inlined(core, Closed(text, isPartial, start.value)) + tail, [])
                else Message(core, tail, [])
  {
    var start := ThoughtStart(text, syntax);
    if start.Some? {
      ThoughtShape(text, isPartial, syntax, start.value);
      assert "" + Tail(text, start.value) == Tail(text, start.value);
    } else {
      assert "" + text[0..] == text;
    }
  }

  // ----- how the pieces grow with the text -----

  lemma FindIsStable(p: string, q: string, pos: nat)
    requires p <= q && pos <= |p|
    ensures Find(p, END_THINK, pos).Some? ==> Find(q, END_THINK, pos) == Find(p, END_THINK, pos)
    ensures Find(q, END_THINK, pos).Some? && Find(q, END_THINK, pos).value + |END_THINK| <= |p|
            ==> Find(p, END_THINK, pos) == Find(q, END_THINK, pos)
  {
    forall j: nat ensures OccursAt(p, END_THINK, j) ==> OccursAt(q, END_THINK, j)
                  ensures OccursAt(q, END_THINK, j) && j + |END_THINK| <= |p| ==> OccursAt(p, END_THINK, j)
    {
      OccursInExtension(p, q, END_THINK, j);
    }
    var inP, inQ := Find(p, END_THINK, pos), Find(q, END_THINK, pos);
    if inP.Some? {
      FindIs(q, END_THINK, pos, inP.value);
    }
    if inQ.Some? && inQ.value + |END_THINK| <= |p| {
      FindIs(p, END_THINK, pos, inQ.value);
    }
  }

  lemma SkipSpacesIsStable(p: string, q: string, i: nat)
    requires p <= q && i <= |p|
    ensures p[SkipSpaces(p, i)..] <= q[SkipSpaces(q, i)..]
    ensures SkipSpaces(p, i) < |p| ==> SkipSpaces(q, i) == SkipSpaces(p, i)
  {
    var s := SkipSpaces(p, i);
    if s < |p| {
      assert p[s] == q[s];
    }
  }

  lemma TailGrows(p: string, q: string, pos: nat)
    requires p <= q && pos <= |p|
    ensures Tail(p, pos) <= Tail(q, pos)
  {
    FindIsStable(p, q, pos);
    var idx := Find(p, END_THINK, pos);
    if idx.Some? {
      SkipSpacesIsStable(p, q, idx.value + |END_THINK|);
    }
  }

  /** The opening tag cannot be mistaken for the start of the closing one, so the parser has no blind spot. */
  lemma NoBlindSpot(text: string, syntax: Syntax)
    requires ThoughtStart(text, syntax).Some?
    ensures HoldsBackAll(text, END_THINK, ThoughtStart(text, syntax).value)
  {
    if !syntax.thinkingForcedOpen {
      forall j: nat | j < OPEN_LENGTH ensures !PartialAt(text, END_THINK, j) {
        var at := if j == 0 then 1 else j;
        assert text[at] == THINK[at];
        if PartialAt(text, END_THINK, j) {
          PartialStartsTag(text, j, at);
        }
      }
    }
  }

  lemma ThoughtGrows(p: string, q: string, isPartial: bool, syntax: Syntax, pos: nat)
    requires p <= q && ThoughtStart(p, syntax) == Some(pos)
    ensures Thought(p, true, pos) <= Thought(q, isPartial, pos)
  {
    NoBlindSpot(p, syntax);
    EmittedIsKept(p, q, isPartial, END_THINK, pos);
    StripMonotone(Emitted(p, true, END_THINK, pos), Emitted(q, isPartial, END_THINK, pos));
  }

  // ----- inlined reasoning -----

  function BodyEnd(text: string, pos: nat): (r: nat)
    requires pos <= |text|
    ensures pos <= r <= |text|
  {
    var idx := Find(text, END_THINK, pos);
    if idx.Some? then idx.value else |text|
  }

  /** An angle bracket after the first visible character of the thinking text, other than that of its closing tag. */
  predicate StrayAt(text: string, pos: nat, i: nat)
    requires pos <= |text|
  {
    pos <= i < BodyEnd(text, pos) && text[i] == '<' && !AllSpace(text[pos..i])
  }

  ghost predicate HasStray(text: string, pos: nat)
    requires pos <= |text|
  {
    exists i: nat :: StrayAt(text, pos, i)
  }

  /** Only its first character makes a tail a beginning of the closing tag. */
  lemma PartialStartsTag(text: string, i: nat, j: nat)
    requires PartialAt(text, END_THINK, i) && i <= j < |text|
    ensures j - i < |END_THINK| && text[j] == END_THINK[j - i]
    ensures text[j] == '<' <==> j == i
  {
    assert text[j] == text[i..][j - i];
  }

  lemma StripEmptyExactlyWhen(s: string)
    ensures Strip(s) == "" <==> AllSpace(s)
  {
  }

  lemma HeldBackThought(p: string, pos: nat)
    requires pos <= |p| && Find(p, END_THINK, pos).None? && FindLiteral(p, true, END_THINK, pos).Some?
    ensures var cut := PartialStop(p, END_THINK);
            cut.Some? && pos <= cut.value < |p| && Thought(p, true, pos) == Strip(p[pos..cut.value])
  {
  }

  /** A held-back bracket that follows visible text can only be the start of the one closing tag. */
  lemma HeldBackIsTheTag(p: string, text: string, pos: nat)
    requires p <= text && pos <= |p| && !HasStray(text, pos)
    requires Find(p, END_THINK, pos).None? && FindLiteral(p, true, END_THINK, pos).Some?
    requires Thought(p, true, pos) != ""
    ensures Find(text, END_THINK, pos) == PartialStop(p, END_THINK)
  {
    HeldBackThought(p, pos);
    var cut := PartialStop(p, END_THINK).value;
    PartialStartsTag(p, cut, cut);
    assert text[pos..cut] == p[pos..cut];
    StripEmptyExactlyWhen(p[pos..cut]);
    BracketIsTheTag(text, pos, cut);
    EarlyTagIsTheCut(p, text, pos);
  }

  lemma EarlyTagIsTheCut(p: string, text: string, pos: nat)
    requires p <= text && pos <= |p| && Find(p, END_THINK, pos).None? && PartialStop(p, END_THINK).Some?
    requires var idx := Find(text, END_THINK, pos); idx.Some? && idx.value <= PartialStop(p, END_THINK).value
    ensures Find(text, END_THINK, pos) == PartialStop(p, END_THINK)
  {
    NewOccurrenceIsPartial(p, text, END_THINK, Find(text, END_THINK, pos).value);
  }

  lemma BracketIsTheTag(text: string, pos: nat, at: nat)
    requires pos <= at < |text| && !HasStray(text, pos) && text[at] == '<' && !AllSpace(text[pos..at])
    ensures Find(text, END_THINK, pos).Some? && Find(text, END_THINK, pos).value <= at
  {
    assert !StrayAt(text, pos, at);
  }

  /** As long as only a part of the one closing tag has arrived, all of that part is held back. */
  lemma TagIsHeldBack(q: string, text: string, syntax: Syntax, pos: nat)
    requires q <= text && ThoughtStart(q, syntax) == Some(pos)
    requires Find(q, END_THINK, pos).None? && Find(text, END_THINK, pos).Some?
    requires Find(text, END_THINK, pos).value < |q|
    ensures PartialStop(q, END_THINK) == Find(text, END_THINK, pos)
  {
    var idx := Find(text, END_THINK, pos).value;
    NewOccurrenceIsPartial(q, text, END_THINK, idx);
    NoBlindSpot(q, syntax);
    PartialStartsTag(q, PartialStop(q, END_THINK).value, idx);
    PartialStartsTag(q, idx, idx);
  }

  lemma SliceOfPrefix(p: string, q: string, a: nat, b: nat)
    requires p <= q && a <= b <= |p|
    ensures q[a..b] == p[a..b]
  {
    assert q[..|p|] == p;
  }

  lemma HeldBackTagStays(p: string, q: string, isPartial: bool, text: string, syntax: Syntax, pos: nat)
    requires p <= q <= text && ThoughtStart(p, syntax) == Some(pos) && !HasStray(text, pos)
    requires isPartial || q == text
    requires Find(p, END_THINK, pos).None? && FindLiteral(p, true, END_THINK, pos).Some?
    requires Thought(p, true, pos) != ""
    ensures Thought(q, isPartial, pos) == Thought(p, true, pos) && Closed(q, isPartial, pos)
  {
    HeldBackIsTheTag(p, text, pos);
    var idx := Find(text, END_THINK, pos).value;
    FindIsStable(q, text, pos);
    if Find(q, END_THINK, pos).None? {
      TagIsHeldBack(q, text, syntax, pos);
    }
    SliceOfPrefix(p, q, pos, idx);
  }

  lemma InlinedGrows(p: string, q: string, isPartial: bool, text: string, syntax: Syntax, pos: nat)
    requires p <= q <= text && ThoughtStart(p, syntax) == Some(pos) && !HasStray(text, pos)
    requires isPartial || q == text
    ensures Inlined(Thought(p, true, pos), Closed(p, true, pos)) + Tail(p, pos)
         <= Inlined(Thought(q, isPartial, pos), Closed(q, isPartial, pos)) + Tail(q, pos)
  {
    var a, b := Thought(p, true, pos), Thought(q, isPartial, pos);
    TailGrows(p, q, pos);
    if Find(p, END_THINK, pos).Some? {
      CompleteTagStays(p, q, isPartial, pos);
      PrefixUnderHead(Inlined(a, true), Tail(p, pos), Tail(q, pos));
    } else if a == "" {
      assert Tail(p, pos) == "" && Inlined(a, Closed(p, true, pos)) == "";
    } else if Closed(p, true, pos) {
      HeldBackTagStays(p, q, isPartial, text, syntax, pos);
      PrefixUnderHead(Inlined(a, true), Tail(p, pos), Tail(q, pos));
    } else {
      ThoughtGrows(p, q, isPartial, syntax, pos);
      OpenInlinedGrows(a, b, Closed(q, isPartial, pos), Tail(q, pos));
    }
  }

  lemma CompleteTagStays(p: string, q: string, isPartial: bool, pos: nat)
    requires p <= q && pos <= |p| && Find(p, END_THINK, pos).Some?
    ensures Thought(q, isPartial, pos) == Thought(p, true, pos)
    ensures Closed(p, true, pos) && Closed(q, isPartial, pos)
  {
    FindIsStable(p, q, pos);
    var idx := Find(p, END_THINK, pos).value;
    assert p[pos..idx] == q[pos..idx];
  }

  lemma OpenInlinedGrows(a: string, b: string, closed: bool, tail: string)
    requires a != "" && a <= b
    ensures Inlined(a, false) <= Inlined(b, closed) + tail
  {
    assert THINK + a + "" == THINK + a;
    assert THINK + a <= THINK + b;
  }

  // ----- when streaming is faithful -----

  /** The condition, read off the flags and the text. */
  ghost predicate StreamSafe(text: string, syntax: Syntax) {
    if syntax.format.ContentOnly? || syntax.reasoningFormat.ReasoningNone? then true
    else if syntax.thinkingForcedOpen then syntax.reasoningInContent ==> !HasStray(text, 0)
    else
      THINK <= text ==>
        && syntax.reasoningInContent
        && !AllSpace(text[OPEN_LENGTH..BodyEnd(text, OPEN_LENGTH)])
        && !HasStray(text, OPEN_LENGTH)
  }

  lemma FinalThought(text: string, pos: nat)
    requires pos <= |text|
    ensures Thought(text, false, pos) == Strip(text[pos..BodyEnd(text, pos)])
  {
    assert text[pos..] == text[pos..|text|];
  }

  /** Once the thinking is recognised, each snapshot extends every earlier one. */
  lemma ThinkingExtends(p: string, q: string, isPartial: bool, text: string, syntax: Syntax, pos: nat)
    requires StreamSafe(text, syntax) && p <= q <= text && (isPartial || q == text)
    requires ThoughtStart(p, syntax) == Some(pos) && ThoughtStart(q, syntax) == Some(pos)
    requires syntax.reasoningInContent ==> !HasStray(text, pos)
    ensures Extends(Parse(p, true, syntax), Parse(q, isPartial, syntax))
  {
    ParseShape(p, true, syntax);
    ParseShape(q, isPartial, syntax);
    if syntax.reasoningInContent {
      InlinedGrows(p, q, isPartial, text, syntax, pos);
    } else {
      TailGrows(p, q, pos);
      ThoughtGrows(p, q, isPartial, syntax, pos);
    }
  }

  lemma NoThinkingExtends(p: string, q: string, isPartial: bool, syntax: Syntax)
    requires p <= q && ThoughtStart(p, syntax).None? && ThoughtStart(q, syntax).None?
    ensures Extends(Parse(p, true, syntax), Parse(q, isPartial, syntax))
  {
    ParseShape(p, true, syntax);
    ParseShape(q, isPartial, syntax);
  }

  lemma ThoughtStartStays(p: string, q: string, text: string, syntax: Syntax)
    requires p <= q <= text && ThoughtStart(p, syntax).Some?
    ensures ThoughtStart(q, syntax) == ThoughtStart(p, syntax)
    ensures StreamSafe(text, syntax) && syntax.reasoningInContent ==> !HasStray(text, ThoughtStart(p, syntax).value)
  {
  }

  /** Under the condition each snapshot extends every earlier one, but for empty partial ones, which are skipped. */
  lemma SnapshotsExtend(p: string, q: string, isPartial: bool, text: string, syntax: Syntax)
    requires StreamSafe(text, syntax) && p <= q <= text && (isPartial || q == text)
    ensures var old', new' := Parse(p, true, syntax), Parse(q, isPartial, syntax);
            Extends(old', new') || (isPartial && IsEmpty(new'))
  {
    if ThoughtStart(p, syntax).Some? {
      ThoughtStartStays(p, q, text, syntax);
      ThinkingExtends(p, q, isPartial, text, syntax, ThoughtStart(p, syntax).value);
    } else if ThoughtStart(q, syntax).Some? {
      SplitOpeningTag(p, q, isPartial, text, syntax);
      ParseShape(p, true, syntax);
    } else {
      NoThinkingExtends(p, q, isPartial, syntax);
    }
  }

  lemma CompleteThought(q: string, isPartial: bool, text: string, pos: nat)
    requires pos <= |q| && q <= text && (Find(q, END_THINK, pos).Some? || (!isPartial && q == text))
    ensures Thought(q, isPartial, pos) == Strip(text[pos..BodyEnd(text, pos)])
  {
    if Find(q, END_THINK, pos).Some? {
      FindIsStable(q, text, pos);
      assert q[pos..BodyEnd(text, pos)] == text[pos..BodyEnd(text, pos)];
    } else {
      FinalThought(text, pos);
    }
  }

  /** While nothing visible has been thought, a text that will show some is still partial and its block still open. */
  lemma BlankIsOpen(q: string, isPartial: bool, text: string)
    requires OPEN_LENGTH <= |q| && q <= text && (isPartial || q == text)
    requires !AllSpace(text[OPEN_LENGTH..BodyEnd(text, OPEN_LENGTH)])
    requires Thought(q, isPartial, OPEN_LENGTH) == ""
    ensures isPartial && Tail(q, OPEN_LENGTH) == ""
  {
    StripEmptyExactlyWhen(text[OPEN_LENGTH..BodyEnd(text, OPEN_LENGTH)]);
    if Find(q, END_THINK, OPEN_LENGTH).Some? || !isPartial {
      CompleteThought(q, isPartial, text, OPEN_LENGTH);
    }
  }

  /** A cut-off opening tag shown as content is kept as long as the thinking is inlined after it. */
  lemma SplitOpeningTag(p: string, q: string, isPartial: bool, text: string, syntax: Syntax)
    requires StreamSafe(text, syntax) && p <= q <= text && (isPartial || q == text)
    requires ThoughtStart(p, syntax).None? && ThoughtStart(q, syntax).Some?
    ensures Parse(p, true, syntax).content <= Parse(q, isPartial, syntax).content
         || (isPartial && IsEmpty(Parse(q, isPartial, syntax)))
    ensures Parse(p, true, syntax).reasoning == ""
  {
    ParseShape(p, true, syntax);
    ParseShape(q, isPartial, syntax);
    assert THINK <= q && THINK <= text;
    assert |p| < OPEN_LENGTH;
    assert p <= THINK;
    var core := Thought(q, isPartial, OPEN_LENGTH);
    if core != "" {
      assert p <= THINK <= Inlined(core, Closed(q, isPartial, OPEN_LENGTH));
    } else {
      BlankIsOpen(q, isPartial, text);
    }
  }

  /** If the last partial parse shows nothing, none before it did. */
  ghost predicate LastShowsAll(text: string, syntax: Syntax) {
    IsEmpty(Parse(text, true, syntax)) ==> forall p :: p <= text ==> IsEmpty(Parse(p, true, syntax))
  }

  /** One step under the condition: no error, and the client holds the new snapshot, or the last one if it is empty. */
  lemma SafeStep(p: string, previous: Message, q: string, isPartial: bool, text: string, syntax: Syntax)
    requires StreamSafe(text, syntax) && p <= q <= text && (isPartial || q == text) && previous == Parse(p, true, syntax)
    ensures var s, msg := Step(previous, q, isPartial, syntax), Parse(q, isPartial, syntax);
            s.Ok? && Fold(previous, s.value.diffs) == s.value.msg && s.value.msg == if IsEmpty(msg) then previous else msg
    ensures IsEmpty(Parse(q, isPartial, syntax)) ==> isPartial || IsEmpty(previous)
  {
    SnapshotsExtend(p, q, isPartial, text, syntax);
    ParseShape(p, true, syntax);
    ParseShape(q, isPartial, syntax);
    DiffsRebuildExactlyExtensions(previous, Parse(q, isPartial, syntax));
  }

  lemma StreamCons(previous: Message, snapshots: seq<string>, syntax: Syntax, complete: bool, first: Progress)
    requires |snapshots| > 1 && Step(previous, snapshots[0], true, syntax) == Ok(first)
    requires Fold(previous, first.diffs) == first.msg && Stream(first.msg, snapshots[1..], syntax, complete).Ok?
    ensures Stream(previous, snapshots, syntax, complete).Ok?
    ensures Fold(previous, Stream(previous, snapshots, syntax, complete).value)
         == Fold(first.msg, Stream(first.msg, snapshots[1..], syntax, complete).value)
  {
    FoldConcat(previous, first.diffs, Stream(first.msg, snapshots[1..], syntax, complete).value);
  }

  lemma LastStep(p: string, previous: Message, text: string, syntax: Syntax, complete: bool)
    requires StreamSafe(text, syntax) && p <= text && previous == Parse(p, true, syntax)
    requires complete || LastShowsAll(text, syntax)
    ensures Stream(previous, [text], syntax, complete).Ok?
    ensures Fold(previous, Stream(previous, [text], syntax, complete).value) == Parse(text, !complete, syntax)
  {
    SafeStep(p, previous, text, !complete, text, syntax);
    if IsEmpty(Parse(text, !complete, syntax)) {
      EmptyParses(p, text, syntax, !complete);
    }
  }

  lemma EmptyParses(p: string, text: string, syntax: Syntax, isPartial: bool)
    ensures IsEmpty(Parse(p, true, syntax)) && IsEmpty(Parse(text, isPartial, syntax)) ==>
              Parse(p, true, syntax) == Parse(text, isPartial, syntax)
  {
    ParseShape(p, true, syntax);
    ParseShape(text, isPartial, syntax);
  }

  lemma {:induction false} SafeStream(
    p: string, previous: Message, snapshots: seq<string>, text: string, syntax: Syntax, complete: bool)
    requires StreamSafe(text, syntax) && IsStream(snapshots, text) && p <= snapshots[0]
    requires previous == Parse(p, true, syntax) && (complete || LastShowsAll(text, syntax))
    ensures Stream(previous, snapshots, syntax, complete).Ok?
    ensures Fold(previous, Stream(previous, snapshots, syntax, complete).value) == Parse(text, !complete, syntax)
    decreases |snapshots|
  {
    var q := snapshots[0];
    StreamEndsAt(snapshots, text);
    if |snapshots| == 1 {
      assert snapshots == [text];
      LastStep(p, previous, text, syntax, complete);
    } else {
      SafeStep(p, previous, q, true, text, syntax);
      var first := Step(previous, q, true, syntax).value;
      var kept := if IsEmpty(Parse(q, true, syntax)) then p else q;
      SafeStream(kept, first.msg, snapshots[1..], text, syntax, complete);
      StreamCons(previous, snapshots, syntax, complete, first);
    }
  }

  lemma {:induction false} StreamEndsAt(snapshots: seq<string>, text: string)
    requires IsStream(snapshots, text)
    ensures snapshots[0] <= text
    decreases |snapshots|
  {
    if |snapshots| > 1 {
      StreamEndsAt(snapshots[1..], text);
    }
  }

  lemma EmptyTextParsesEmpty(syntax: Syntax)
    ensures Parse("", true, syntax) == EMPTY_MESSAGE
  {
    ParseShape("", true, syntax);
    if ThoughtStart("", syntax).Some? {
      assert Emitted("", true, END_THINK, 0) == "";
      assert Strip("") == "";
    }
  }

  // ----- and when it is not -----

  /** Two snapshots whose second parse does not extend the first are never streamed faithfully. */
  lemma BrokenPair(p: string, text: string, syntax: Syntax, complete: bool)
    requires p <= text && !IsEmpty(Parse(p, true, syntax))
    requires !Extends(Parse(p, true, syntax), Parse(text, !complete, syntax))
    ensures IsStream([p, text], text) && !Faithful([p, text], text, syntax, complete)
  {
    var first, last := Parse(p, true, syntax), Parse(text, !complete, syntax);
    var snapshots := [p, text];
    assert snapshots[1..] == [text];
    DiffsRebuildExactlyExtensions(EMPTY_MESSAGE, first);
    DiffsRebuildExactlyExtensions(first, last);
    if Stream(EMPTY_MESSAGE, snapshots, syntax, complete).Ok? {
      FoldConcat(EMPTY_MESSAGE, Diffs(EMPTY_MESSAGE, first).value, Stream(first, [text], syntax, complete).value);
    }
  }

  function ContentSent(diffs: seq<Diff>): string {
    if diffs == [] then "" else diffs[0].contentDelta + ContentSent(diffs[1..])
  }

  lemma {:induction false} FoldAddsContent(msg: Message, diffs: seq<Diff>)
    ensures Fold(msg, diffs).content == msg.content + ContentSent(diffs)
    decreases |diffs|
  {
    if diffs != [] {
      FoldAddsContent(Apply(msg, diffs[0]), diffs[1..]);
    }
  }

  /** Content that shrinks and then grows again is sent twice. */
  lemma BrokenTriple(p: string, q: string, text: string, syntax: Syntax)
    requires p <= q <= text
    requires var a, b, c := Parse(p, true, syntax), Parse(q, true, syntax), Parse(text, false, syntax);
             !IsEmpty(b) && b.content < a.content && b.content <= c.content
    ensures IsStream([p, q, text], text) && !Faithful([p, q, text], text, syntax, true)
  {
    var a, b, c := Parse(p, true, syntax), Parse(q, true, syntax), Parse(text, false, syntax);
    var snapshots := [p, q, text];
    assert snapshots[1..] == [q, text] && [q, text][1..] == [text];
    var all := Stream(EMPTY_MESSAGE, snapshots, syntax, true);
    if all.Ok? {
      var rest := Stream(a, [q, text], syntax, true);
      var last := Stream(b, [text], syntax, true);
      assert all.value == Diffs(EMPTY_MESSAGE, a).value + rest.value;
      assert rest.value == Diffs(a, b).value + last.value;
      ContentOfThree(a, b, c, Diffs(EMPTY_MESSAGE, a).value, Diffs(a, b).value, last.value);
      FoldAddsContent(EMPTY_MESSAGE, all.value);
    }
  }

  lemma ContentOfThree(a: Message, b: Message, c: Message, d1: seq<Diff>, d2: seq<Diff>, d3: seq<Diff>)
    requires b.content < a.content && b.content <= c.content
    requires Diffs(EMPTY_MESSAGE, a) == Ok(d1)
    requires if d3 == [] then b.content == c.content else Diffs(b, c) == Ok(d3)
    ensures |ContentSent(d1 + (d2 + d3))| > |c.content|
  {
    ContentSentConcat(d1, d2 + d3);
    ContentSentConcat(d2, d3);
    ContentAfter(EMPTY_MESSAGE, d1, a);
    ContentAfter(b, d3, c);
  }

  lemma {:induction false} ContentSentConcat(x: seq<Diff>, y: seq<Diff>)
    ensures ContentSent(x + y) == ContentSent(x) + ContentSent(y)
    decreases |x|
  {
    if x == [] {
      assert x + y == y;
    } else {
      assert (x + y)[1..] == x[1..] + y;
      ContentSentConcat(x[1..], y);
    }
  }

  /** The content sent by one step is what the new snapshot adds to the old one. */
  lemma ContentAfter(previous: Message, diffs: seq<Diff>, current: Message)
    requires diffs == [] ==> previous.content == current.content
    requires diffs != [] ==> Diffs(previous, current) == Ok(diffs)
    requires previous.content <= current.content
    ensures previous.content + ContentSent(diffs) == current.content
  {
    FoldAddsContent(previous, diffs);
    if diffs != [] {
      FoldOfDiffs(previous, current);
    }
  }

  /** A bracket after visible text: closing the inlined thinking there and going on cannot both be right. */
  lemma StrayCloses(body: string, k: nat, tail: string)
    requires k < |body| && body[k] == '<' && !AllSpace(body[..k]) && !OccursAt(body, END_THINK, k)
    ensures !(Strip(body[..k]) + END_THINK <= Strip(body) + END_THINK + tail)
  {
    var before := body[..k];
    var start := SkipSpaces(before, 0);
    assert before[start] == body[start];
    assert SkipSpaces(body, 0) == start;
    var e, f := TrimEnd(before, start, k), TrimEnd(body, start, |body|);
    var x, whole := Strip(before), Strip(body) + END_THINK + tail;
    assert x == body[start..e] && Strip(body) == body[start..f];
    assert k < f;
    if e < k {
      assert whole[|x|] == body[e];
      assert (x + END_THINK)[|x|] == '<';
    } else {
      NoSecondTag(body, start, f, k, tail);
      SuffixAfter(x, END_THINK, whole);
    }
  }

  /** What follows the bracket, once the trailing spaces before the real tag are gone, is not the tag. */
  lemma NoSecondTag(body: string, start: nat, f: nat, k: nat, tail: string)
    requires start <= k < f <= |body| && body[k] == '<' && !OccursAt(body, END_THINK, k)
    ensures (body[start..f] + END_THINK + tail)[k - start..][..|END_THINK|] != END_THINK
  {
    var whole := body[start..f] + END_THINK + tail;
    var n := f - k;
    if n >= |END_THINK| {
      assert whole == body[start..f] + (END_THINK + tail);
      SliceOfSlice(body, start, f, k, END_THINK + tail);
    } else {
      assert whole[k - start..][..|END_THINK|][n] == whole[k - start + n] == '<';
    }
  }

  lemma SliceOfSlice(body: string, start: nat, f: nat, k: nat, after: string)
    requires start <= k && k + |END_THINK| <= f <= |body|
    ensures (body[start..f] + after)[k - start..][..|END_THINK|] == body[k..k + |END_THINK|]
  {
    assert (body[start..f] + after)[k - start..] == body[k..f] + after;
  }

  lemma SuffixAfter(x: string, y: string, whole: string)
    requires |x| + |y| <= |whole|
    ensures x + y <= whole ==> whole[|x|..][..|y|] == y
  {
    if x + y <= whole {
      assert whole[|x|..][..|y|] == (x + y)[|x|..];
    }
  }

  lemma PrefixUnderHead(head: string, a: string, b: string)
    ensures head + a <= head + b <==> a <= b
  {
    assert (head + a)[|head|..] == a && (head + b)[|head|..] == b;
    if head + a <= head + b {
      assert (head + b)[|head|..][..|a|] == (head + b)[|head|..|head| + |a|] == (head + a)[|head|..];
    }
  }

  /** The snapshot that ends with the stray bracket: its thinking is closed right there. */
  lemma StraySnapshot(text: string, i: nat, syntax: Syntax, pos: nat)
    requires ThoughtStart(text, syntax) == Some(pos) && syntax.reasoningInContent && StrayAt(text, pos, i)
    ensures Parse(text[..i + 1], true, syntax).content == THINK + (Strip(text[pos..i]) + END_THINK + "")
  {
    var p := text[..i + 1];
    StrayIsHeldBack(text, i, pos);
    HeldBackThought(p, pos);
    assert p[pos..i] == text[pos..i];
    StripEmptyExactlyWhen(text[pos..i]);
    InlinedParse(p, true, syntax, pos, Strip(text[pos..i]), "");
  }

  /** The content of a parse whose thinking is inlined, visible and closed. */
  lemma InlinedParse(text: string, isPartial: bool, syntax: Syntax, pos: nat, core: string, tail: string)
    requires ThoughtStart(text, syntax) == Some(pos) && syntax.reasoningInContent
    requires Thought(text, isPartial, pos) == core != "" && Closed(text, isPartial, pos) && Tail(text, pos) == tail
    ensures Parse(text, isPartial, syntax).content == THINK + (core + END_THINK + tail)
  {
    ParseShape(text, isPartial, syntax);
    Reassociate(THINK, core, END_THINK, tail);
  }

  lemma Reassociate(a: string, b: string, c: string, d: string)
    ensures a + b + c + d == a + (b + c + d)
  {
  }

  lemma StrayIsHeldBack(text: string, i: nat, pos: nat)
    requires pos <= |text| && StrayAt(text, pos, i)
    ensures var p := text[..i + 1];
            && Find(p, END_THINK, pos).None?
            && PartialStop(p, END_THINK) == Some(i)
            && FindLiteral(p, true, END_THINK, pos).Some?
  {
    var p := text[..i + 1];
    FindIsStable(p, text, pos);
    assert p[i..] == ['<'];
    assert PartialAt(p, END_THINK, i);
    PartialStartsTag(p, PartialStop(p, END_THINK).value, i);
  }

  /** The one-shot parse of a text with visible inlined thinking that is closed. */
  lemma FinalInlined(text: string, syntax: Syntax, pos: nat)
    requires ThoughtStart(text, syntax) == Some(pos) && syntax.reasoningInContent
    requires !AllSpace(text[pos..BodyEnd(text, pos)])
    ensures Parse(text, false, syntax).content
         == THINK + (Strip(text[pos..BodyEnd(text, pos)]) + END_THINK + Tail(text, pos))
  {
    var body := text[pos..BodyEnd(text, pos)];
    FinalThought(text, pos);
    StripEmptyExactlyWhen(body);
    InlinedParse(text, false, syntax, pos, Strip(body), Tail(text, pos));
  }

  lemma StrayBreaks(text: string, i: nat, syntax: Syntax, pos: nat) returns (p: string)
    requires ThoughtStart(text, syntax) == Some(pos) && syntax.reasoningInContent && StrayAt(text, pos, i)
    ensures IsStream([p, text], text) && !Faithful([p, text], text, syntax, true)
  {
    p := text[..i + 1];
    var body, tail := text[pos..BodyEnd(text, pos)], Tail(text, pos);
    assert body[..i - pos] == text[pos..i];
    StrayIsNoTag(text, i, pos);
    StrayCloses(body, i - pos, tail);
    PrefixUnderHead(THINK, Strip(text[pos..i]) + END_THINK + "", Strip(body) + END_THINK + tail);
    assert Strip(text[pos..i]) + END_THINK + "" == Strip(text[pos..i]) + END_THINK;
    StraySnapshot(text, i, syntax, pos);
    FinalInlined(text, syntax, pos);
    BrokenPair(p, text, syntax, true);
  }

  lemma StrayIsNoTag(text: string, i: nat, pos: nat)
    requires pos <= |text| && StrayAt(text, pos, i)
    ensures !OccursAt(text[pos..BodyEnd(text, pos)], END_THINK, i - pos)
  {
    var body, k := text[pos..BodyEnd(text, pos)], i - pos;
    if OccursAt(body, END_THINK, k) {
      assert body[k..k + |END_THINK|] == text[i..i + |END_THINK|];
      assert OccursAt(text, END_THINK, i);
    }
  }

  /** The one-shot parse shows only what follows the thinking. */
  lemma FinalContentIsTail(text: string, syntax: Syntax)
    requires ThoughtStart(text, syntax) == Some(OPEN_LENGTH)
    requires syntax.reasoningInContent ==> AllSpace(text[OPEN_LENGTH..BodyEnd(text, OPEN_LENGTH)])
    ensures Parse(text, false, syntax).content == Tail(text, OPEN_LENGTH)
  {
    FinalThought(text, OPEN_LENGTH);
    StripEmptyExactlyWhen(text[OPEN_LENGTH..BodyEnd(text, OPEN_LENGTH)]);
    ParseShape(text, false, syntax);
  }

  /** A text that starts with the opening tag, split inside it: the beginning of the tag is shown as content. */
  lemma OpeningIsShown(text: string, k: nat, syntax: Syntax) returns (p: string)
    requires ThoughtStart(text, syntax) == Some(OPEN_LENGTH) && !syntax.thinkingForcedOpen && 0 < k < OPEN_LENGTH
    ensures p <= text && p == THINK[..k] && Parse(p, true, syntax).content == p
  {
    p := text[..k];
    assert text[..OPEN_LENGTH] == THINK && p == THINK[..k];
    ParseShape(p, true, syntax);
  }

  lemma FirstBracketBreaks(text: string, syntax: Syntax) returns (p: string)
    requires ThoughtStart(text, syntax) == Some(OPEN_LENGTH) && !syntax.thinkingForcedOpen
    requires syntax.reasoningInContent ==> AllSpace(text[OPEN_LENGTH..BodyEnd(text, OPEN_LENGTH)])
    requires Tail(text, OPEN_LENGTH) == "" || Tail(text, OPEN_LENGTH)[0] != '<'
    ensures IsStream([p, text], text) && !Faithful([p, text], text, syntax, true)
  {
    p := OpeningIsShown(text, 1, syntax);
    FinalContentIsTail(text, syntax);
    assert p == "<";
    BrokenPair(p, text, syntax, true);
  }

  lemma CutTagBreaks(text: string, syntax: Syntax) returns (p: string, q: string)
    requires ThoughtStart(text, syntax) == Some(OPEN_LENGTH) && !syntax.thinkingForcedOpen
    requires syntax.reasoningInContent ==> AllSpace(text[OPEN_LENGTH..BodyEnd(text, OPEN_LENGTH)])
    requires Tail(text, OPEN_LENGTH) != "" && Tail(text, OPEN_LENGTH)[0] == '<'
    ensures IsStream([p, q, text], text) && !Faithful([p, q, text], text, syntax, true)
  {
    var tail := Tail(text, OPEN_LENGTH);
    p := OpeningIsShown(text, OPEN_LENGTH - 1, syntax);
    q := text[..|text| - |tail| + 1];
    FinalContentIsTail(text, syntax);
    TailBegins(text, q, syntax);
    assert tail[..1] == "<" == p[..1];
    BrokenTriple(p, q, text, syntax);
  }

  /** An opening tag that arrives in pieces is shown as content and cannot be taken back. */
  lemma SplitOpeningBreaks(text: string, syntax: Syntax) returns (snapshots: seq<string>)
    requires ThoughtStart(text, syntax) == Some(OPEN_LENGTH) && !syntax.thinkingForcedOpen
    requires syntax.reasoningInContent ==> AllSpace(text[OPEN_LENGTH..BodyEnd(text, OPEN_LENGTH)])
    ensures IsStream(snapshots, text) && !Faithful(snapshots, text, syntax, true)
  {
    var tail := Tail(text, OPEN_LENGTH);
    if tail == "" || tail[0] != '<' {
      var p := FirstBracketBreaks(text, syntax);
      snapshots := [p, text];
    } else {
      var p, q := CutTagBreaks(text, syntax);
      snapshots := [p, q, text];
    }
  }

  lemma SpacesUpTo(text: string, q: string, from: nat, begin: nat)
    requires from <= begin < |text| && SkipSpaces(text, from) == begin && q == text[..begin + 1]
    ensures SkipSpaces(q, from) == begin && q[begin..] == text[begin..][..1]
  {
    SkipSpacesIsStable(q, text, from);
    assert q[begin] == text[begin] && !IsSpace(q[begin]);
  }

  /** The snapshot that ends with the first character after the closing tag has the same thinking. */
  lemma SameThinking(text: string, q: string, pos: nat)
    requires pos <= |text| && Tail(text, pos) != "" && q == text[..|text| - |Tail(text, pos)| + 1]
    ensures pos <= |q| <= |text| && Find(q, END_THINK, pos) == Find(text, END_THINK, pos)
    ensures Tail(q, pos) == Tail(text, pos)[..1]
    ensures text[pos..BodyEnd(text, pos)] == q[pos..BodyEnd(q, pos)]
  {
    var idx := Find(text, END_THINK, pos).value;
    var after := idx + |END_THINK|;
    var begin := SkipSpaces(text, after);
    assert q == text[..begin + 1];
    FindIsStable(q, text, pos);
    SpacesUpTo(text, q, after, begin);
    SliceOfPrefix(q, text, pos, idx);
  }

  /** The snapshot that ends with the first character after the closing tag shows that character alone. */
  lemma TailBegins(text: string, q: string, syntax: Syntax)
    requires ThoughtStart(text, syntax) == Some(OPEN_LENGTH)
    requires syntax.reasoningInContent ==> AllSpace(text[OPEN_LENGTH..BodyEnd(text, OPEN_LENGTH)])
    requires Tail(text, OPEN_LENGTH) != "" && q == text[..|text| - |Tail(text, OPEN_LENGTH)| + 1]
    ensures OPEN_LENGTH <= |q| <= |text| && Parse(q, true, syntax).content == Tail(text, OPEN_LENGTH)[..1]
  {
    SameThinking(text, q, OPEN_LENGTH);
    assert syntax.thinkingForcedOpen || THINK <= q;
    StripEmptyExactlyWhen(q[OPEN_LENGTH..BodyEnd(q, OPEN_LENGTH)]);
    ParseShape(q, true, syntax);
  }

  // ----- the main results -----

  /** Streaming a text is faithful however it is cut into snapshots if and only if the condition holds of it. */
  lemma StreamingEqualsBatchExactlyWhen(text: string, syntax: Syntax)
    ensures (forall snapshots :: IsStream(snapshots, text) ==> Faithful(snapshots, text, syntax, true))
            <==> StreamSafe(text, syntax)
  {
    if StreamSafe(text, syntax) {
      forall snapshots | IsStream(snapshots, text) ensures Faithful(snapshots, text, syntax, true) {
        EmptyTextParsesEmpty(syntax);
        SafeStream("", EMPTY_MESSAGE, snapshots, text, syntax, true);
      }
    } else {
      var pos := ThoughtStart(text, syntax).value;
      if syntax.reasoningInContent && HasStray(text, pos) {
        var i :| StrayAt(text, pos, i);
        var p := StrayBreaks(text, i, syntax, pos);
      } else {
        var snapshots := SplitOpeningBreaks(text, syntax);
      }
    }
  }

  /**
   * When the model did not end the text, so that the last parse is partial too, the same condition makes streaming equal
   * the one-shot parse, unless that shows nothing of what was shown before.
   */
  lemma PartialStreamIsFaithful(text: string, snapshots: seq<string>, syntax: Syntax)
    requires StreamSafe(text, syntax) && LastShowsAll(text, syntax) && IsStream(snapshots, text)
    ensures Faithful(snapshots, text, syntax, false)
  {
    EmptyTextParsesEmpty(syntax);
    SafeStream("", EMPTY_MESSAGE, snapshots, text, syntax, false);
  }

  /** Thinking is opened by the template and kept out of the content, or there is none. */
  predicate SafeFlags(syntax: Syntax) {
    || syntax.format.ContentOnly?
    || syntax.reasoningFormat.ReasoningNone?
    || (syntax.thinkingForcedOpen && !syntax.reasoningInContent)
  }

  lemma SafeFlagsShowAll(text: string, syntax: Syntax)
    requires SafeFlags(syntax)
    ensures LastShowsAll(text, syntax)
  {
    ParseShape(text, true, syntax);
    forall p | p <= text && IsEmpty(Parse(text, true, syntax)) ensures IsEmpty(Parse(p, true, syntax)) {
      ParseShape(p, true, syntax);
      if ThoughtStart(text, syntax).Some? {
        TailGrows(p, text, 0);
        ThoughtGrows(p, text, true, syntax, 0);
      }
    }
  }

  /** The opening tag alone is no message, whatever was shown of its beginning. */
  lemma TagShownTooEarly(syntax: Syntax, complete: bool)
    requires !SafeFlags(syntax) && !syntax.thinkingForcedOpen
    ensures "<" <= THINK && !IsEmpty(Parse("<", true, syntax))
    ensures !Extends(Parse("<", true, syntax), Parse(THINK, !complete, syntax))
  {
    var p := OpeningIsShown(THINK, 1, syntax);
    assert p == "<";
    ParseShape(THINK, !complete, syntax);
    assert THINK[OPEN_LENGTH..] == "" && Emitted(THINK, !complete, END_THINK, OPEN_LENGTH) == "";
    assert Strip("") == "";
  }

  lemma NoTagInside(text: string)
    requires text == "x<y"
    ensures Find(text, END_THINK, 0).None? && PartialStop(text, END_THINK).None? && Strip(text) == text
  {
    forall i: nat ensures !PartialAt(text, END_THINK, i) && !OccursAt(text, END_THINK, i) {
      if i < |text| {
        assert text[i..][0] == text[i] && END_THINK[0] == '<' && END_THINK[1] == '/';
        assert i == 1 ==> text[i..][1] == 'y';
      }
    }
    StripIsTheCore(text, text, "", "");
  }

  lemma EarlyContent(syntax: Syntax)
    requires !SafeFlags(syntax) && syntax.thinkingForcedOpen
    ensures Parse("x<", true, syntax).content == THINK + ("x" + END_THINK + "")
  {
    var text := "x<y";
    assert text[..2] == "x<" && text[0..1] == "x" && text[0..1][0] == 'x' && StrayAt(text, 0, 1);
    StraySnapshot(text, 1, syntax, 0);
    StripIsTheCore("x", "x", "", "");
  }

  lemma LateContent(syntax: Syntax, isPartial: bool) returns (rest: string)
    requires !SafeFlags(syntax) && syntax.thinkingForcedOpen
    ensures Parse("x<y", isPartial, syntax).content == THINK + ("x<y" + rest)
  {
    var text := "x<y";
    NoTagInside(text);
    ParseShape(text, isPartial, syntax);
    assert text[0..] == text;
    assert Thought(text, isPartial, 0) == text && Tail(text, 0) == "";
    rest := if Closed(text, isPartial, 0) then END_THINK else "";
    Assoc(THINK, text, rest);
  }

  lemma SlashIsNoLetter(a: string, b: string, rest: string)
    requires a == "x" + END_THINK + "" && b == "x<y" + rest
    ensures !(a <= b)
  {
    assert a[2] == END_THINK[1] && b[2] == 'y';
  }

  /** A bracket held back at the end of a snapshot closes the inlined thinking, which then goes on. */
  lemma ClosedTooEarly(syntax: Syntax, complete: bool)
    requires !SafeFlags(syntax) && syntax.thinkingForcedOpen
    ensures "x<" <= "x<y" && !IsEmpty(Parse("x<", true, syntax))
    ensures !Extends(Parse("x<", true, syntax), Parse("x<y", !complete, syntax))
  {
    EarlyContent(syntax);
    var rest := LateContent(syntax, !complete);
    PrefixUnderHead(THINK, "x" + END_THINK + "", "x<y" + rest);
    SlashIsNoLetter("x" + END_THINK + "", "x<y" + rest, rest);
  }

  /** With other flags a text can be cut so that its streaming breaks, whether it was ended or not. */
  lemma OtherFlagsBreak(syntax: Syntax, complete: bool) returns (text: string, snapshots: seq<string>)
    requires !SafeFlags(syntax)
    ensures IsStream(snapshots, text) && !Faithful(snapshots, text, syntax, complete)
  {
    if syntax.thinkingForcedOpen {
      text := "x<y";
      ClosedTooEarly(syntax, complete);
      BrokenPair("x<", text, syntax, complete);
      snapshots := ["x<", text];
    } else {
      text := THINK;
      TagShownTooEarly(syntax, complete);
      BrokenPair("<", text, syntax, complete);
      snapshots := ["<", text];
    }
  }

  /** The flags under which every text streams faithfully, whether or not the model ends it. */
  lemma StreamingEqualsBatchForAllTextsExactlyWhen(syntax: Syntax, complete: bool)
    ensures (forall text, snapshots :: IsStream(snapshots, text) ==> Faithful(snapshots, text, syntax, complete))
            <==> SafeFlags(syntax)
  {
    if SafeFlags(syntax) {
      forall text, snapshots | IsStream(snapshots, text) ensures Faithful(snapshots, text, syntax, complete) {
        EmptyTextParsesEmpty(syntax);
        SafeFlagsShowAll(text, syntax);
        SafeStream("", EMPTY_MESSAGE, snapshots, text, syntax, complete);
      }
    } else {
      var text, snapshots := OtherFlagsBreak(syntax, complete);
    }
  }
}
