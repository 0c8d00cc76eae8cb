/** What the message of a whole parse is, said of the pieces the text is made of. */
module ChatResults {
  import opened StringUtils
  import opened ChatMessage
  import opened ChatParser

  /** Thinking is looked for. */
  predicate LooksForThought(syntax: Syntax) {
    !syntax.format.ContentOnly? && !syntax.reasoningFormat.ReasoningNone?
  }

  /** The opening tag is written, or the template has written it. */
  predicate IsOpening(syntax: Syntax, open: string) {
    open == if syntax.thinkingForcedOpen then "" else "<think>"
  }

  /** The message for a thought and what follows it; an empty thought leaves no tags. */
  function MessageOf(syntax: Syntax, core: string, closed: bool, rest: string): Message {
    if core == "" then Message("", rest, [])
    else if syntax.reasoningInContent then Message("", "<think>" + core + (if closed then "</think>" else "") + rest, [])
    else Message(core, rest, [])
  }

  /** Nowhere in the thought, nor across its end, does the closing tag begin. */
  predicate IsThought(thought: string, behind: string) {
    forall k :: 0 <= k < |thought| ==> !OccursAt(thought + behind, "</think>", k)
  }

  /** Everything is content, where no thinking is looked for or none is opened. */
  lemma WithoutThought(input: string, isPartial: bool, syntax: Syntax)
    requires !LooksForThought(syntax) || (!syntax.thinkingForcedOpen && !("<think>" <= input))
    ensures Parse(input, isPartial, syntax) == Message("", input, [])
  {
    assert input[0..] == input && "" + input == input;
  }

  lemma SkippedTo(s: string, i: nat, r: nat)
    requires i <= r <= |s| && (forall k :: i <= k < r ==> IsSpace(s[k])) && (r < |s| ==> !IsSpace(s[r]))
    ensures SkipSpaces(s, i) == r
  {
  }

  lemma OpeningIsPassed(input: string, open: string, body: string, isPartial: bool, syntax: Syntax)
    requires LooksForThought(syntax) && IsOpening(syntax, open) && input == open + body
    ensures var st := ParseThought(input, isPartial, syntax, THINK, END_THINK, State(|open|, "", ""));
            Parse(input, isPartial, syntax) == Message(st.reasoning, st.content + input[st.pos..], [])
  {
    assert input[0..] == input;
  }

  /** Whatever tags a format has: the thought is kept apart, or written between its tags, which are always these for Deepseek. */
  lemma ThoughtIsHandled(syntax: Syntax, startThink: string, endThink: string, st: State, thought: string, left: string,
                         core: string, right: string, closed: bool)
    requires IsCoreOf(core, thought, left, right)
    ensures var r := HandleReasoning(syntax, startThink, endThink, st, thought, closed);
            var (open, close) := if syntax.reasoningFormat == Deepseek then ("<think>", "</think>") else (startThink, endThink);
            r == if core == "" then st
                 else if syntax.reasoningInContent
                 then State(st.pos, st.reasoning, st.content + open + core + (if closed then close else ""))
                 else State(st.pos, st.reasoning + core, st.content)
  {
    StripIsTheCore(thought, core, left, right);
  }

  /** try_parse_reasoning says yes exactly if a thought is looked for and opened; otherwise nothing changes. */
  lemma ReasoningIsParsedExactlyWhen(input: string, isPartial: bool, syntax: Syntax, startThink: string, endThink: string, st: State)
    requires st.pos <= |input|
    ensures var (after, parsed) := ParseReasoning(input, isPartial, syntax, startThink, endThink, st);
            && (parsed <==> !syntax.reasoningFormat.ReasoningNone? && (syntax.thinkingForcedOpen || startThink <= input[st.pos..]))
            && (!parsed ==> after == st)
  {
  }

  lemma HandledIs(syntax: Syntax, thought: string, left: string, core: string, right: string, closed: bool, pos: nat, rest: string)
    requires LooksForThought(syntax) && IsCoreOf(core, thought, left, right)
    ensures var st := HandleReasoning(syntax, THINK, END_THINK, State(pos, "", ""), thought, closed);
            Message(st.reasoning, st.content + rest, []) == MessageOf(syntax, core, closed, rest)
  {
    ThoughtIsHandled(syntax, THINK, END_THINK, State(pos, "", ""), thought, left, core, right, closed);
  }

  // ----- where the closing tag is -----

  lemma OccursBehind(open: string, body: string, pattern: string, k: nat)
    requires k <= |body|
    ensures (open + body)[|open| + k..] == body[k..]
    ensures OccursAt(open + body, pattern, |open| + k) <==> OccursAt(body, pattern, k)
  {
    if k + |pattern| <= |body| {
      assert (open + body)[|open| + k..|open| + k + |pattern|] == body[k..k + |pattern|];
    }
  }

  ghost predicate IsFirst(text: string, literal: string, from: nat, at: nat) {
    from <= at && OccursAt(text, literal, at) && forall k: nat :: from <= k < at ==> !OccursAt(text, literal, k)
  }

  lemma OccursFurther(text: string, from: nat, body: string, literal: string, j: nat, k: nat)
    requires from <= |text| && text[from..] == body && j == from + k
    ensures OccursAt(text, literal, j) <==> OccursAt(body, literal, k)
  {
    if k + |literal| <= |body| {
      var n := k + |literal|;
      assert body[k..n] == text[from..][k..n] == text[j..from + n];
    }
  }

  lemma LiteralIsFirst(text: string, from: nat, body: string, literal: string, i: nat)
    requires from <= |text| && text[from..] == body && IsFirst(body, literal, 0, i)
    ensures IsFirst(text, literal, from, from + i)
  {
    OccursFurther(text, from, body, literal, from + i, i);
    forall j: nat | from <= j < from + i ensures !OccursAt(text, literal, j) {
      OccursFurther(text, from, body, literal, j, j - from);
    }
  }

  lemma FirstIsFound(text: string, literal: string, from: nat, at: nat)
    requires IsFirst(text, literal, from, at)
    ensures Find(text, literal, from) == Some(at)
  {
    FindIs(text, literal, from, at);
  }

  lemma LiteralIsFound(text: string, from: nat, body: string, literal: string, i: nat)
    requires from <= |text| && text[from..] == body && IsFirst(body, literal, 0, i)
    ensures Find(text, literal, from) == Some(from + i)
  {
    LiteralIsFirst(text, from, body, literal, i);
    FirstIsFound(text, literal, from, from + i);
  }

  lemma StandsBehind(thought: string, literal: string, after: string)
    ensures OccursAt(thought + (literal + after), literal, |thought|)
  {
    assert thought + (literal + after) == thought + literal + after;
  }

  lemma ThoughtIsFirst(thought: string, behind: string)
    requires IsThought(thought, behind) && OccursAt(thought + behind, END_THINK, |thought|)
    ensures IsFirst(thought + behind, END_THINK, 0, |thought|)
  {
  }

  /** What try_find_literal reports. */
  lemma ClosingIsFound(open: string, thought: string, after: string, isPartial: bool)
    requires IsThought(thought, END_THINK + after)
    ensures var input, i := open + (thought + (END_THINK + after)), |open| + |thought|;
            FindLiteral(input, isPartial, END_THINK, |open|) == Some(Found(thought, i, i + 8))
  {
    StandsBehind(thought, END_THINK, after);
    ThoughtIsFirst(thought, END_THINK + after);
    LiteralIsFound(open + (thought + (END_THINK + after)), |open|, thought + (END_THINK + after), END_THINK, |thought|);
    BehindTheTag(open, thought, after);
  }

  lemma BehindTheTag(open: string, thought: string, after: string)
    ensures var input, i := open + (thought + (END_THINK + after)), |open| + |thought|;
            i + 8 <= |input| && input[i + 8..] == after && input[|open|..i] == thought
  {
    assert open + (thought + (END_THINK + after)) == (open + thought + END_THINK) + after;
  }

  lemma NotClosed(open: string, body: string)
    requires IsThought(body, "")
    ensures Find(open + body, END_THINK, |open|).None?
  {
    assert body + "" == body;
    var idx := Find(open + body, END_THINK, |open|);
    if idx.Some? {
      OccursBehind(open, body, END_THINK, idx.value - |open|);
    }
  }

  /** No end of the text begins the closing tag. */
  predicate NothingHeldBack(text: string) {
    forall i :: 0 <= i < |text| ==> !(text[i..] <= "</think>")
  }

  lemma NothingIsHeld(open: string, body: string)
    requires NothingHeldBack(body)
    ensures var cut := PartialStop(open + body, END_THINK); cut.Some? ==> cut.value < |open|
  {
    var cut := PartialStop(open + body, END_THINK);
    if cut.Some? && cut.value >= |open| {
      OccursBehind(open, body, END_THINK, cut.value - |open|);
    }
  }

  /** The closing tag has one "<", so that no longer end begins it. */
  lemma OneBracket(text: string, k: nat)
    requires text <= END_THINK && 0 < k < |text|
    ensures text[k] != '<'
  {
    assert text[k] == END_THINK[k];
  }

  lemma NoLonger(text: string, i: nat, j: nat)
    requires i < |text| && text[i] == '<' && PartialAt(text, END_THINK, j)
    ensures j >= i
  {
    if j < i {
      OneBracket(text[j..], i - j);
    }
  }

  lemma HeldIsFound(open: string, thought: string, held: string)
    requires held != "" && held <= END_THINK
    ensures PartialStop(open + (thought + held), END_THINK) == Some(|open| + |thought|)
  {
    var text, i := open + (thought + held), |open| + |thought|;
    OccursBehind(open, thought + held, END_THINK, |thought|);
    assert text[i..] == held && held[0] == END_THINK[0];
    assert PartialAt(text, END_THINK, i) && text[i] == held[0];
    NoLonger(text, i, PartialStop(text, END_THINK).value);
  }

  // ----- the four kinds of text -----

  lemma ThoughtUpTo(input: string, isPartial: bool, syntax: Syntax, pos: nat, i: nat, end: nat, thought: string)
    requires pos <= i <= end <= |input| && thought == input[pos..i]
    requires FindLiteral(input, isPartial, END_THINK, pos) == Some(Found(thought, i, end))
    ensures ParseThought(input, isPartial, syntax, THINK, END_THINK, State(pos, "", ""))
            == HandleReasoning(syntax, THINK, END_THINK, State(pos, "", ""), thought, true).(pos := SkipSpaces(input, end))
  {
  }

  lemma MessageUpTo(input: string, isPartial: bool, syntax: Syntax, open: string, body: string, i: nat, end: nat, thought: string,
                    next: nat, left: string, core: string, right: string, rest: string)
    requires LooksForThought(syntax) && IsOpening(syntax, open) && input == open + body && IsCoreOf(core, thought, left, right)
    requires |open| <= i <= end <= next <= |input| && thought == input[|open|..i]
    requires FindLiteral(input, isPartial, END_THINK, |open|) == Some(Found(thought, i, end))
    requires SkipSpaces(input, end) == next && input[next..] == rest
    ensures Parse(input, isPartial, syntax) == MessageOf(syntax, core, true, rest)
  {
    OpeningIsPassed(input, open, body, isPartial, syntax);
    ThoughtUpTo(input, isPartial, syntax, |open|, i, end, thought);
    HandledIs(syntax, thought, left, core, right, true, |open|, rest);
  }

  lemma SpacesBehind(input: string, end: nat, spaces: string, rest: string)
    requires end <= |input| && input[end..] == spaces + rest && AllSpace(spaces) && (rest == "" || !IsSpace(rest[0]))
    ensures SkipSpaces(input, end) == end + |spaces| && input[end + |spaces|..] == rest
  {
    assert |input| == end + |spaces| + |rest|;
    assert forall k :: end <= k < end + |spaces| ==> input[k] == input[end..][k - end] == spaces[k - end];
    assert rest != "" ==> input[end + |spaces|] == input[end..][|spaces|] == rest[0];
    SkippedTo(input, end, end + |spaces|);
    assert input[end + |spaces|..] == input[end..][|spaces|..];
  }

  lemma ClosedAt(input: string, isPartial: bool, syntax: Syntax, open: string, body: string, i: nat, end: nat, thought: string,
                 left: string, core: string, right: string, spaces: string, rest: string)
    requires LooksForThought(syntax) && IsOpening(syntax, open) && input == open + body && IsCoreOf(core, thought, left, right)
    requires |open| <= i <= end <= |input| && thought == input[|open|..i]
    requires FindLiteral(input, isPartial, END_THINK, |open|) == Some(Found(thought, i, end))
    requires input[end..] == spaces + rest && AllSpace(spaces) && (rest == "" || !IsSpace(rest[0]))
    ensures Parse(input, isPartial, syntax) == MessageOf(syntax, core, true, rest)
  {
    SpacesBehind(input, end, spaces, rest);
    MessageUpTo(input, isPartial, syntax, open, body, i, end, thought, end + |spaces|, left, core, right, rest);
  }

  /**
   * A thought that is closed, in spaces of its own, and the content after further spaces: for partial and complete input, and all
   * flags.
   */
  lemma ClosedThought(isPartial: bool, syntax: Syntax, open: string, thought: string, left: string, core: string, right: string,
                      spaces: string, rest: string)
    requires LooksForThought(syntax) && IsOpening(syntax, open) && IsCoreOf(core, thought, left, right)
    requires IsThought(thought, END_THINK + (spaces + rest)) && AllSpace(spaces) && (rest == "" || !IsSpace(rest[0]))
    ensures Parse(open + (thought + (END_THINK + (spaces + rest))), isPartial, syntax) == MessageOf(syntax, core, true, rest)
  {
    var after := spaces + rest;
    var input, i := open + (thought + (END_THINK + after)), |open| + |thought|;
    ClosingIsFound(open, thought, after, isPartial);
    BehindTheTag(open, thought, after);
    ClosedAt(input, isPartial, syntax, open, thought + (END_THINK + after), i, i + 8, thought, left, core, right, spaces, rest);
  }

  lemma ThoughtToTheEnd(open: string, thought: string, isPartial: bool, syntax: Syntax)
    requires LooksForThought(syntax) && IsOpening(syntax, open)
    requires FindLiteral(open + thought, isPartial, END_THINK, |open|).None?
    ensures var st := HandleReasoning(syntax, THINK, END_THINK, State(|open|, "", ""), thought, !isPartial);
            Parse(open + thought, isPartial, syntax) == Message(st.reasoning, st.content + "", [])
  {
    OpeningIsPassed(open + thought, open, thought, isPartial, syntax);
    assert (open + thought)[|open|..] == thought && (open + thought)[|open + thought|..] == "";
  }

  /** A thought that is not closed, in complete input: all the rest is the thought. */
  lemma UnclosedThought(syntax: Syntax, open: string, thought: string, left: string, core: string, right: string)
    requires LooksForThought(syntax) && IsOpening(syntax, open) && IsCoreOf(core, thought, left, right) && IsThought(thought, "")
    ensures Parse(open + thought, false, syntax) == MessageOf(syntax, core, true, "")
  {
    NotClosed(open, thought);
    ThoughtToTheEnd(open, thought, false, syntax);
    HandledIs(syntax, thought, left, core, right, true, |open|, "");
  }

  /** In partial input it is open still. */
  lemma OpenThought(syntax: Syntax, open: string, thought: string, left: string, core: string, right: string)
    requires LooksForThought(syntax) && IsOpening(syntax, open) && IsCoreOf(core, thought, left, right) && IsThought(thought, "")
    requires NothingHeldBack(thought)
    ensures Parse(open + thought, true, syntax) == MessageOf(syntax, core, false, "")
  {
    NotClosed(open, thought);
    NothingIsHeld(open, thought);
    ThoughtToTheEnd(open, thought, true, syntax);
    HandledIs(syntax, thought, left, core, right, false, |open|, "");
  }

  lemma HeldIsReported(open: string, thought: string, held: string)
    requires IsThought(thought + held, "") && held != "" && held <= END_THINK
    ensures var input, i := open + (thought + held), |open| + |thought|;
            && input[|open|..i] == thought
            && FindLiteral(input, true, END_THINK, |open|) == Some(Found(thought, i, |input|))
  {
    var input, i := open + (thought + held), |open| + |thought|;
    NotClosed(open, thought + held);
    HeldIsFound(open, thought, held);
    assert input == open + thought + held;
    assert input[|open|..i] == thought;
  }

  lemma NothingBehind(input: string)
    ensures SkipSpaces(input, |input|) == |input| && input[|input|..] == ""
  {
  }

  /** Unless it ends with a beginning of the closing tag: that is held back, and the thought is closed at once. */
  lemma HeldBackThought(syntax: Syntax, open: string, thought: string, held: string, left: string, core: string, right: string)
    requires LooksForThought(syntax) && IsOpening(syntax, open) && IsCoreOf(core, thought, left, right)
    requires IsThought(thought + held, "") && held != "" && held <= END_THINK
    ensures Parse(open + (thought + held), true, syntax) == MessageOf(syntax, core, true, "")
  {
    var input, i := open + (thought + held), |open| + |thought|;
    HeldIsReported(open, thought, held);
    NothingBehind(input);
    MessageUpTo(input, true, syntax, open, thought + held, i, |input|, thought, |input|, left, core, right, "");
  }
}
