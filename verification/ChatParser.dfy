/** The cursor-based chat parser, for the formats that need no tool-call grammar, and what it holds back. */
module ChatParser {
  import opened StringUtils
  import opened ChatMessage

  datatype ReasoningFormat = ReasoningNone | DeepseekLegacy | Deepseek

  /** The formats modelled; both thinking formats are taken with tool-call parsing switched off. */
  datatype Format = ContentOnly | DeepseekR1 | Hermes2Pro

  datatype Syntax = Syntax(
    format: Format, reasoningFormat: ReasoningFormat, reasoningInContent: bool, thinkingForcedOpen: bool)

  const THINK := "<think>"
  const END_THINK := "</think>"

  /** What try_find_literal reports: the text before the literal, and the range of the (possibly cut off) literal. */
  datatype Found = Found(prelude: string, begin: nat, end: nat)

  function FindLiteral(input: string, isPartial: bool, literal: string, pos: nat): (r: Option<Found>)
    requires pos <= |input|
    ensures r.Some? ==> r.value.end <= |input|
  {
    var idx := Find(input, literal, pos);
    if idx.Some? then Some(Found(input[pos..idx.value], idx.value, idx.value + |literal|))
    else
      var cut := PartialStop(input, literal);
      if isPartial && cut.Some? && cut.value >= pos then Some(Found(input[pos..cut.value], cut.value, |input|))
      else None
  }

  /** The parser's cursor and what it has collected. */
  datatype State = State(pos: nat, reasoning: string, content: string)

  function HandleReasoning(
    syntax: Syntax, startThink: string, endThink: string, st: State, reasoning: string, closed: bool): State
  {
    var stripped := Strip(reasoning);
    if stripped == "" then st
    else if syntax.reasoningInContent then
      var open := if syntax.reasoningFormat == Deepseek then THINK else startThink;
      var close := if syntax.reasoningFormat == Deepseek then END_THINK else endThink;
      st.(content := st.content + open + stripped + (if closed then close else ""))
    else st.(reasoning := st.reasoning + stripped)
  }

  /** From inside the thinking block: up to the closing tag, or everything. */
  function ParseThought(
    input: string, isPartial: bool, syntax: Syntax, startThink: string, endThink: string, st: State): (r: State)
    requires st.pos <= |input|
    ensures r.pos <= |input|
  {
    match FindLiteral(input, isPartial, endThink, st.pos)
    case Some(found) =>
      var handled := HandleReasoning(syntax, startThink, endThink, st, found.prelude, true);
      handled.(pos := SkipSpaces(input, found.end))
    case None =>
      HandleReasoning(syntax, startThink, endThink, st, input[st.pos..], !isPartial).(pos := |input|)
  }

  function ParseReasoning(
    input: string, isPartial: bool, syntax: Syntax, startThink: string, endThink: string, st: State): (r: (State, bool))
    requires st.pos <= |input|
    ensures r.0.pos <= |input|
  {
    if syntax.reasoningFormat.ReasoningNone? then (st, false)
    else if syntax.thinkingForcedOpen then (ParseThought(input, isPartial, syntax, startThink, endThink, st), true)
    else if startThink <= input[st.pos..] then
      (ParseThought(input, isPartial, syntax, startThink, endThink, st.(pos := st.pos + |startThink|)), true)
    else (st, false)
  }

  /** The message a whole parse yields. */
  function Parse(input: string, isPartial: bool, syntax: Syntax): Message {
    if syntax.format.ContentOnly? then Message("", input, [])
    else
      var st := ParseReasoning(input, isPartial, syntax, THINK, END_THINK, State(0, "", "")).0;
      Message(st.reasoning, st.content + input[st.pos..], [])
  }

  class ChatMsgParser {
    const input: string
    const isPartial: bool
    const syntax: Syntax
    var pos: nat
    var result: Message

    predicate Valid()
      reads this
    {
      pos <= |input|
    }

    function Cursor(): State
      reads this
    {
      State(pos, result.reasoning, result.content)
    }

    constructor (input: string, isPartial: bool, syntax: Syntax)
      ensures Valid() && pos == 0 && result == EMPTY_MESSAGE
      ensures this.input == input && this.isPartial == isPartial && this.syntax == syntax
    {
      this.input, this.isPartial, this.syntax := input, isPartial, syntax;
      pos := 0;
      result := EMPTY_MESSAGE;
    }

    method AddContent(content: string)
      modifies this`result
      ensures result == old(result).(content := old(result).content + content)
    {
      result := result.(content := result.content + content);
    }

    method AddReasoningContent(reasoning: string)
      modifies this`result
      ensures result == old(result).(reasoning := old(result).reasoning + reasoning)
    {
      result := result.(reasoning := result.reasoning + reasoning);
    }

    /** False stands for the "Invalid position!" exception. */
    method MoveTo(to: nat) returns (ok: bool)
      modifies this`pos
      ensures ok == (to <= |input|)
      ensures pos == if ok then to else old(pos)
    {
      if to > |input| {
        return false;
      }
      pos := to;
      ok := true;
    }

    /** False stands for the "Unexpected content at end of input" exception. */
    method Finish() returns (ok: bool)
      ensures ok <==> isPartial || pos == |input|
    {
      ok := isPartial || pos == |input|;
    }

    method ConsumeSpaces() returns (consumed: bool)
      requires Valid()
      modifies this`pos
      ensures Valid() && pos == SkipSpaces(input, old(pos))
      ensures consumed <==> pos != old(pos)
    {
      consumed := false;
      while pos < |input| && IsSpace(input[pos])
        invariant old(pos) <= pos <= |input|
        invariant SkipSpaces(input, pos) == SkipSpaces(input, old(pos))
        invariant consumed <==> pos != old(pos)
      {
        pos := pos + 1;
        consumed := true;
      }
    }

    method TryConsumeLiteral(literal: string) returns (ok: bool)
      requires Valid()
      modifies this`pos
      ensures Valid()
      ensures ok == (literal <= input[old(pos)..])
      ensures pos == if ok then old(pos) + |literal| else old(pos)
    {
      var p := pos;
      for i := 0 to |literal|
        invariant p == pos + i <= |input|
        invariant literal[..i] == input[pos..p]
        invariant pos == old(pos)
      {
        if p >= |input| {
          return false;
        }
        assert literal <= input[pos..] ==> literal[i] == input[p];
        if input[p] != literal[i] {
          return false;
        }
        p := p + 1;
      }
      pos := p;
      ok := true;
    }

    method TryFindLiteral(literal: string) returns (res: Option<Found>)
      requires Valid()
      modifies this`pos
      ensures Valid()
      ensures res == FindLiteral(input, isPartial, literal, old(pos))
      ensures pos == if res.Some? then res.value.end else old(pos)
    {
      var idx := Find(input, literal, pos);
      if idx.Some? {
        res := Some(Found(input[pos..idx.value], idx.value, idx.value + |literal|));
        var ok := MoveTo(idx.value + |literal|);
        return;
      }
      if isPartial {
        idx := FindPartialStop(input, literal);
        if idx.Some? && idx.value >= pos {
          res := Some(Found(input[pos..idx.value], idx.value, |input|));
          var ok := MoveTo(|input|);
          return;
        }
      }
      res := None;
    }

    method ConsumeRest() returns (rest: string)
      requires Valid()
      modifies this`pos
      ensures Valid() && pos == |input| && rest == input[old(pos)..]
    {
      rest := input[pos..];
      pos := |input|;
    }

    method HandleReasoningText(startThink: string, endThink: string, reasoning: string, closed: bool)
      modifies this`result
      ensures Cursor() == HandleReasoning(syntax, startThink, endThink, old(Cursor()), reasoning, closed)
      ensures result.toolCalls == old(result).toolCalls
    {
      var stripped := StringStrip(reasoning);
      if stripped == "" {
        return;
      }
      if syntax.reasoningInContent {
        AddContent(if syntax.reasoningFormat == Deepseek then THINK else startThink);
        AddContent(stripped);
        if closed {
          AddContent(if syntax.reasoningFormat == Deepseek then END_THINK else endThink);
        }
      } else {
        AddReasoningContent(stripped);
      }
    }

    /** The part of try_parse_reasoning after the thinking block is known to be open. */
    method ConsumeThought(startThink: string, endThink: string)
      requires Valid()
      modifies this
      ensures Valid()
      ensures Cursor() == ParseThought(input, isPartial, syntax, startThink, endThink, old(Cursor()))
      ensures result.toolCalls == old(result).toolCalls
    {
      var res := TryFindLiteral(endThink);
      if res.Some? {
        HandleReasoningText(startThink, endThink, res.value.prelude, true);
        var _ := ConsumeSpaces();
        return;
      }
      var rest := ConsumeRest();
      assert Strip("") == "";
      if rest != "" {
        HandleReasoningText(startThink, endThink, rest, !isPartial);
      }
    }

    /** Whether the thinking block is open, with the cursor past its opening tag. */
    method OpensThought(startThink: string) returns (open: bool)
      requires Valid()
      modifies this`pos
      ensures Valid()
      ensures open == (syntax.thinkingForcedOpen || startThink <= input[old(pos)..])
      ensures var st := old(Cursor());
              Cursor() == if !syntax.thinkingForcedOpen && open then st.(pos := st.pos + |startThink|) else st
    {
      open := syntax.thinkingForcedOpen;
      if !open {
        open := TryConsumeLiteral(startThink);
      }
    }

    method TryParseReasoning(startThink: string, endThink: string) returns (parsed: bool)
      requires Valid()
      modifies this
      ensures Valid()
      ensures var r := ParseReasoning(input, isPartial, syntax, startThink, endThink, old(Cursor()));
              Cursor() == r.0 && parsed == r.1
      ensures result.toolCalls == old(result).toolCalls
    {
      parsed := false;
      if syntax.reasoningFormat != ReasoningNone {
        parsed := OpensThought(startThink);
        if parsed {
          ConsumeThought(startThink, endThink);
        }
      }
    }
  }

  /** common_chat_parse_deepseek_r1 and common_chat_parse_hermes_2_pro, which agree when tool calls are not parsed. */
  method ParseThinkingFormat(builder: ChatMsgParser)
    requires builder.Valid() && builder.pos == 0 && builder.result == EMPTY_MESSAGE && !builder.syntax.format.ContentOnly?
    modifies builder
    ensures builder.Valid() && builder.pos == |builder.input|
    ensures builder.result == Parse(builder.input, builder.isPartial, builder.syntax)
  {
    var _ := builder.TryParseReasoning(THINK, END_THINK);
    var rest := builder.ConsumeRest();
    builder.AddContent(rest);
  }

  /** common_chat_parse. In these formats no step gives up on the input, and the final position check always passes. */
  method ChatParse(input: string, isPartial: bool, syntax: Syntax) returns (r: Result<Message>)
    ensures r == Ok(Parse(input, isPartial, syntax))
  {
    var builder := new ChatMsgParser(input, isPartial, syntax);
    match syntax.format {
      case ContentOnly =>
        var rest := builder.ConsumeRest();
        builder.AddContent(rest);
        assert "" + rest == input;
      case DeepseekR1 => ParseThinkingFormat(builder);
      case Hermes2Pro => ParseThinkingFormat(builder);
    }
    var ok := builder.Finish();
    if !ok {
      return Err("Unexpected content at end of input");
    }
    r := Ok(builder.result);
  }

  // ----- holding back text that may be the start of the closing tag -----

  /** The text taken to lie before the literal: the prelude if there is one, else everything that is left. */
  function Emitted(input: string, isPartial: bool, literal: string, pos: nat): string
    requires pos <= |input|
  {
    match FindLiteral(input, isPartial, literal, pos)
    case Some(found) => found.prelude
    case None => input[pos..]
  }

  /** A literal found in `q` but not in its prefix `p` starts where the tail of `p` already begins the literal, or later. */
  lemma NewOccurrenceIsPartial(p: string, q: string, literal: string, i: nat)
    requires p <= q && OccursAt(q, literal, i) && !OccursAt(p, literal, i) && i < |p|
    ensures PartialAt(p, literal, i)
  {
    OccursInExtension(p, q, literal, i);
    assert p[i..] == q[i..|p|] == q[i..i + |literal|][..|p| - i];
  }

  /** Completing the earliest tail of `p` that begins the literal makes it the literal's first occurrence. */
  lemma CompletedTail(p: string, literal: string, pos: nat, at: nat) returns (q: string)
    requires pos <= |p| && Find(p, literal, pos).None? && PartialStop(p, literal, pos) == Some(at)
    ensures p <= q && Find(q, literal, pos) == Some(at) && q[pos..at] == p[pos..at]
  {
    q := p[..at] + literal;
    assert p == p[..at] + p[at..];
    assert OccursAt(q, literal, at);
    forall j: nat | pos <= j < at ensures !OccursAt(q, literal, j) {
      if OccursAt(q, literal, j) {
        NewOccurrenceIsPartial(p, q, literal, j);
      }
    }
    FindIs(q, literal, pos, at);
  }

  /** True of a partial input unless its longest tail beginning the literal starts before `pos` and hides one after it. */
  predicate HoldsBackAll(p: string, literal: string, pos: nat) {
    || Find(p, literal, pos).Some?
    || PartialStop(p, literal).None?
    || PartialStop(p, literal).value >= pos
    || PartialStop(p, literal, pos).None?
  }

  /** Where the text emitted for a partial input without the literal ends. */
  function HeldAt(p: string, literal: string, pos: nat): (held: nat)
    requires pos <= |p|
    ensures pos <= held <= |p|
  {
    var cut := PartialStop(p, literal);
    if cut.Some? && cut.value >= pos then cut.value else |p|
  }

  /** Before that, no longer input has the literal or a beginning of it. */
  lemma NothingBefore(p: string, q: string, literal: string, pos: nat, j: nat)
    requires pos <= |p| && p <= q && HoldsBackAll(p, literal, pos) && Find(p, literal, pos).None?
    requires pos <= j < HeldAt(p, literal, pos)
    ensures !OccursAt(q, literal, j) && !PartialAt(q, literal, j)
  {
    if OccursAt(q, literal, j) {
      NewOccurrenceIsPartial(p, q, literal, j);
    }
    if PartialAt(q, literal, j) {
      PartialInPrefix(p, q, literal, j);
    }
  }

  lemma PartialInPrefix(p: string, q: string, literal: string, j: nat)
    requires p <= q && j < |p| && PartialAt(q, literal, j)
    ensures PartialAt(p, literal, j)
  {
    assert p[j..] == q[j..][..|p| - j];
  }

  lemma EmittedIsKept(p: string, q: string, isPartial: bool, literal: string, pos: nat)
    requires literal != "" && pos <= |p| && p <= q && HoldsBackAll(p, literal, pos)
    ensures Emitted(p, true, literal, pos) <= Emitted(q, isPartial, literal, pos)
  {
    var inP := Find(p, literal, pos);
    if inP.Some? {
      OccursInExtension(p, q, literal, inP.value);
      forall j: nat | pos <= j < inP.value ensures !OccursAt(q, literal, j) {
        OccursInExtension(p, q, literal, j);
      }
      FindIs(q, literal, pos, inP.value);
    } else {
      var held := HeldAt(p, literal, pos);
      assert Emitted(p, true, literal, pos) == p[pos..held];
      forall j: nat | pos <= j < held ensures !OccursAt(q, literal, j) && !PartialAt(q, literal, j) {
        NothingBefore(p, q, literal, pos, j);
      }
      assert p[pos..held] == q[pos..held];
    }
  }

  /**
   * Hold-back safety, exactly: what is emitted for a partial input is kept by every longer input, partial or not,
   * if and only if the one blind spot of try_find_literal is avoided.
   */
  lemma HoldBackIsSafeExactlyWhen(p: string, literal: string, pos: nat)
    requires literal != "" && pos <= |p|
    ensures (forall q, isPartial :: p <= q ==> Emitted(p, true, literal, pos) <= Emitted(q, isPartial, literal, pos))
            <==> HoldsBackAll(p, literal, pos)
  {
    if HoldsBackAll(p, literal, pos) {
      forall q, isPartial | p <= q
        ensures Emitted(p, true, literal, pos) <= Emitted(q, isPartial, literal, pos)
      {
        EmittedIsKept(p, q, isPartial, literal, pos);
      }
    } else {
      var q := CompletedTail(p, literal, pos, PartialStop(p, literal, pos).value);
      assert !(Emitted(p, true, literal, pos) <= Emitted(q, false, literal, pos));
    }
  }

  /** From the start of the text the blind spot does not exist. */
  lemma HoldBackFromStart(p: string, literal: string)
    ensures HoldsBackAll(p, literal, 0)
  {
  }

  /**
   * Nor does it for a literal whose first character does not come again in it, such as the closing tags of the source's one
   * caller.
   */
  lemma NoBlindSpotWithoutOverlap(p: string, literal: string, pos: nat)
    requires pos <= |p| && forall i :: 0 < i < |literal| ==> literal[i] != literal[0]
    ensures HoldsBackAll(p, literal, pos)
  {
  }

  lemma ClosingTagsHaveNoBlindSpot(p: string, literal: string, pos: nat)
    requires pos <= |p| && (literal == "</think>" || literal == "<|END_THINKING|>")
    ensures HoldsBackAll(p, literal, pos)
  {
    NoBlindSpotWithoutOverlap(p, literal, pos);
  }

  /** But for other literals it does: after the first of two letters that both begin "aab", the second is emitted. */
  lemma BlindSpotExists()
    ensures !HoldsBackAll("aa", "aab", 1)
    ensures Emitted("aa", true, "aab", 1) == "a" && Emitted("aaab", false, "aab", 1) == ""
  {
    var p, literal, q := "aa", "aab", "aaab";
    assert p[0..] == p && p[1..] == "a" && literal[..1] == "a" && literal[..2] == p;
    assert PartialAt(p, literal, 0) && PartialAt(p, literal, 1);
    assert q[1..4] == literal && OccursAt(q, literal, 1);
    assert q[1..1] == "";
  }

  /** The hold-back is also tight: some longer complete input ends its prelude exactly there, so nothing more was safe. */
  lemma HoldBackIsTight(p: string, literal: string, pos: nat) returns (q: string)
    requires literal != "" && pos <= |p| && HoldsBackAll(p, literal, pos)
    ensures p <= q && Emitted(q, false, literal, pos) == Emitted(p, true, literal, pos)
  {
    q := p;
    var cut := PartialStop(p, literal);
    if Find(p, literal, pos).None? && cut.Some? && cut.value >= pos {
      assert PartialStop(p, literal, pos) == cut;
      q := CompletedTail(p, literal, pos, cut.value);
    }
  }
}
