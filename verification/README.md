# Verified models of llama.cpp's computation-heavy helpers

A Dafny model of seven parts of the vendored llama.cpp that compute without touching models or devices, with proofs of
what each promises. Code that changes state step by step is modelled by classes, arrays and loops, each proved against a
function; code made of expressions is modelled by functions.

1. **Streaming chat output** (`StringUtils`, `ChatMessage`, `ChatParser`, `ChatResults`, `Streaming`). A parser is run
   again on every longer prefix of the model's output, each result is compared with the last one, and the differences go
   to a client. Main results: for which texts, and under which flags, the sum of the differences is the one-shot parse
   however the text is cut; holding back a possible beginning of the closing tag is safe exactly outside one blind spot;
   the differences between two messages rebuild the new one exactly when it extends the old one; and the message of
   every kind of text, from its pieces.
2. **The JSON cleaner** (`JsonText`, `JsonReader`, `JsonCleaner`, `JsonRouting`, `JsonMeaning`, `JsonExamples`). Cut-off
   JSON is healed with a marker, and a walk with one shared path stack takes the marker out again and turns arguments
   into text. Main results: no marker survives and the partial flag is exact, for every value that keeps the parser's
   promises; what is kept, and that arguments come out as they are printed, up to the marker; and exactly when the
   shared stack is as good as a path passed down.
3. **Factored LoRA tensors** (`Tensors`, `Lora`, `LoraIndexing`, `LoraEllipsis`, `LoraStacking`, `Relayout`). A pair of
   factors stands for a dense product. Main results: each operation on the factors commutes with the product, with the
   exact condition where it does not always; and the re-layouts of the model converters, written once and run on either
   plain or factored weights, give the same when an adapter is converted and multiplied out as when it is multiplied out
   and converted.
4. **Row order, BPE and expert gathering** (`RowOrder`, `RowNumbers`, `RelayoutSuccess`, `Bpe`, `Experts`,
   `ExpertStacks`). The re-layouts are maps of row numbers, given in plain numbers, and exactly which weights they
   accept; byte-pair merging is the one sequence of least merges, and with a rank limit it is the beginning of merging
   without one; the expert tensors of a block leave as three stacks whatever order they arrive in, and the conversion
   succeeds exactly when no block is left incomplete.
5. **base64** (`Base64`). The bit-accumulating decoder against the 24-bit groups of section 4 of RFC 4648, with alphabet
   detection and decoding in place.
6. **The legacy GGML reader** (`GgmlFormat`, `GgmlRoundTrip`, `GgmlRefusals`, `GgmlLoop`, `GgmlReader`). A reader of the
   GGML, GGMF and GGJT formats that recovers what a writer wrote, refuses exactly the files it should, and whose loop
   ends exactly when it meets no offset twice.
7. **String and table algorithms** (`Escapes`, `TokenLcs`). In-place escape decoding, with what every escape means, and
   the longest common run of two token lists with two table rows.

Where a property fails for some inputs, the model keeps the code as it is and a lemma gives the exact condition. The
points where the code differs from what its comments suggest:

- An opening tag that arrives in pieces is first sent as content, and with inlined reasoning a held-back piece of the
  closing tag already sends a closing tag. So streaming equals the one-shot parse for all texts only if thinking is forced
  open and kept out of the content (`StreamingEqualsBatchForAllTextsExactlyWhen`).
- The comment at `convert_lora_to_gguf.py:97` asks whether the tuple indexing is correct. It is, exactly unless the row or
  the column is indexed with an integer (`TupleCommutesExactlyWhen`). A bare slice of more than two dimensions also
  slices the one leading position of A (`SliceCommutesExactlyWhen`), an ellipsis is expanded by the number of the other
  indices (`EllipsisIsRightForAllExactlyWhen`), and concatenation above two dimensions leaves A too short
  (`CatAbove2ExactlyWhen`).
- The healing marker is looked for in the text only. If an escape spells it in a string of complete input, the string is
  lost and the input called partial (`SpelledMarkerIsCut`, exactly when: `CompleteIsFlaggedExactlyWhen`).
- The cleaner does not pop its path when it stops at a marked string. That is harmless where the marker is the last thing
  in the value. It need not be: a repeated key keeps its first place, so that input cut off in one is healed before its end,
  and a later sibling is looked up at the wrong path (`RepeatedKeyMisroutes`, exactly when: `StackEqualsPureExactlyWhen`).
- The GGML reader computes sizes and offsets in 64 bits with a sign. A record can have a negative size, and a file of 96
  bytes leads the reader back to the same record for ever (`SpinningFileRunsForever`). `LoopEndsExactlyWhen` says for all
  files when the loop ends, and `RecordAdvancesExactlyWhen` which records lead forward.

Run `dafny verify dfyconfig.toml` (Dafny 4.11) in this directory to verify all proofs.

## Model

| member | source | states |
|---|---|---|
| StringUtils.StringStrip | llama.cpp/common/common.cpp:403-413 | the loops return the text between the first and the last character that is no space |
| StringUtils.StripIsTheCore | llama.cpp/common/common.cpp:403-413 | stripping spaces, core, spaces gives the core, if the core is empty or neither begins nor ends with a space |
| StringUtils.StripMonotone | llama.cpp/common/common.cpp:403-413 | stripping a prefix of a text gives a prefix of stripping the text, which streaming relies on |
| StringUtils.FindPartialStop | llama.cpp/common/common.cpp:460-474 | the backward loop finds the longest non-empty suffix of the text that is a prefix of the stop string |
| StringUtils.StringSplit | llama.cpp/common/common.cpp:492-506 | the loop over find gives the parts between the non-overlapping occurrences |
| StringUtils.StringJoin | llama.cpp/common/common.cpp:481-490 | the parts with the separator between them |
| StringUtils.StringReplaceAll | llama.cpp/common/common.cpp:431-446 | replacing equals joining with the replacement what splitting at the search text gives; an empty search changes nothing |
| StringUtils.JoinSplit | llama.cpp/common/common.cpp:481-506 | joining the parts with a non-empty delimiter restores the text |
| StringUtils.SplitPartsAreClean | llama.cpp/common/common.cpp:492-506 | no part contains the delimiter |
| StringUtils.SplitJoin | llama.cpp/common/common.cpp:481-506 | splitting at one character what was joined with it gives back the parts that do not contain it |
| ChatMessage.ComputeDiffs | llama.cpp/common/chat.cpp:85-124 | the vector grown step by step is the list of differences, or the exception |
| ChatMessage.DiffsThrowExactlyWhen | llama.cpp/common/chat.cpp:31-44 | compute_diffs throws exactly when a text neither grew nor shrank, calls vanished, or the last call was renamed or its arguments changed otherwise |
| ChatMessage.FoldOfDiffs | llama.cpp/common/chat.cpp:85-124 | what a client that appends the deltas ends with after one step, for every pair of messages that does not throw |
| ChatMessage.DiffsRebuildExactlyExtensions | llama.cpp/common/chat.cpp:85-124 | the deltas exist and rebuild the new message exactly when it extends the old one |
| ChatMessage.RunRebuildsLast | llama.cpp/common/chat.cpp:85-124 | over a chain of extending messages no step throws and folding all deltas gives the last message |
| ChatMessage.ChatMsg.EnsureToolCallIdsSet | llama.cpp/common/chat.h:47-58 | the message gets the cached ids, and the cache grows by the ids of the new calls, generated where empty |
| ChatMessage.PinnedRunIsStable | llama.cpp/common/chat.h:47-58 | pinning makes every call keep the id it was first given, over a whole run |
| ChatMessage.IdsAndNamesAreSentOnce | llama.cpp/common/chat.cpp:389-413 | over a pinned run every final call's id and name are sent in exactly one delta, and none for other indices |
| ChatParser.ChatMsgParser.MoveTo | llama.cpp/common/chat-parser.h:36-41 | the cursor moves, or the position is refused |
| ChatParser.ChatMsgParser.ConsumeSpaces | llama.cpp/common/chat-parser.cpp:76-84 | the cursor moves past all spaces |
| ChatParser.ChatMsgParser.TryConsumeLiteral | llama.cpp/common/chat-parser.cpp:86-99 | true and past the literal exactly if it stands at the cursor |
| ChatParser.ChatMsgParser.TryFindLiteral | llama.cpp/common/chat-parser.cpp:101-123 | the text before the first occurrence, or on partial input before the longest partial stop at or after the cursor |
| ChatParser.ChatMsgParser.ConsumeRest | llama.cpp/common/chat-parser.cpp:168-172 | the rest of the input, and the cursor at its end |
| ChatParser.ChatMsgParser.TryParseReasoning | llama.cpp/common/chat-parser.cpp:131-166 | the new content, reasoning and cursor as a function of the old ones |
| ChatParser.ChatParse | llama.cpp/common/chat.cpp:1934-1949 | for content only, DeepSeek R1 and Hermes 2 Pro without tools: the parse never raises, and is the message of the format |
| ChatParser.ParseThinkingFormat | llama.cpp/common/chat.cpp:1271-1276 | reasoning first, then the rest as content |
| ChatResults.WithoutThought | llama.cpp/common/chat-parser.cpp:131-166 | all text is content where no thinking is looked for or none is opened |
| ChatResults.ClosedThought | llama.cpp/common/chat-parser.cpp:131-166 | of a closed thought, stripped of its spaces, and the content behind further spaces: the message, for partial and complete input and all flags |
| ChatResults.UnclosedThought | llama.cpp/common/chat-parser.cpp:154-157 | in complete input all the rest is the thought, and its tag is closed |
| ChatResults.OpenThought | llama.cpp/common/chat-parser.cpp:154-157 | in partial input it is left open |
| ChatResults.HeldBackThought | llama.cpp/common/chat-parser.cpp:111-121 | a beginning of the closing tag at the end is held back, and the thought is closed at once |
| ChatResults.ThoughtIsHandled | llama.cpp/common/chat-parser.cpp:132-147 | for any tags: an empty thought changes nothing, another is kept apart or written between tags, which for DeepSeek are always the same |
| ChatResults.ReasoningIsParsedExactlyWhen | llama.cpp/common/chat-parser.cpp:148-166 | the result is true exactly if thinking is looked for and opened, and otherwise nothing changes |
| ChatParser.EmittedIsKept | llama.cpp/common/chat-parser.cpp:101-123 | outside the blind spot, what is emitted for a partial input is a prefix of what is emitted for every longer one |
| ChatParser.HoldBackIsSafeExactlyWhen | llama.cpp/common/chat-parser.cpp:111-121 | that holds for every longer input exactly outside the blind spot: a longer partial stop that starts before the cursor hides a shorter one after it |
| ChatParser.HoldBackFromStart | llama.cpp/common/chat-parser.cpp:101-123 | from the start of the text there is no blind spot |
| ChatParser.NoBlindSpotWithoutOverlap | llama.cpp/common/chat-parser.cpp:101-123 | nor is there one for a literal whose first character does not come again in it |
| ChatParser.ClosingTagsHaveNoBlindSpot | llama.cpp/common/chat-parser.cpp:131-149 | so the one caller of try_find_literal, with the tags it is given in chat.cpp, never meets it |
| ChatParser.BlindSpotExists | llama.cpp/common/chat-parser.cpp:111-121 | an input in the blind spot, and a longer one that does not keep what was emitted |
| ChatParser.HoldBackIsTight | llama.cpp/common/common.cpp:460-474 | some longer input ends its prelude exactly where the hold-back begins, so no more could have been emitted |
| Streaming.Slot.UpdateChatMsg | llama.cpp/tools/server/server.cpp:1447-1460 | one step of the server: parse, pin ids, compare; an empty message changes nothing |
| Streaming.SnapshotsExtend | llama.cpp/common/chat-parser.cpp:131-166 | for a safe text, the parse of a longer prefix extends the parse of a shorter one |
| Streaming.StreamingEqualsBatchExactlyWhen | llama.cpp/common/chat-parser.cpp:131-166 | for a text that the model ended, and all flags: every way of cutting it streams without error to the one-shot parse exactly if a condition on the text holds |
| Streaming.PartialStreamIsFaithful | llama.cpp/tools/server/server.cpp:1447-1460 | where the last parse is partial too, because something else ended the text, the same condition is enough unless the last parse shows nothing of what was shown |
| Streaming.StreamingEqualsBatchForAllTextsExactlyWhen | llama.cpp/common/chat.cpp:1623-1628 | whether the last parse is complete or partial, all texts stream faithfully exactly if the format or the reasoning format does no thinking, or thinking is forced open and not inlined |
| Streaming.OtherFlagsBreak | llama.cpp/common/chat-parser.cpp:131-166 | for all other flags, and both ways to end, a text and a way of cutting it that breaks |
| JsonCleaner.Cleaner.Clean | llama.cpp/common/chat-parser.cpp:294-373 | the recursive closure over the captured path and flag is the walk with a stack, in value, stack and flag |
| JsonCleaner.StackEqualsPure | llama.cpp/common/chat-parser.cpp:324-355 | with the marker last, the walk with the shared stack has the value and flag of the walk that passes the path down |
| JsonText.MarkedShows | llama.cpp/vendor/nlohmann/json.hpp:19112-19240 | a marker of digits in a key or string is not lost by escaping: the printed value shows it |
| JsonReader.ValueIsRead | llama.cpp/vendor/nlohmann/json.hpp:18828-19100 | every value printed is read back by a reader written from the grammar of RFC 8259 |
| JsonReader.PrintedDiffer | llama.cpp/vendor/nlohmann/json.hpp:18828-19100 | so no two values are printed alike |
| JsonCleaner.StackCleanIsExact | llama.cpp/common/chat-parser.cpp:294-373 | for every part of a healed value and every stack: no marker survives the walk, and the flag is set exactly if there was one |
| JsonCleaner.CleaningIsExact | llama.cpp/common/chat-parser.cpp:294-381 | so for every value healed as json-partial.h says, wherever its marker is, no marker gets out and the value is called partial |
| JsonCleaner.CompleteIsNotFlagged | llama.cpp/common/chat-parser.cpp:294-381 | complete input, whose markers are empty, is not called partial, unless a bare string is itself the content |
| JsonCleaner.CompleteIsFlaggedExactlyWhen | llama.cpp/common/chat-parser.cpp:294-373 | for all complete input: it is called partial exactly if a key or a string outside the arguments holds the marker that was not in the text, or the content is the bare string |
| JsonExamples.SpelledMarkerIsCut | llama.cpp/common/chat-parser.cpp:15-23 | an example: a string that escapes spell as the marker is lost |
| JsonCleaner.CompleteStringAtContentRootIsErased | llama.cpp/common/chat-parser.cpp:312-323 | that exception: the empty marker is found at once, the string is erased and called partial |
| JsonMeaning.TryConsumeJsonWithDumpedArgs | llama.cpp/common/chat-parser.cpp:260-381 | the whole operation: early results, exceptions, the value and flag of the walk; the value is what the parsed one stands for; under the parser's contract no marker gets out, and only cut-off input is reported partial |
| JsonMeaning.ArgumentsAre | llama.cpp/common/chat-parser.cpp:295-311 | the text at an arguments path is the printed value up to the first dump marker, or nothing if that is a lone quote |
| JsonMeaning.StackMeans | llama.cpp/common/chat-parser.cpp:294-373 | for every value: the walk keeps the fields and items before the marker with their values, dumps what is at an arguments path, and cuts a content string before the marker |
| JsonMeaning.PureMeans | llama.cpp/common/chat-parser.cpp:294-373 | the same for the walk that passes the path down |
| JsonMeaning.PlaceMeans | llama.cpp/common/chat-parser.cpp:294-373 | whatever comes out at a place was at that place of the value, and is it, its dump, or its content |
| JsonMeaning.PlaceIsKept | llama.cpp/common/chat-parser.cpp:324-370 | and in a value without the marker no place is lost |
| JsonMeaning.ArgumentsComeOut | llama.cpp/common/chat-parser.cpp:295-311 | for all input that is not misrouted: at an arguments path stands the string that was there, or the printed value up to the dump marker |
| JsonRouting.StackEqualsPureExactlyWhen | llama.cpp/common/chat-parser.cpp:294-381 | for every healed value the shared stack gives the value of the walk that passes the path down exactly if both raise, or neither does and the keys left on the stack make no difference to which parts are arguments |
| JsonRouting.StackGoes | llama.cpp/common/chat-parser.cpp:324-355 | for every value: when the walk with the shared stack raises, and which stack it leaves |
| JsonRouting.PureComes | llama.cpp/common/chat-parser.cpp:294-373 | for every value: when the walk that passes the path down raises |
| JsonExamples.RepeatedKeyMisroutes | llama.cpp/vendor/nlohmann/json.hpp:19771-19802 | input cut off in a repeated key is healed before its end, and the arguments behind it stay an object, for any keys and arguments |
| JsonExamples.ExampleKeepsPromises | llama.cpp/common/json-partial.h:6-21 | such healed values keep the promises of the parser, with the real printer and with either dump marker |
| JsonExamples.CompleteKeepsPromises | llama.cpp/common/json-partial.h:6-21 | so do complete values |
| JsonExamples.ExampleMisrouted | llama.cpp/common/chat-parser.cpp:336-352 | a family of values that keep the promises and fail the condition, so that the two walks differ |
| JsonExamples.ToolCallMisrouted | llama.cpp/common/chat.cpp:1660 | one of them is a tool call read with the path "arguments" |
| Lora.UnitDenseEntry | llama.cpp/convert_lora_to_gguf.py:121-123 | with unit leading dimensions the product's entries depend on the rows of B and on A only |
| Lora.ReshapeCommutes | llama.cpp/convert_lora_to_gguf.py:129-153 | where reshape and reshaping the product both succeed, they commute; with a rank and columns reshape succeeds exactly when reshaping the product does, to two or more dimensions with the same row size |
| Lora.PermuteCommutes | llama.cpp/convert_lora_to_gguf.py:161-172 | permute succeeds exactly for matrices, or unit leading dimensions and the last dimension in place; and commutes |
| Lora.TransposeCommutes | llama.cpp/convert_lora_to_gguf.py:174-181 | the same for transpose and swapaxes with existing, possibly negative, axes |
| LoraIndexing.TupleCommutesExactlyWhen | llama.cpp/convert_lora_to_gguf.py:75-111 | indexing the factors with a tuple of integers, slices and a list selects from the product exactly if row and column indices are no integers |
| LoraIndexing.SliceCommutesExactlyWhen | llama.cpp/convert_lora_to_gguf.py:70-74 | a bare slice is right for a matrix, and above two dimensions exactly if it keeps A's one leading position or selects nothing |
| LoraIndexing.IntCommutes | llama.cpp/convert_lora_to_gguf.py:65-69 | a bare integer works above two dimensions exactly for A's one position, and is then right |
| LoraEllipsis.EllipsisIsRightExactlyWhen | llama.cpp/convert_lora_to_gguf.py:77-111 | for each adapter: an index with an ellipsis selects from the factors what it means for the product exactly if the other elements are at most half of the dimensions, row and column are no integers, and the expanded index selects the same tensor from the product |
| LoraEllipsis.EllipsisIsRightForAllExactlyWhen | llama.cpp/convert_lora_to_gguf.py:77-111 | and for all adapters of a shape, exactly if the expanded index also picks the same entries of the shape |
| LoraEllipsis.ExpansionIsMeantExactlyWhen | llama.cpp/convert_lora_to_gguf.py:77-93 | when the expansion, padded at the end, is the meant list of indices itself |
| LoraStacking.StackCommutes | llama.cpp/convert_lora_to_gguf.py:197-204 | stacking adapters with any A works exactly for equal factor shapes, and is the stack of the products |
| LoraStacking.CatCommutes | llama.cpp/convert_lora_to_gguf.py:205-220 | concatenating matrices works exactly if all share one A, and is the concatenation of the products |
| LoraStacking.CatAbove2ExactlyWhen | llama.cpp/convert_lora_to_gguf.py:209-213 | above two dimensions concatenation is right exactly for equal ranks and a single adapter, or one row each |
| Relayout.LlamaPermuteThenMerge | llama.cpp/convert_hf_to_gguf.py:2013-2019 | for any head counts, permuting the factors of an adapter succeeds exactly where permuting the product does, and multiplies out to it |
| Relayout.InternLm2SplitThenMerge | llama.cpp/convert_hf_to_gguf.py:4096-4111 | the same for the split of fused weights into query, key and value; rows of another size are refused |
| Relayout.FalconThenMerge | llama.cpp/convert_hf_to_gguf.py:1711-1720 | the same for the Falcon re-layout |
| Relayout.BloomThenMerge | llama.cpp/convert_hf_to_gguf.py:1374-1386 | the same for the Bloom re-layout |
| Relayout.BloomSplitStands | llama.cpp/convert_hf_to_gguf.py:1317-1330 | the same for the identical GPT-NeoX code, keeping the adapter's A |
| RowOrder.LlamaPermuteMovesRows | llama.cpp/convert_hf_to_gguf.py:2013-2019 | every row of the result is a row of the same head, given by a map of row numbers, for any further dimensions |
| RowOrder.SwappedRowUndone | llama.cpp/convert_hf_to_gguf.py:2013-2019 | that map stays in range and has an inverse of its own kind |
| RowOrder.LlamaPermuteUndone | llama.cpp/convert_hf_to_gguf.py:2013-2019 | the inverse reshape-swap gives back the weights |
| RowOrder.FalconMovesRows | llama.cpp/convert_hf_to_gguf.py:1711-1720 | every row of the result is the fused row the map names: query rows of all groups, then key, then value rows |
| RowOrder.BloomMovesRows | llama.cpp/convert_hf_to_gguf.py:1374-1386 | the same for Bloom and GPT-NeoX, each head being a group with one query head |
| RowOrder.InternLm2MovesRows | llama.cpp/convert_hf_to_gguf.py:4096-4111 | every row of the three parts is the fused row its map names: query and key heads permuted, value heads as they are |
| RowNumbers.LlamaPermuteBringsRows | llama.cpp/convert_hf_to_gguf.py:2013-2019 | with the key-value heads if given, and half the rows of a head: row 2x + y of a head comes from row x of its half y |
| RowNumbers.FalconBringsRows | llama.cpp/convert_hf_to_gguf.py:1711-1720 | from the numbers of heads and the hidden size: the fused row of every query, key and value row |
| RowNumbers.BloomBringsRows | llama.cpp/convert_hf_to_gguf.py:1374-1386 | the same for Bloom and GPT-NeoX |
| RowNumbers.InternLm2BringsQueryRows | llama.cpp/convert_hf_to_gguf.py:4083-4105 | the same for the query part, permuted with all heads |
| RowNumbers.InternLm2BringsKeyRows | llama.cpp/convert_hf_to_gguf.py:4083-4106 | for the key part, permuted with the key-value heads |
| RowNumbers.InternLm2BringsValueRows | llama.cpp/convert_hf_to_gguf.py:4083-4107 | and for the value part |
| RelayoutSuccess.LlamaPermuteWorksExactlyWhen | llama.cpp/convert_hf_to_gguf.py:2013-2019 | weights are accepted exactly if there are heads and the rows are whole heads of two halves |
| RelayoutSuccess.FalconWorksExactlyWhen | llama.cpp/convert_hf_to_gguf.py:1711-1720 | exactly if the entries are those of the groups, and the groups share the query heads without a rest |
| RelayoutSuccess.BloomWorksExactlyWhen | llama.cpp/convert_hf_to_gguf.py:1374-1386 | exactly if the entries are those of three parts of all heads |
| RelayoutSuccess.InternLm2WorksExactlyWhen | llama.cpp/convert_hf_to_gguf.py:4083-4107 | exactly if the entries are those of the groups, and query and key rows are whole heads of two halves |
| RelayoutSuccess.InternLm2NeedsHeads | llama.cpp/convert_hf_to_gguf.py:4083-4088 | without heads, or with more key-value heads than heads, a divisor is zero |
| RelayoutSuccess.InternLm2SizesExist | llama.cpp/convert_hf_to_gguf.py:4083-4089 | and otherwise there are such sizes |
| RowOrder.GroupedRowIsBijective | llama.cpp/convert_hf_to_gguf.py:1711-1720 | that map has a two-sided inverse, so no row is lost or repeated |
| Bpe.Encode | llama.cpp/convert_hf_to_gguf.py:2774-2789 | the loops merge the first pair of least rank until none is below the limit |
| Bpe.RunIsMerging | llama.cpp/convert_hf_to_gguf.py:2774-2789 | the result is reached by steps that each join the first pair of least rank, below the limit, and at the end there is no such pair |
| Bpe.MergingIsUnique | llama.cpp/convert_hf_to_gguf.py:2774-2789 | there is only one such sequence of steps |
| Bpe.RunsToExactlyWhen | llama.cpp/convert_hf_to_gguf.py:2774-2789 | so a result is the one of the loops exactly if such steps lead to it |
| Bpe.EncodeIsSound | llama.cpp/convert_hf_to_gguf.py:2774-2789 | the parts concatenate to the token, longer parts are entries below the limit, and no adjacent pair below the limit is left |
| Bpe.RunResumes | llama.cpp/convert_hf_to_gguf.py:2774-2789 | a run with a higher limit, or none, goes on exactly from the result of a run with a lower one |
| Bpe.TwoPartsMakeTheToken | llama.cpp/convert_hf_to_gguf.py:900-906 | if the run limited by a token's own rank leaves two parts, the unlimited run makes the token |
| Bpe.LimitedRunLeavesTwo | llama.cpp/convert_hf_to_gguf.py:904-905 | the limited run of a longer token leaves at least two parts |
| Bpe.ExtractMerges | llama.cpp/convert_hf_to_gguf.py:897-906 | the merge list in the order of the table, or the failed assertion exactly if some longer token does not split in two |
| Bpe.SplitsExactlyWhen | llama.cpp/convert_hf_to_gguf.py:902-905 | the assertion holds of a token exactly if it is a single byte or the steps below its rank end with two parts |
| Bpe.MergesFollowTable | llama.cpp/convert_hf_to_gguf.py:900-906 | the k-th pair is what the steps leave of the k-th longer token of the table |
| Bpe.MergeIsExtracted | llama.cpp/convert_hf_to_gguf.py:900-906 | the list has the merge of every longer token |
| Bpe.ExtractedMakesToken | llama.cpp/convert_hf_to_gguf.py:900-906 | and every pair in it makes a token of the table |
| Bpe.TokensHaveDerivations | llama.cpp/convert_hf_to_gguf.py:900-906 | if all split, the merges extracted derive every token from its bytes with ranks falling along every path |
| Experts.Qwen2MoeModel.ModifyTensors | llama.cpp/convert_hf_to_gguf.py:3333-3366 | one arrival: the new contents of the blocks and the tensors to write, or the exception |
| Experts.Qwen2MoeModel.PrepareTensors | llama.cpp/convert_hf_to_gguf.py:3368-3376 | the whole conversion is the run over the arrivals and the check for experts left over |
| Experts.GatherIs | llama.cpp/convert_hf_to_gguf.py:3347-3364 | gathering succeeds exactly if all tensors of the block are there and stack, and takes out those and no others |
| ExpertStacks.StackHoldsExpert | llama.cpp/convert_hf_to_gguf.py:3347-3364 | every entry of every expert stands at its number in the stack of its weight, and the stacks are down, gate and up |
| ExpertStacks.ExpertIsNamed | llama.cpp/convert_hf_to_gguf.py:3352-3360 | the names of tensors and stacks, with block and expert as decimal numerals |
| ExpertStacks.ExpertsAreNamed | llama.cpp/convert_hf_to_gguf.py:3335 | a tensor is one of an expert exactly if "experts" is somewhere in its name |
| Experts.NameDeterminesExpert | llama.cpp/convert_hf_to_gguf.py:3352 | the formatted name determines expert and weight |
| Experts.RunIsGathering | llama.cpp/convert_hf_to_gguf.py:3333-3366 | for every interleaving of distinct, well-named tensors: the arrival that completes a block writes its three stacks in expert order, the others nothing, and the blocks hold what is incomplete |
| Experts.WrittenOnce | llama.cpp/convert_hf_to_gguf.py:3345-3364 | a complete block is completed by exactly one arrival |
| Experts.RunAccounts | llama.cpp/convert_hf_to_gguf.py:3333-3366 | any run of differently named tensors without an error accounts for every expert tensor: kept, or gathered once with its whole block |
| Experts.ConvertsExactlyWhen | llama.cpp/convert_hf_to_gguf.py:3368-3376 | the conversion succeeds exactly if every block got none, or exactly its experts' tensors in shapes that stack |
| Experts.OrderDoesNotMatter | llama.cpp/convert_hf_to_gguf.py:3333-3376 | in another order of arrival the conversion succeeds exactly if it did, and writes the same tensors equally often |
| Base64.Encode | llama.cpp/common/base64.hpp:80-144 | masks, shifts and padding produce the 24-bit groups of sections 4 and 5 of RFC 4648 |
| Base64.EncodedSize | llama.cpp/common/base64.hpp:338-341 | the encoded length is exactly required_encode_size |
| Base64.AccumulatorIsGroups | llama.cpp/common/base64.hpp:205-233 | accumulating bits gives the whole bytes of the 24-bit groups |
| Base64.Decode | llama.cpp/common/base64.hpp:200-244 | the decoder's bytes or exception, for every alphabet and both behaviours |
| Base64.RoundTrip | llama.cpp/common/base64.hpp:80-244 | decoding with the same alphabet or with detection undoes encoding, for all bytes |
| Base64.DecodedSize | llama.cpp/common/base64.hpp:324-327 | the decoded length never exceeds max_decode_size |
| Base64.DecodedSizeIsReached | llama.cpp/common/base64.hpp:324-327 | and encoded groups of three bytes reach it |
| Base64.AutoIsEither | llama.cpp/common/base64.hpp:344-389 | detection succeeds exactly when the standard or the URL-safe alphabet does, with the same bytes |
| Base64.DecodesExactlyWhen | llama.cpp/common/base64.hpp:200-244 | a text is decoded exactly if what stands before the first padding is of one alphabet, the one asked for or with detection either, and only padding follows unless the decoder is loose |
| Base64.OnlySymbolsAreRead | llama.cpp/common/base64.hpp:344-389 | no other characters are read, and the first one that only one alphabet has decides between them |
| Base64.DecodeInPlace | llama.cpp/common/base64.hpp:294-313 | decoding a buffer over itself gives the bytes of decoding into fresh memory, and leaves what lies behind the text |
| Escapes.ProcessEscapes | llama.cpp/common/common.cpp:611-646 | rewriting the buffer in place is decoding from left to right, for all strings |
| Escapes.UnescapeReadsPieces | llama.cpp/common/common.cpp:615-642 | every text decodes to what its pieces mean: line feed, return, tab, quotes, backslash, bytes with two digits, or one after a sign or space, and kept pairs |
| Escapes.EveryTextIsWritten | llama.cpp/common/common.cpp:615-642 | every text is made of such pieces |
| Escapes.UnescapeEscaped | llama.cpp/common/common.cpp:615-642 | decoding undoes a printer that writes these characters as escapes and any choice of bytes in hexadecimal, for every string |
| Escapes.UnescapeDoubled | llama.cpp/common/common.cpp:616-624 | doubling every backslash of any string and decoding returns it |
| Escapes.UnescapeKeepsExactlyWhen | llama.cpp/common/common.cpp:611-646 | a string is left as it is exactly if no escape starts anywhere in it |
| Escapes.UnescapeShrinks | llama.cpp/common/common.cpp:645 | decoding never makes a string longer |
| TokenLcs.LongestCommonRun | llama.cpp/common/common.cpp:1237-1284 | two reused rows give the exact length of the longest common contiguous run |
| TokenLcs.TableIsRun | llama.cpp/common/common.cpp:1252-1278 | a cell of the full table is the length of a common run that ends there |
| TokenLcs.RunFitsTable | llama.cpp/common/common.cpp:1252-1278 | no common run that ends at a cell is longer than the cell says |
| GgmlLoop.LoopEndsExactlyWhen | llama.cpp/convert_llama_ggml_to_gguf.py:187-194 | for every file the loop ends exactly if it meets no offset twice, and then within two rounds a byte and one more |
| GgmlLoop.ForwardRunEnds | llama.cpp/convert_llama_ggml_to_gguf.py:187-194 | if every record leads forward, it ends within as many rounds as there are bytes |
| GgmlLoop.RecordAdvances | llama.cpp/convert_llama_ggml_to_gguf.py:110-131 | a record whose true size fits in 63 bits leads to the place behind its data, at least 12 bytes on |
| GgmlLoop.RecordAdvancesExactlyWhen | llama.cpp/convert_llama_ggml_to_gguf.py:110-131 | a record leads forward exactly under a condition on the true count of bytes modulo 2^64, the block size and the length of its head, name and padding |
| GgmlLoop.SpinningFileRunsForever | llama.cpp/convert_llama_ggml_to_gguf.py:126-131 | a file of 96 bytes on which the loop has not ended after any number of rounds |
| GgmlLoop.BackwardFileRaises | llama.cpp/convert_llama_ggml_to_gguf.py:126-131 | a file whose record leads before its start, where an exception ends the loop |
| GgmlLoop.TensorsTileExactlyWhen | llama.cpp/convert_llama_ggml_to_gguf.py:187-194 | in every model read, data of GGJT tensors starts at multiples of 32, and tensor data is disjoint, in order and up to the offset returned exactly if no size is negative or too large; it is then all in the file exactly if that offset is its end |
| GgmlFormat.SizeIsRemainder | llama.cpp/convert_llama_ggml_to_gguf.py:126-127 | for all dimensions the computed size is the true count of bytes modulo 2^64, read with a sign, divided by the block size |
| GgmlFormat.SizeIsExact | llama.cpp/convert_llama_ggml_to_gguf.py:126-127 | below 63 bits the computed size is the number of elements times bytes per block, divided by the block size |
| GgmlRoundTrip.RoundTrip | llama.cpp/convert_llama_ggml_to_gguf.py:180-200 | reading what the writer wrote takes one round for each tensor, recovers header, hyperparameters, vocabulary, names, dimensions and types, and ends at the end of the file |
| GgmlRoundTrip.RoundTripData | llama.cpp/convert_llama_ggml_to_gguf.py:124-131 | and every tensor's bytes are at the place recorded for it |
| GgmlRefusals.ReadRaisesExactlyWhen | llama.cpp/convert_llama_ggml_to_gguf.py:84-200 | for every file that can be written: reading raises exactly if version, file type, their pair, a vocabulary item, a tensor record or the feed-forward tensor is refused, and is done otherwise |
| GgmlRefusals.ConvertibleExactlyWhen | llama.cpp/convert_llama_ggml_to_gguf.py:168-178 | the pairs of version and file type that are refused, number by number |
| GgmlRefusals.FeedForwardExactlyWhen | llama.cpp/convert_llama_ggml_to_gguf.py:53-57 | the size is found exactly if the last tensor with the name has two dimensions, and is the second |
| GgmlRefusals.FeedForwardIsSecond | llama.cpp/convert_llama_ggml_to_gguf.py:53-57 | so it is in every model that is read |
| GgmlRefusals.OtherMagicRaises | llama.cpp/convert_llama_ggml_to_gguf.py:145-166 | nothing is read that does not begin with one of the three magics |
| GgmlRefusals.ConstantsAreSpelled | llama.cpp/convert_llama_ggml_to_gguf.py:54-163 | the magics and the name, spelled out |
| GgmlReader.Hyperparameters.Load | llama.cpp/convert_llama_ggml_to_gguf.py:59-73 | the fields read, or an error exactly when data is short or the file type unknown |
| GgmlReader.Vocab.Load | llama.cpp/convert_llama_ggml_to_gguf.py:84-98 | the items appended in order and the bytes consumed |
| GgmlReader.GgmlTensor.Load | llama.cpp/convert_llama_ggml_to_gguf.py:110-131 | name, dimensions, type, start and size of a record at any offset, also one before the file, and where the next one starts |
| GgmlReader.GgmlModel.ValidateHeader | llama.cpp/convert_llama_ggml_to_gguf.py:145-166 | format and version for the magics and versions accepted, an error for all others |
| GgmlReader.GgmlModel.LoadTensors | llama.cpp/convert_llama_ggml_to_gguf.py:187-194 | so many rounds of the loop end, raise or go on as the offsets say; the tensors read are listed, with the index of the last one of each name |
| GgmlReader.GgmlModel.Load | llama.cpp/convert_llama_ggml_to_gguf.py:180-200 | the object holds exactly what the format says is in the file, or the read raises or goes on exactly when the format says so |

## Left out

- Tool calls in chat formats: the formats driven by regular expressions, grammars and templates; `common_regex` is not part of this model.
- The JSON parser (`common_json_parse`): what `json-partial.h` promises of its result is the hypothesis `ParserContract`, which `ExampleKeepsPromises` and `CompleteKeepsPromises` show to be met; that it also heals to containers only, with the marker once, is read off `json-partial.cpp:150-248`. The marker is chosen not to be in the text; that the value does not show it more often, for instance by an escaped digit, is part of the hypothesis, and `CompleteIsFlaggedExactlyWhen` says what happens to complete input otherwise.
- JSON text as bytes: strings are sequences of characters, and the exception of the printer for invalid UTF-8 is not modelled. Numbers keep their text.
- The random healing marker, and the generator of tool-call ids: the first is any non-empty row of digits, the second a function of the position.
- Streaming.StreamingEqualsBatchExactlyWhen: is about texts that the model ended; for a single text whose last parse is partial, `PartialStreamIsFaithful` gives a sufficient condition only. The condition on the flags is exact for both.
- ChatMessage.ComputeDiffs: role, content parts and tool name are not compared by the source and are not in the modelled message.
- The server around `update_chat_msg`: stop words, token batches and the conversion of deltas to JSON.
- Two lists in one tensor index, slices with a step, several ellipses, and several -1 in one reshape of factors: torch refuses them, or no converter uses them.
- Rounding of tensor entries: entries are reals, and sums in any order are equal.
- Biases in the re-layouts (one dimension): an adapter has no factored biases.
- Experts.Qwen2MoeModel.ModifyTensors: does not describe the blocks after an exception, which ends the conversion; nor the mapping of merged names to output names.
- The texts of most error messages: an error is an error.
- GgmlReader.GgmlModel.LoadTensors: takes the number of rounds as an argument, because the loop of the source need not end; a run that is not over by then is `Running`.
- GgmlRoundTrip.RoundTrip: is about files smaller than 2^63 bytes.
- Scores of vocabulary items are kept as their four bytes, not as floats; the conversion of a loaded model to GGUF is not modelled.
- `common_lcp`, `parse_cpu_mask`, `regex_escape` and the other helpers of `common.cpp`: short and without a property across functions.
- Merges as text (`token_bytes_to_string`): a merge is a pair of byte strings.
