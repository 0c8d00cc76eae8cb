/**
 * Byte-pair encoding as the Qwen converter runs it to recover the merge list from a table of token ranks: from single
 * bytes, always merge the adjacent pair of least rank.
 */
module Bpe {
  import opened StringUtils

  type Bytes = seq<bv8>
  type Ranks = map<Bytes, nat>

  function Singles(token: Bytes): (parts: seq<Bytes>)
    ensures |parts| == |token| && forall i :: 0 <= i < |parts| ==> parts[i] == [token[i]]
  {
    seq(|token|, i requires 0 <= i < |token| => [token[i]])
  }

  predicate Pair(ranks: Ranks, parts: seq<Bytes>, i: nat) {
    i + 1 < |parts| && parts[i] + parts[i + 1] in ranks
  }

  function RankAt(ranks: Ranks, parts: seq<Bytes>, i: nat): nat
    requires Pair(ranks, parts, i)
  {
    ranks[parts[i] + parts[i + 1]]
  }

  /** Pair `i` has the least rank, and is the first with it, among those below `n`. */
  predicate IsLeast(ranks: Ranks, parts: seq<Bytes>, n: nat, i: nat) {
    && i < n && Pair(ranks, parts, i)
    && forall j: nat :: j < n && Pair(ranks, parts, j) ==>
         RankAt(ranks, parts, i) <= RankAt(ranks, parts, j) && (j < i ==> RankAt(ranks, parts, i) < RankAt(ranks, parts, j))
  }

  /** The pair to merge next, if there is one below `n`. */
  function LeastPair(ranks: Ranks, parts: seq<Bytes>, n: nat := |parts|): (r: Option<nat>)
    ensures r.None? ==> forall j: nat :: j < n ==> !Pair(ranks, parts, j)
    ensures r.Some? ==> IsLeast(ranks, parts, n, r.value)
  {
    if n == 0 then None
    else
      var before := LeastPair(ranks, parts, n - 1);
      if !Pair(ranks, parts, n - 1) then before
      else if before.Some? && RankAt(ranks, parts, before.value) <= RankAt(ranks, parts, n - 1) then before
      else Some(n - 1)
  }

  function Merge(parts: seq<Bytes>, i: nat): (r: seq<Bytes>)
    requires i + 1 < |parts|
    ensures |r| == |parts| - 1
  {
    parts[..i] + [parts[i] + parts[i + 1]] + parts[i + 2..]
  }

  predicate Below(rank: nat, limit: Option<nat>) {
    limit.None? || rank < limit.value
  }

  /** Merging until no pair has a rank below the limit. */
  function Run(ranks: Ranks, parts: seq<Bytes>, limit: Option<nat>): (r: seq<Bytes>)
    decreases |parts|
  {
    var next := LeastPair(ranks, parts);
    if next.None? || !Below(RankAt(ranks, parts, next.value), limit) then parts
    else Run(ranks, Merge(parts, next.value), limit)
  }

  method Encode(ranks: Ranks, token: Bytes, maxRank: Option<nat>) returns (parts: seq<Bytes>)
    ensures parts == Run(ranks, Singles(token), maxRank)
    ensures MergesTo(ranks, Singles(token), maxRank, parts)
  {
    RunsToExactlyWhen(ranks, Singles(token), maxRank, Run(ranks, Singles(token), maxRank));
    parts := Singles(token);
    while true
      invariant Run(ranks, parts, maxRank) == Run(ranks, Singles(token), maxRank)
      decreases |parts|
    {
      var minIdx: Option<nat> := None;
      var minRank: Option<nat> := None;
      for i := 0 to |parts|
        invariant minIdx == LeastPair(ranks, parts, i)
        invariant minRank == if minIdx.Some? then Some(RankAt(ranks, parts, minIdx.value)) else None
      {
        if i + 1 < |parts| && parts[i] + parts[i + 1] in ranks {
          var rank := ranks[parts[i] + parts[i + 1]];
          if minRank.None? || rank < minRank.value {
            minIdx, minRank := Some(i), Some(rank);
          }
        }
      }
      if minRank.None? || (maxRank.Some? && minRank.value >= maxRank.value) {
        break;
      }
      parts := Merge(parts, minIdx.value);
    }
  }

  // ----- soundness -----

  function Flatten(parts: seq<Bytes>): Bytes {
    if parts == [] then [] else parts[0] + Flatten(parts[1..])
  }

  lemma {:induction false} FlattenSingles(token: Bytes)
    ensures Flatten(Singles(token)) == token
  {
    if token != [] {
      assert Singles(token)[1..] == Singles(token[1..]);
      FlattenSingles(token[1..]);
    }
  }

  lemma FlattenShort(parts: seq<Bytes>)
    ensures |parts| == 1 ==> Flatten(parts) == parts[0]
    ensures |parts| == 2 ==> Flatten(parts) == parts[0] + parts[1]
  {
    if |parts| == 2 {
      assert parts[1..][1..] == [] && Flatten(parts[1..]) == parts[1] + [];
    }
  }

  lemma {:induction false} FlattenMerge(parts: seq<Bytes>, i: nat)
    requires i + 1 < |parts|
    ensures Flatten(Merge(parts, i)) == Flatten(parts)
  {
    var r := Merge(parts, i);
    if i == 0 {
      assert r[1..] == parts[2..] && parts[1..][1..] == parts[2..];
      Assoc(parts[0], parts[1], Flatten(parts[2..]));
    } else {
      assert r[1..] == Merge(parts[1..], i - 1);
      FlattenMerge(parts[1..], i - 1);
    }
  }

  /** A part is a single byte, or a vocabulary entry of rank below the limit. */
  predicate Known(ranks: Ranks, part: Bytes, limit: Option<nat>) {
    |part| == 1 || (|part| > 1 && part in ranks && Below(ranks[part], limit))
  }

  predicate AllKnown(ranks: Ranks, parts: seq<Bytes>, limit: Option<nat>) {
    forall i :: 0 <= i < |parts| ==> Known(ranks, parts[i], limit)
  }

  ghost predicate Finished(ranks: Ranks, parts: seq<Bytes>, limit: Option<nat>) {
    forall i: nat :: Pair(ranks, parts, i) ==> !Below(RankAt(ranks, parts, i), limit)
  }

  /** A run keeps the bytes, uses only entries below the limit, and stops only when no pair is left below it. */
  lemma {:induction false} RunIsSound(ranks: Ranks, parts: seq<Bytes>, limit: Option<nat>)
    requires AllKnown(ranks, parts, limit)
    ensures var r := Run(ranks, parts, limit);
            Flatten(r) == Flatten(parts) && AllKnown(ranks, r, limit) && Finished(ranks, r, limit)
    decreases |parts|
  {
    var next := LeastPair(ranks, parts);
    if next.Some? && Below(RankAt(ranks, parts, next.value), limit) {
      FlattenMerge(parts, next.value);
      RunIsSound(ranks, Merge(parts, next.value), limit);
    }
  }

  lemma EncodeIsSound(ranks: Ranks, token: Bytes, limit: Option<nat>)
    ensures var r := Run(ranks, Singles(token), limit);
            Flatten(r) == token && AllKnown(ranks, r, limit) && Finished(ranks, r, limit)
  {
    FlattenSingles(token);
    RunIsSound(ranks, Singles(token), limit);
  }

  // ----- what a run does, step by step -----

  /** The pair at i is in the table, and no pair has a lower rank, nor one before it the same. */
  ghost predicate IsFirstLeast(ranks: Ranks, parts: seq<Bytes>, i: nat) {
    && i + 1 < |parts| && parts[i] + parts[i + 1] in ranks
    && forall j :: 0 <= j < |parts| - 1 && parts[j] + parts[j + 1] in ranks ==>
         var least, rank := ranks[parts[i] + parts[i + 1]], ranks[parts[j] + parts[j + 1]];
         least <= rank && (j < i ==> least < rank)
  }

  /** The other parts stay as they are, in order. */
  ghost predicate IsJoined(parts: seq<Bytes>, next: seq<Bytes>, i: nat)
    requires i + 1 < |parts|
  {
    && |next| == |parts| - 1 && next[i] == parts[i] + parts[i + 1]
    && (forall j :: 0 <= j < i ==> next[j] == parts[j])
    && (forall j :: i < j < |next| ==> next[j] == parts[j + 1])
  }

  ghost predicate IsStepAt(ranks: Ranks, parts: seq<Bytes>, next: seq<Bytes>, limit: Option<nat>, i: nat) {
    && IsFirstLeast(ranks, parts, i) && IsJoined(parts, next, i)
    && (limit.Some? ==> ranks[parts[i] + parts[i + 1]] < limit.value)
  }

  ghost predicate IsStep(ranks: Ranks, parts: seq<Bytes>, next: seq<Bytes>, limit: Option<nat>) {
    exists i: nat :: IsStepAt(ranks, parts, next, limit, i)
  }

  /** No two parts that follow each other make an entry below the limit. */
  ghost predicate IsAtEnd(ranks: Ranks, parts: seq<Bytes>, limit: Option<nat>) {
    forall j :: 0 <= j < |parts| - 1 && parts[j] + parts[j + 1] in ranks ==>
      limit.Some? && ranks[parts[j] + parts[j + 1]] >= limit.value
  }

  /** Lists of parts, each made from the one before by a step, to the end. */
  ghost predicate IsMerging(ranks: Ranks, lists: seq<seq<Bytes>>, limit: Option<nat>) {
    && lists != [] && IsAtEnd(ranks, lists[|lists| - 1], limit)
    && forall k :: 0 <= k < |lists| - 1 ==> IsStep(ranks, lists[k], lists[k + 1], limit)
  }

  ghost predicate Merging(ranks: Ranks, from: seq<Bytes>, limit: Option<nat>, lists: seq<seq<Bytes>>, to: seq<Bytes>) {
    IsMerging(ranks, lists, limit) && lists[0] == from && lists[|lists| - 1] == to
  }

  ghost predicate MergesTo(ranks: Ranks, from: seq<Bytes>, limit: Option<nat>, to: seq<Bytes>) {
    exists lists :: Merging(ranks, from, limit, lists, to)
  }

  /** A run ends where such a merging leads. */
  lemma {:induction false} RunIsMerging(ranks: Ranks, parts: seq<Bytes>, limit: Option<nat>) returns (lists: seq<seq<Bytes>>)
    ensures Merging(ranks, parts, limit, lists, Run(ranks, parts, limit))
    decreases |parts|
  {
    var next := LeastPair(ranks, parts);
    if next.Some? && Below(RankAt(ranks, parts, next.value), limit) {
      var joined := Merge(parts, next.value);
      var rest := RunIsMerging(ranks, joined, limit);
      PairsAre(ranks, parts, next.value);
      assert IsStepAt(ranks, parts, joined, limit, next.value);
      lists := [parts] + rest;
    } else {
      NoPairBelow(ranks, parts, limit);
      lists := [parts];
    }
  }

  lemma PairsAre(ranks: Ranks, parts: seq<Bytes>, i: nat)
    requires IsLeast(ranks, parts, |parts|, i)
    ensures IsFirstLeast(ranks, parts, i)
  {
    forall j | 0 <= j < |parts| - 1 && parts[j] + parts[j + 1] in ranks
      ensures RankAt(ranks, parts, i) <= ranks[parts[j] + parts[j + 1]]
      ensures j < i ==> RankAt(ranks, parts, i) < ranks[parts[j] + parts[j + 1]]
    {
      assert Pair(ranks, parts, j);
    }
  }

  lemma NoPairBelow(ranks: Ranks, parts: seq<Bytes>, limit: Option<nat>)
    requires var next := LeastPair(ranks, parts); next.None? || !Below(RankAt(ranks, parts, next.value), limit)
    ensures IsAtEnd(ranks, parts, limit)
  {
    forall j | 0 <= j < |parts| - 1 && parts[j] + parts[j + 1] in ranks
      ensures limit.Some? && ranks[parts[j] + parts[j + 1]] >= limit.value
    {
      assert Pair(ranks, parts, j);
    }
  }

  lemma StepIsUnique(ranks: Ranks, parts: seq<Bytes>, next: seq<Bytes>, other: seq<Bytes>, limit: Option<nat>)
    requires IsStep(ranks, parts, next, limit) && IsStep(ranks, parts, other, limit)
    ensures next == other && !IsAtEnd(ranks, parts, limit)
  {
    var i: nat :| IsStepAt(ranks, parts, next, limit, i);
    var k: nat :| IsStepAt(ranks, parts, other, limit, k);
    assert i == k;
    assert parts[i] + parts[i + 1] in ranks;
  }

  /** There is only one merging from a list of parts. */
  lemma {:induction false} MergingIsUnique(ranks: Ranks, limit: Option<nat>, lists: seq<seq<Bytes>>, others: seq<seq<Bytes>>)
    requires IsMerging(ranks, lists, limit) && IsMerging(ranks, others, limit) && lists[0] == others[0]
    ensures lists == others
    decreases |lists|
  {
    if |lists| > 1 && |others| > 1 {
      StepIsUnique(ranks, lists[0], lists[1], others[1], limit);
      MergingIsUnique(ranks, limit, lists[1..], others[1..]);
      assert lists == [lists[0]] + lists[1..] && others == [others[0]] + others[1..];
    } else if |lists| > 1 {
      StepIsUnique(ranks, lists[0], lists[1], lists[1], limit);
    } else if |others| > 1 {
      StepIsUnique(ranks, others[0], others[1], others[1], limit);
    }
  }

  /** So the merging determines the result: a run ends with these parts exactly if a merging leads to them. */
  lemma RunsToExactlyWhen(ranks: Ranks, parts: seq<Bytes>, limit: Option<nat>, r: seq<Bytes>)
    ensures Run(ranks, parts, limit) == r <==> MergesTo(ranks, parts, limit, r)
  {
    var lists := RunIsMerging(ranks, parts, limit);
    if others :| Merging(ranks, parts, limit, others, r) {
      MergingIsUnique(ranks, limit, lists, others);
    }
  }

  // ----- limited and unlimited runs -----

  /** A run with a limit is the beginning of a run with a higher one, or none: that run goes on from its result. */
  lemma {:induction false} RunResumes(ranks: Ranks, parts: seq<Bytes>, lower: nat, upper: Option<nat>)
    requires upper.Some? ==> lower <= upper.value
    ensures Run(ranks, Run(ranks, parts, Some(lower)), upper) == Run(ranks, parts, upper)
    decreases |parts|
  {
    var next := LeastPair(ranks, parts);
    if next.Some? && Below(RankAt(ranks, parts, next.value), Some(lower)) {
      RunResumes(ranks, Merge(parts, next.value), lower, upper);
    }
  }

  /** If the run limited by a token's own rank leaves two parts, the unlimited run makes the token from its bytes. */
  lemma TwoPartsMakeTheToken(ranks: Ranks, token: Bytes)
    requires token in ranks && |Run(ranks, Singles(token), Some(ranks[token]))| == 2
    ensures Run(ranks, Singles(token), None) == [token]
  {
    var r := Run(ranks, Singles(token), Some(ranks[token]));
    EncodeIsSound(ranks, token, Some(ranks[token]));
    FlattenShort(r);
    assert Pair(ranks, r, 0) && LeastPair(ranks, r) == Some(0);
    assert Merge(r, 0) == [token];
    RunResumes(ranks, Singles(token), ranks[token], None);
  }

  /** The limited run never makes the token itself, so a longer token is left in two parts or more. */
  lemma LimitedRunLeavesTwo(ranks: Ranks, token: Bytes)
    requires token in ranks && |token| >= 2
    ensures |Run(ranks, Singles(token), Some(ranks[token]))| >= 2
  {
    var r := Run(ranks, Singles(token), Some(ranks[token]));
    EncodeIsSound(ranks, token, Some(ranks[token]));
    FlattenShort(r);
    assert |r| > 0 ==> Known(ranks, r[0], Some(ranks[token]));
  }

  // ----- the merge list -----

  datatype Extraction = Merges(pairs: seq<(Bytes, Bytes)>) | AssertionFails

  predicate Splits(ranks: Ranks, token: Bytes) {
    token in ranks && (|token| == 1 || |Run(ranks, Singles(token), Some(ranks[token]))| == 2)
  }

  /** Merging the bytes of the token below its rank ends with two parts. */
  ghost predicate MergesToTwo(ranks: Ranks, token: Bytes)
    requires token in ranks
  {
    exists a, b :: MergesTo(ranks, Singles(token), Some(ranks[token]), [a, b])
  }

  lemma SplitsExactlyWhen(ranks: Ranks, token: Bytes)
    requires token in ranks
    ensures Splits(ranks, token) <==> |token| == 1 || MergesToTwo(ranks, token)
  {
    var limit := Some(ranks[token]);
    var r := Run(ranks, Singles(token), limit);
    if |r| == 2 {
      RunsToExactlyWhen(ranks, Singles(token), limit, [r[0], r[1]]);
      assert r == [r[0], r[1]];
    }
    forall a, b | MergesTo(ranks, Singles(token), limit, [a, b]) ensures r == [a, b] {
      RunsToExactlyWhen(ranks, Singles(token), limit, [a, b]);
    }
  }

  /** The merge of one token: the two parts its own rank leaves. */
  function MergeOf(ranks: Ranks, token: Bytes): (Bytes, Bytes)
    requires Splits(ranks, token) && |token| != 1
  {
    var r := Run(ranks, Singles(token), Some(ranks[token]));
    (r[0], r[1])
  }

  function MergesOf(ranks: Ranks, tokens: seq<Bytes>): seq<(Bytes, Bytes)>
    requires forall t :: t in tokens ==> Splits(ranks, t)
  {
    if tokens == [] then []
    else
      var n := |tokens| - 1;
      MergesOf(ranks, tokens[..n]) + if |tokens[n]| == 1 then [] else [MergeOf(ranks, tokens[n])]
  }

  /** The tokens of the table that are not a single byte, in its order. */
  function LongTokens(tokens: seq<Bytes>): seq<Bytes> {
    if tokens == [] then [] else (if |tokens[0]| == 1 then [] else [tokens[0]]) + LongTokens(tokens[1..])
  }

  /** The k-th pair is what merging the bytes of the k-th token leaves below the rank of the token. */
  ghost predicate FollowsTable(ranks: Ranks, long: seq<Bytes>, pairs: seq<(Bytes, Bytes)>, k: nat)
    requires k < |long| == |pairs|
  {
    && long[k] in ranks && pairs[k].0 + pairs[k].1 == long[k]
    && MergesTo(ranks, Singles(long[k]), Some(ranks[long[k]]), [pairs[k].0, pairs[k].1])
  }

  ghost predicate FollowTable(ranks: Ranks, long: seq<Bytes>, pairs: seq<(Bytes, Bytes)>) {
    |pairs| == |long| && forall k: nat :: k < |long| ==> FollowsTable(ranks, long, pairs, k)
  }

  lemma {:induction false} LongTokensSnoc(tokens: seq<Bytes>, token: Bytes)
    ensures LongTokens(tokens + [token]) == LongTokens(tokens) + if |token| == 1 then [] else [token]
    decreases |tokens|
  {
    var all := tokens + [token];
    if tokens == [] {
      assert all[1..] == [] && LongTokens([]) == [];
    } else {
      assert all[1..] == tokens[1..] + [token];
      LongTokensSnoc(tokens[1..], token);
      Assoc(if |tokens[0]| == 1 then [] else [tokens[0]], LongTokens(tokens[1..]), if |token| == 1 then [] else [token]);
    }
  }

  /** There is a pair for every longer token, in the order of the table. */
  lemma {:induction false} MergesFollowTable(ranks: Ranks, tokens: seq<Bytes>)
    requires forall t :: t in tokens ==> Splits(ranks, t)
    ensures FollowTable(ranks, LongTokens(tokens), MergesOf(ranks, tokens))
    decreases |tokens|
  {
    if tokens != [] {
      var n := |tokens| - 1;
      MergesFollowTable(ranks, tokens[..n]);
      LongTokensSnoc(tokens[..n], tokens[n]);
      assert tokens == tokens[..n] + [tokens[n]];
      if |tokens[n]| != 1 {
        LastFollows(ranks, LongTokens(tokens[..n]), MergesOf(ranks, tokens[..n]), tokens[n]);
      } else {
        var long, pairs := LongTokens(tokens[..n]), MergesOf(ranks, tokens[..n]);
        assert long + [] == long && pairs + [] == pairs;
      }
    }
  }

  lemma LastFollows(ranks: Ranks, long: seq<Bytes>, pairs: seq<(Bytes, Bytes)>, token: Bytes)
    requires FollowTable(ranks, long, pairs) && Splits(ranks, token) && |token| != 1
    ensures FollowTable(ranks, long + [token], pairs + [MergeOf(ranks, token)])
  {
    var pair, limit := MergeOf(ranks, token), Some(ranks[token]);
    MergeOfIs(ranks, token);
    RunsToExactlyWhen(ranks, Singles(token), limit, [pair.0, pair.1]);
    forall k: nat | k < |long| + 1 ensures FollowsTable(ranks, long + [token], pairs + [pair], k) {
      if k < |long| {
        assert FollowsTable(ranks, long, pairs, k);
      }
    }
  }

  predicate AllSplit(ranks: Ranks, tokens: seq<Bytes>) {
    forall t :: t in tokens ==> Splits(ranks, t)
  }

  ghost predicate AllMergeToTwo(ranks: Ranks, tokens: seq<Bytes>)
    requires forall t :: t in tokens ==> t in ranks
  {
    forall t :: t in tokens ==> |t| == 1 || MergesToTwo(ranks, t)
  }

  lemma ExtractsExactlyWhen(ranks: Ranks, tokens: seq<Bytes>)
    requires forall t :: t in tokens ==> t in ranks
    ensures AllSplit(ranks, tokens) <==> AllMergeToTwo(ranks, tokens)
    ensures AllSplit(ranks, tokens) ==> FollowTable(ranks, LongTokens(tokens), MergesOf(ranks, tokens))
  {
    forall t | t in tokens ensures Splits(ranks, t) <==> |t| == 1 || MergesToTwo(ranks, t) {
      SplitsExactlyWhen(ranks, t);
    }
    if AllSplit(ranks, tokens) {
      MergesFollowTable(ranks, tokens);
    }
  }

  /** The loop over the table, `tokens` being its keys in order; the source asserts that every longer token splits in two. */
  method ExtractMerges(ranks: Ranks, tokens: seq<Bytes>) returns (r: Extraction)
    requires forall t :: t in tokens ==> t in ranks
    ensures r.Merges? <==> AllSplit(ranks, tokens)
    ensures r.Merges? <==> AllMergeToTwo(ranks, tokens)
    ensures r.Merges? ==> r.pairs == MergesOf(ranks, tokens)
    ensures r.Merges? ==> FollowTable(ranks, LongTokens(tokens), r.pairs)
  {
    ExtractsExactlyWhen(ranks, tokens);
    var merges: seq<(Bytes, Bytes)> := [];
    for i := 0 to |tokens|
      invariant AllSplit(ranks, tokens[..i])
      invariant merges == MergesOf(ranks, tokens[..i])
    {
      var token := tokens[i];
      assert tokens[..i + 1] == tokens[..i] + [token];
      assert tokens[..i + 1][..i] == tokens[..i];
      if |token| != 1 {
        var merged := Encode(ranks, token, Some(ranks[token]));
        if |merged| != 2 {
          assert token in tokens && !Splits(ranks, token);
          return AssertionFails;
        }
        merges := merges + [(merged[0], merged[1])];
      }
    }
    assert tokens[..|tokens|] == tokens;
    return Merges(merges);
  }

  // ----- derivations -----

  datatype Tree = Leaf(byte: bv8) | Node(left: Tree, right: Tree)

  function Yield(t: Tree): Bytes {
    match t
    case Leaf(b) => [b]
    case Node(l, r) => Yield(l) + Yield(r)
  }

  /** Every inner node makes a vocabulary entry, of higher rank than the entries it is made of. */
  predicate Descends(ranks: Ranks, t: Tree) {
    match t
    case Leaf(_) => true
    case Node(l, r) =>
      && Yield(t) in ranks
      && Known(ranks, Yield(l), Some(ranks[Yield(t)])) && Known(ranks, Yield(r), Some(ranks[Yield(t)]))
      && Descends(ranks, l) && Descends(ranks, r)
  }

  /** Every inner node is one of the extracted merges. */
  predicate UsesMerges(merges: seq<(Bytes, Bytes)>, t: Tree) {
    match t
    case Leaf(_) => true
    case Node(l, r) => (Yield(l), Yield(r)) in merges && UsesMerges(merges, l) && UsesMerges(merges, r)
  }

  lemma MergeOfIs(ranks: Ranks, token: Bytes)
    requires Splits(ranks, token) && |token| != 1
    ensures var (a, b) := MergeOf(ranks, token);
            a + b == token && Known(ranks, a, Some(ranks[token])) && Known(ranks, b, Some(ranks[token]))
  {
    var r := Run(ranks, Singles(token), Some(ranks[token]));
    EncodeIsSound(ranks, token, Some(ranks[token]));
    FlattenShort(r);
  }

  /** The list has the merge of every longer token. */
  lemma {:induction false} MergeIsExtracted(ranks: Ranks, tokens: seq<Bytes>, token: Bytes)
    requires (forall t :: t in tokens ==> Splits(ranks, t)) && token in tokens && |token| != 1
    ensures MergeOf(ranks, token) in MergesOf(ranks, tokens)
    decreases |tokens|
  {
    var n := |tokens| - 1;
    if tokens[n] != token {
      assert token in tokens[..n];
      MergeIsExtracted(ranks, tokens[..n], token);
    }
  }

  /** And no others: every pair makes a token of the table. */
  lemma {:induction false} ExtractedMakesToken(ranks: Ranks, tokens: seq<Bytes>, pair: (Bytes, Bytes))
    requires (forall t :: t in tokens ==> Splits(ranks, t)) && pair in MergesOf(ranks, tokens)
    ensures pair.0 + pair.1 in tokens
    decreases |tokens|
  {
    var n := |tokens| - 1;
    if pair in MergesOf(ranks, tokens[..n]) {
      ExtractedMakesToken(ranks, tokens[..n], pair);
    } else {
      MergeOfIs(ranks, tokens[n]);
    }
  }

  /**
   * When every token of the table splits, the pairs extracted from it derive each token from its bytes, with ranks falling
   * along every path.
   */
  lemma {:induction false} TokensHaveDerivations(ranks: Ranks, tokens: seq<Bytes>, token: Bytes) returns (t: Tree)
    requires forall t :: t in ranks <==> t in tokens
    requires forall t :: t in tokens ==> Splits(ranks, t)
    requires |token| == 1 || token in ranks
    ensures Yield(t) == token && Descends(ranks, t) && UsesMerges(MergesOf(ranks, tokens), t)
    decreases |token|
  {
    if |token| == 1 {
      t := Leaf(token[0]);
    } else {
      MergeOfIs(ranks, token);
      MergeIsExtracted(ranks, tokens, token);
      var (a, b) := MergeOf(ranks, token);
      var l := TokensHaveDerivations(ranks, tokens, a);
      var r := TokensHaveDerivations(ranks, tokens, b);
      t := Node(l, r);
    }
  }
}
