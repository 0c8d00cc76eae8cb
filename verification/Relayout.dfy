/**
 * The weight re-layouts of the model converters. The converters run the same code on plain weights and on the factors
 * of an adapter; here too each re-layout is written once, over either. The main results: converting an adapter and then
 * multiplying its factors gives what converting the product gives.
 */
module Relayout {
  import opened StringUtils
  import opened Tensors
  import opened Lora
  import opened LoraIndexing
  import opened LoraStacking

  type Adapter = l: Lora | Constructed(l) witness Lora(Tensor([0, 0], []), Tensor([0, 0], []))

  datatype Weights = Plain(t: Tensor) | Factored(l: Adapter)

  // ----- the tensor operations, on either kind -----

  function ShapeOf(w: Weights): Shape {
    match w
    case Plain(t) => t.shape
    case Factored(l) => LoraShape(l)
  }

  function OfTensor(t: Option<Tensor>): Option<Weights> {
    match t
    case None => None
    case Some(t) => Some(Plain(t))
  }

  function OfLora(l: Option<Lora>): Option<Weights> {
    match l
    case None => None
    case Some(l) => if Constructed(l) then Some(Factored(l)) else None
  }

  function Reshaped(w: Weights, args: seq<int>): Option<Weights> {
    match w
    case Plain(t) => OfTensor(TorchReshape(t, args))
    case Factored(l) => OfLora(LoraReshape(l, args))
  }

  function SwapAxes(w: Weights, axis0: int, axis1: int): Option<Weights> {
    match w
    case Plain(t) => OfTensor(TorchTranspose(t, axis0, axis1))
    case Factored(l) => OfLora(LoraTranspose(l, axis0, axis1))
  }

  function Indexed(w: Weights, ixs: seq<Ix>): Option<Weights> {
    match w
    case Plain(t) => OfTensor(TorchIndex(t, ixs))
    case Factored(l) => OfLora(LoraTuple(l, ixs))
  }

  /** torch.cat along the first dimension. */
  function Concatenated(a: Weights, b: Weights, c: Weights): Option<Weights> {
    if a.Plain? && b.Plain? && c.Plain? then OfTensor(Cat([a.t, b.t, c.t]))
    else if a.Factored? && b.Factored? && c.Factored? then OfLora(LoraCat([a.l, b.l, c.l]))
    else None
  }

  // ----- the re-layouts -----

  function HeadsOf(heads: nat, kvHeads: Option<nat>): nat {
    if kvHeads.Some? && heads != kvHeads.value then kvHeads.value else heads
  }

  function HalfHead(rows: nat, heads: nat): nat
    requires heads > 0
  {
    rows / heads / 2
  }

  /** LlamaModel.permute: within each head, rows of the two halves are interleaved. */
  function LlamaPermute(w: Weights, heads: nat, kvHeads: Option<nat>): Option<Weights> {
    var n := HeadsOf(heads, kvHeads);
    if ShapeOf(w) == [] || n == 0 then None else SwapWithin(w, n, 2, HalfHead(ShapeOf(w)[0], n))
  }

  function SplitRows(n: nat, m: nat, k: nat, shape: Shape): Shape
    requires shape != []
  {
    [n, m, k] + shape[1..]
  }

  /** Reads the rows as n heads of m parts of k rows, and takes the parts' rows in turn. */
  function SwapWithin(w: Weights, n: nat, m: nat, k: nat): Option<Weights>
    requires ShapeOf(w) != []
  {
    var split :- Reshaped(w, SplitRows(n, m, k, ShapeOf(w)));
    var swapped :- SwapAxes(split, 1, 2);
    Reshaped(swapped, ShapeOf(w))
  }

  function LastOf(shape: Shape): nat {
    if shape == [] then 0 else shape[|shape| - 1]
  }

  /** All rows of the last dimension, one after the other. */
  function AsRows(w: Weights): Option<Weights> {
    var args: seq<int> := [-1, LastOf(ShapeOf(w)) as int];
    Reshaped(w, args)
  }

  // InternLM2: the fused weights hold, for each group, its query heads, one key head and one value head.

  function InternLm2Query(qkv: Weights, heads: nat, perKv: nat): Option<Weights> {
    var q :- Indexed(qkv, [ALL, Slice(None, Some(perKv))]);
    var rows :- AsRows(q);
    LlamaPermute(rows, heads, Some(heads))
  }

  function InternLm2Key(qkv: Weights, heads: nat, kvHeads: nat): Option<Weights> {
    var k :- Indexed(qkv, [ALL, Int(-2)]);
    var rows :- AsRows(k);
    LlamaPermute(rows, heads, Some(kvHeads))
  }

  function InternLm2Value(qkv: Weights): Option<Weights> {
    var v :- Indexed(qkv, [ALL, Int(-1)]);
    AsRows(v)
  }

  function Triple(a: Option<Weights>, b: Option<Weights>, c: Option<Weights>): Option<(Weights, Weights, Weights)> {
    if a.Some? && b.Some? && c.Some? then Some((a.value, b.value, c.value)) else None
  }

  /** Groups of some query heads, a key head and a value head. */
  function GroupArgs(groups: nat, per: nat, dim: nat, cols: nat): (args: seq<int>)
    ensures |args| == 4 && args[3] == cols && OneWildcard(args)
  {
    [groups, per + 2, dim, cols]
  }

  function InternLm2Parts(w: Weights, groups: nat, perKv: nat, dim: nat, embd: nat, heads: nat, kvHeads: nat):
      Option<(Weights, Weights, Weights)> {
    var qkv :- Reshaped(w, GroupArgs(groups, perKv, dim, embd));
    Triple(InternLm2Query(qkv, heads, perKv), InternLm2Key(qkv, heads, kvHeads), InternLm2Value(qkv))
  }

  datatype GroupSizes = GroupSizes(groups: nat, perKv: nat, dim: nat)

  /** The number of groups, query heads in each, and rows of a head; a zero divisor is an exception. */
  function InternLm2Sizes(heads: nat, kvHeads: nat, embd: nat): Option<GroupSizes> {
    if heads == 0 || kvHeads == 0 || heads / kvHeads == 0 then None
    else Some(GroupSizes(heads / (heads / kvHeads), heads / kvHeads, embd / heads))
  }

  function InternLm2Split(w: Weights, heads: nat, kvHeads: nat, embd: nat): Option<(Weights, Weights, Weights)> {
    var s :- InternLm2Sizes(heads, kvHeads, embd);
    InternLm2Parts(w, s.groups, s.perKv, s.dim, embd, heads, kvHeads)
  }

  // Falcon: the same layout, rearranged to all query, then all key, then all value heads.

  function FalconPart(qkv: Weights, ix: Ix, rows: nat, cols: nat): Option<Weights> {
    var part :- Indexed(qkv, [ALL, ix]);
    Reshaped(part, [rows, cols])
  }

  /** With the group size, head size and numbers of rows and columns computed. */
  function FalconRearranged(w: Weights, groups: nat, per: nat, dim: nat, queryRows: nat, keyRows: nat, cols: nat):
      Option<Weights> {
    var qkv :- Reshaped(w, GroupArgs(groups, per, dim, cols));
    var rows :- FalconRows(qkv, queryRows, keyRows, cols);
    Reshaped(rows, ShapeOf(w))
  }

  function FalconRows(qkv: Weights, queryRows: nat, keyRows: nat, cols: nat): Option<Weights> {
    var q :- FalconPart(qkv, Slice(None, Some(-2)), queryRows, cols);
    var k :- FalconPart(qkv, List([-2]), keyRows, cols);
    var v :- FalconPart(qkv, List([-1]), keyRows, cols);
    Concatenated(q, k, v)
  }

  datatype FalconSizes = FalconSizes(per: nat, dim: nat, queryRows: nat, keyRows: nat, cols: nat)

  /** Query heads in a group, rows of a head, and the rows and columns of the parts; a zero divisor is an exception. */
  function FalconSizesOf(heads: nat, kvHeads: nat, hidden: nat): Option<FalconSizes> {
    if heads == 0 || kvHeads == 0 then None
    else
      var dim := hidden / heads;
      Some(FalconSizes(heads / kvHeads, dim, Times(heads, dim), Times(kvHeads, dim), Times(dim, heads)))
  }

  function FalconQkv(w: Weights, heads: nat, kvHeads: nat, hidden: nat): Option<Weights> {
    var s :- FalconSizesOf(heads, kvHeads, hidden);
    FalconRearranged(w, kvHeads, s.per, s.dim, s.queryRows, s.keyRows, s.cols)
  }

  // Bloom and GPT-NeoX: the fused weights hold query, key and value of each head in turn.

  function BloomPart(qkv: Weights, part: nat, embd: nat): Option<Weights> {
    var x :- Indexed(qkv, [ALL, Int(part), ALL, ALL]);
    var args: seq<int> := [-1, embd as int];
    Reshaped(x, args)
  }

  function BloomSplit(w: Weights, heads: nat, dim: nat, embd: nat): Option<Weights> {
    var qkv :- Reshaped(w, [heads, 3, dim, embd]);
    BloomRows(qkv, embd)
  }

  function BloomRows(qkv: Weights, embd: nat): Option<Weights> {
    var q :- BloomPart(qkv, 0, embd);
    var k :- BloomPart(qkv, 1, embd);
    var v :- BloomPart(qkv, 2, embd);
    Concatenated(q, k, v)
  }

  function BloomQkv(w: Weights, heads: nat, embd: nat): Option<Weights> {
    if heads == 0 then None else BloomSplit(w, heads, embd / heads, embd)
  }

  // ----- what each operation keeps -----

  /** An adapter as the training tools write them, with at least one rank and one column. */
  predicate Usual(l: Lora) {
    UnitLead(l) && Rank(l) > 0 && Cols(l) > 0
  }

  /** `w` is made from the adapter `base`, still has its A, and stands for the plain weights `p`. */
  ghost predicate Stands(base: Lora, w: Weights, p: Weights)
    requires Usual(base)
  {
    && w.Factored? && p.Plain?
    && UnitLead(w.l) && Dense(w.l) == p.t
    && Rank(w.l) == Rank(base) && Cols(w.l) == Cols(base) && w.l.A.data == base.A.data
  }

  /** Both succeed or neither does. */
  ghost predicate StandTogether(base: Lora, w: Option<Weights>, p: Option<Weights>)
    requires Usual(base)
  {
    (w.Some? <==> p.Some?) && (p.Some? ==> w.Some? && Stands(base, w.value, p.value))
  }

  ghost predicate Merged(w: Weights, p: Weights) {
    w.Factored? && p == Plain(Dense(w.l))
  }

  /** The factors can be converted exactly where the plain weights can, and their product is the converted plain weights. */
  ghost predicate MergedTogether(w: Option<Weights>, p: Option<Weights>) {
    (w.Some? <==> p.Some?) && (p.Some? ==> w.Some? && Merged(w.value, p.value))
  }

  lemma ResolvedAt(size: nat, args: seq<int>, i: nat)
    requires ResolveShape(size, args).Some? && i < |args| && args[i] >= 0
    ensures |ResolveShape(size, args).value| == |args| && ResolveShape(size, args).value[i] == args[i]
  {
  }

  lemma ReshapeStands(base: Lora, w: Weights, p: Weights, args: seq<int>)
    requires Usual(base) && Stands(base, w, p) && OneWildcard(args) && |args| >= 2 && args[|args| - 1] == Cols(base)
    ensures StandTogether(base, Reshaped(w, args), Reshaped(p, args))
    ensures Reshaped(p, args).Some? ==> |ShapeOf(Reshaped(p, args).value)| == |args|
  {
    ReshapeCommutes(w.l, args);
    if TorchReshape(p.t, args).Some? {
      ResolvedAt(Prod(p.t.shape), args, |args| - 1);
    }
    if LoraReshape(w.l, args).Some? {
      ReshapeKeepsA(w.l, args);
    }
  }

  lemma ReshapeKeepsA(l: Lora, args: seq<int>)
    requires UnitLead(l) && LoraReshape(l, args).Some?
    ensures var r := LoraReshape(l, args).value; Rank(r) == Rank(l) && Cols(r) == Cols(l) && r.A.data == l.A.data
  {
  }

  /** An adapter cannot be reshaped to rows of another size. */
  lemma OtherRowSize(l: Adapter, args: seq<int>)
    requires |args| >= 2 && args[|args| - 1] >= 0 && args[|args| - 1] != Cols(l)
    ensures Reshaped(Factored(l), args).None?
  {
    var resolved := ResolveShape(Prod(LoraShape(l)), args);
    if resolved.Some? {
      ResolvedAt(Prod(LoraShape(l)), args, |args| - 1);
    }
  }

  lemma SwapKeepsA(l: Lora, d0: int, d1: int)
    requires UnitLead(l) && SwappedDims(Dims(l), d0, d1).Some? && LoraTranspose(l, d0, d1).Some?
    requires SwappedDims(Dims(l), d0, d1).value[Dims(l) - 1] == Dims(l) - 1
    ensures LoraTranspose(l, d0, d1).value.A == l.A
  {
    SwapIsPermutation(Dims(l), d0, d1);
    var dims := SwappedDims(Dims(l), d0, d1).value;
    KindForExistingDims(dims, Dims(l), dims, true);
  }

  /** Swapping two middle dimensions of at least four. */
  lemma SwapStands(base: Lora, w: Weights, p: Weights)
    requires Usual(base) && Stands(base, w, p) && |ShapeOf(p)| >= 4
    ensures SwapAxes(w, 1, 2).Some? && SwapAxes(p, 1, 2).Some?
    ensures Stands(base, SwapAxes(w, 1, 2).value, SwapAxes(p, 1, 2).value)
  {
    TransposeCommutes(w.l, 1, 2);
    SwapKeepsA(w.l, 1, 2);
  }

  // indexing keeps the entries of A

  lemma SelectedAKeepsData(A: Tensor, l: Lora, m: Lora, picks: seq<Pick>)
    requires UnitLead(l) && UnitLead(m) && m.A == A && |picks| == Dims(l)
    requires picks[Dims(l) - 1] == Full(Cols(l)) && IsSelected(A, l.A, PicksA(picks, Rank(l)))
    requires Dims(m) == |PickedShape(picks[..Dims(l) - 2])| + 2 && Rank(m) == Rank(l) && Cols(m) == Cols(l)
    ensures A.data == l.A.data
  {
    UnitShape(l);
    UnitShape(m);
    forall i | 0 <= i < |A.data| ensures A.data[i] == l.A.data[i] {
      var k, c := EntryNumber(A.data, Rank(l), Cols(l), i);
      SameEntryOfA(A, l, m, picks, k, c);
    }
  }

  lemma SameEntryOfA(A: Tensor, l: Lora, m: Lora, picks: seq<Pick>, k: nat, c: nat)
    requires UnitLead(l) && UnitLead(m) && m.A == A && |picks| == Dims(l)
    requires picks[Dims(l) - 1] == Full(Cols(l)) && IsSelected(A, l.A, PicksA(picks, Rank(l)))
    requires Dims(m) == |PickedShape(picks[..Dims(l) - 2])| + 2 && Rank(m) == Rank(l) && Cols(m) == Cols(l)
    requires k < Rank(l) && c < Cols(l)
    ensures Entry(A.data, Cols(l), k, c) == Entry(l.A.data, Cols(l), k, c)
  {
    EntryOfA(A, l.A, picks, Rank(l), k, c);
    UnitAt(l, k, c);
    UnitAt(m, k, c);
    assert Full(Cols(l)).positions[c] == c;
  }

  lemma UnitAt(l: Lora, k: nat, c: nat)
    requires UnitLead(l) && k < Rank(l) && c < Cols(l)
    ensures At(l.A, Zeros(Dims(l) - 2) + [k] + [c]) == Entry(l.A.data, Cols(l), k, c)
  {
    var u := Zeros(Dims(l) - 1);
    UnitEntryOfA(l, u, k, c);
    assert LeadInA(l.A.shape, u) == Zeros(Dims(l) - 2);
    assert Zeros(Dims(l) - 2) + [k, c] == Zeros(Dims(l) - 2) + [k] + [c];
  }

  lemma SelectKeepsA(l: Lora, ixs: seq<Ix>)
    requires UnitLead(l) && |ixs| == Dims(l) && SelectBy(Dense(l), ixs).Some?
    requires !ixs[Dims(l) - 2].Int? && ixs[Dims(l) - 1] == ALL
    ensures LoraSelect(l, ixs).Some? && UnitLead(LoraSelect(l, ixs).value)
    ensures var r := LoraSelect(l, ixs).value; Rank(r) == Rank(l) && Cols(r) == Cols(l) && r.A.data == l.A.data
  {
    var picks, n := Picks(LoraShape(l), ixs).value, Dims(l);
    PicksAt(LoraShape(l), ixs, n - 1);
    KeptExactlyWhen(ixs, LoraShape(l), picks, n - 2);
    var A, B := FactorSelections(l, ixs, picks);
    SelectByIs(Dense(l), ixs, picks);
    SelectedShapes(l, A, B, SelectBy(Dense(l), ixs).value, picks);
    SelectedAKeepsData(A, l, Lora(A, B), picks);
  }

  lemma IndexStands(base: Lora, w: Weights, p: Weights, ixs: seq<Ix>)
    requires Usual(base) && Stands(base, w, p) && 0 < |ixs| <= |ShapeOf(p)|
    requires !Pad(ixs, |ShapeOf(p)|)[|ShapeOf(p)| - 2].Int? && Pad(ixs, |ShapeOf(p)|)[|ShapeOf(p)| - 1] == ALL
    ensures StandTogether(base, Indexed(w, ixs), Indexed(p, ixs))
  {
    if TorchIndex(p.t, ixs).Some? {
      IndexStandsHere(base, w.l, p.t, ixs);
    } else if LoraTuple(w.l, ixs).Some? {
      TupleFailsWithProduct(w.l, ixs);
    }
  }

  lemma IndexStandsHere(base: Lora, l: Lora, t: Tensor, ixs: seq<Ix>)
    requires Usual(base) && UnitLead(l) && Dense(l) == t && 0 < |ixs| <= |t.shape| && TorchIndex(t, ixs).Some?
    requires Rank(l) == Rank(base) && Cols(l) == Cols(base) && l.A.data == base.A.data
    requires !Pad(ixs, |t.shape|)[|t.shape| - 2].Int? && Pad(ixs, |t.shape|)[|t.shape| - 1] == ALL
    ensures LoraTuple(l, ixs).Some?
    ensures Stands(base, Factored(LoraTuple(l, ixs).value), Plain(TorchIndex(t, ixs).value))
  {
    TupleCommutesExactlyWhen(l, ixs, TorchIndex(t, ixs).value);
    SelectKeepsA(l, Pad(ixs, Dims(l)));
  }

  /** Two-dimensional weights made from one adapter have one A, so they can be concatenated. */
  lemma SameAdapterSameA(base: Lora, w: Weights, p: Weights)
    requires Usual(base) && Stands(base, w, p) && |ShapeOf(p)| == 2
    ensures w.l.A.shape == [Rank(base), Cols(base)] && w.l.A == Tensor([Rank(base), Cols(base)], base.A.data)
  {
  }

  lemma CatOfOneA(a: Lora, b: Lora, c: Lora)
    requires UnitLead(a) && UnitLead(b) && UnitLead(c) && Dims(a) == 2 && a.A == b.A == c.A
    ensures var r, d := LoraCat([a, b, c]), Cat([Dense(a), Dense(b), Dense(c)]);
            && r.Some? && UnitLead(r.value) && d == Some(Dense(r.value))
            && r.value.A == a.A
  {
    CatCommutes([a, b, c], [Dense(a), Dense(b), Dense(c)]);
  }

  lemma CatStands(base: Lora, wa: Weights, pa: Weights, wb: Weights, pb: Weights, wc: Weights, pc: Weights)
    requires Usual(base) && Stands(base, wa, pa) && Stands(base, wb, pb) && Stands(base, wc, pc)
    requires |ShapeOf(pa)| == |ShapeOf(pb)| == |ShapeOf(pc)| == 2
    ensures Concatenated(wa, wb, wc).Some? && Concatenated(pa, pb, pc).Some?
    ensures Stands(base, Concatenated(wa, wb, wc).value, Concatenated(pa, pb, pc).value)
  {
    SameAdapterSameA(base, wa, pa);
    SameAdapterSameA(base, wb, pb);
    SameAdapterSameA(base, wc, pc);
    CatOfOneA(wa.l, wb.l, wc.l);
    var r := LoraCat([wa.l, wb.l, wc.l]).value;
    ConcatenatedIs(wa.l, wb.l, wc.l, r);
    StandsByA(base, r);
  }

  lemma ConcatenatedIs(a: Adapter, b: Adapter, c: Adapter, r: Lora)
    requires LoraCat([a, b, c]) == Some(r) && Constructed(r) && Cat([Dense(a), Dense(b), Dense(c)]) == Some(Dense(r))
    ensures Concatenated(Factored(a), Factored(b), Factored(c)) == Some(Factored(r))
    ensures Concatenated(Plain(Dense(a)), Plain(Dense(b)), Plain(Dense(c))) == Some(Plain(Dense(r)))
  {
  }

  lemma StandsByA(base: Lora, r: Lora)
    requires Usual(base) && UnitLead(r) && r.A == Tensor([Rank(base), Cols(base)], base.A.data)
    ensures Stands(base, Factored(r), Plain(Dense(r)))
  {
  }

  // ----- converting an adapter and merging is merging and converting -----

  lemma StandsShape(base: Lora, w: Weights, p: Weights)
    requires Usual(base) && Stands(base, w, p)
    ensures ShapeOf(w) == ShapeOf(p) && |ShapeOf(p)| >= 2 && LastOf(ShapeOf(p)) == Cols(base)
  {
  }

  lemma SplitRowsShape(n: nat, m: nat, k: nat, shape: Shape)
    requires |shape| >= 2
    ensures |SplitRows(n, m, k, shape)| == |shape| + 2 && LastOf(SplitRows(n, m, k, shape)) == LastOf(shape)
  {
  }

  lemma SwapWithinStands(base: Lora, w: Weights, p: Weights, n: nat, m: nat, k: nat)
    requires Usual(base) && Stands(base, w, p) && ShapeOf(w) == ShapeOf(p) != []
    ensures StandTogether(base, SwapWithin(w, n, m, k), SwapWithin(p, n, m, k))
  {
    var args := SplitRows(n, m, k, ShapeOf(p));
    StandsShape(base, w, p);
    SplitRowsShape(n, m, k, ShapeOf(p));
    ReshapeStands(base, w, p, args);
    if Reshaped(p, args).Some? {
      var w1, p1 := Reshaped(w, args).value, Reshaped(p, args).value;
      SwapStands(base, w1, p1);
      ReshapeStands(base, SwapAxes(w1, 1, 2).value, SwapAxes(p1, 1, 2).value, ShapeOf(p));
    }
  }

  lemma LlamaPermuteStands(base: Lora, w: Weights, p: Weights, heads: nat, kvHeads: Option<nat>)
    requires Usual(base) && Stands(base, w, p)
    ensures StandTogether(base, LlamaPermute(w, heads, kvHeads), LlamaPermute(p, heads, kvHeads))
  {
    var n := HeadsOf(heads, kvHeads);
    StandsShape(base, w, p);
    if n > 0 {
      SwapWithinStands(base, w, p, n, 2, HalfHead(ShapeOf(p)[0], n));
    }
  }

  lemma AsRowsStands(base: Lora, w: Weights, p: Weights)
    requires Usual(base) && Stands(base, w, p)
    ensures StandTogether(base, AsRows(w), AsRows(p))
  {
    StandsShape(base, w, p);
    ReshapeStands(base, w, p, [-1, LastOf(ShapeOf(p)) as int]);
  }

  /** The parts the InternLM2 split and the Falcon re-layout take out of fused weights of four dimensions. */
  lemma PartStands(base: Lora, w: Weights, p: Weights, ix: Ix)
    requires Usual(base) && Stands(base, w, p) && |ShapeOf(p)| == 4
    ensures StandTogether(base, Indexed(w, [ALL, ix]), Indexed(p, [ALL, ix]))
  {
    assert Pad([ALL, ix], 4) == [ALL, ix, ALL, ALL];
    IndexStands(base, w, p, [ALL, ix]);
  }

  /** LlamaModel.permute of an adapter is LlamaModel.permute of its product. */
  lemma LlamaPermuteThenMerge(l: Adapter, heads: nat, kvHeads: Option<nat>)
    requires Usual(l)
    ensures MergedTogether(LlamaPermute(Factored(l), heads, kvHeads), LlamaPermute(Plain(Dense(l)), heads, kvHeads))
  {
    LlamaPermuteStands(l, Factored(l), Plain(Dense(l)), heads, kvHeads);
  }

  lemma QueryStands(base: Lora, w: Weights, p: Weights, heads: nat, perKv: nat)
    requires Usual(base) && Stands(base, w, p) && |ShapeOf(p)| == 4
    ensures StandTogether(base, InternLm2Query(w, heads, perKv), InternLm2Query(p, heads, perKv))
  {
    var ixs := [ALL, Slice(None, Some(perKv))];
    PartStands(base, w, p, ixs[1]);
    if Indexed(p, ixs).Some? {
      var qw, qp := Indexed(w, ixs).value, Indexed(p, ixs).value;
      AsRowsStands(base, qw, qp);
      if AsRows(qp).Some? {
        LlamaPermuteStands(base, AsRows(qw).value, AsRows(qp).value, heads, Some(heads));
      }
    }
  }

  lemma KeyStands(base: Lora, w: Weights, p: Weights, heads: nat, kvHeads: nat)
    requires Usual(base) && Stands(base, w, p) && |ShapeOf(p)| == 4
    ensures StandTogether(base, InternLm2Key(w, heads, kvHeads), InternLm2Key(p, heads, kvHeads))
  {
    var ixs := [ALL, Int(-2)];
    PartStands(base, w, p, ixs[1]);
    if Indexed(p, ixs).Some? {
      var kw, kp := Indexed(w, ixs).value, Indexed(p, ixs).value;
      AsRowsStands(base, kw, kp);
      if AsRows(kp).Some? {
        LlamaPermuteStands(base, AsRows(kw).value, AsRows(kp).value, heads, Some(kvHeads));
      }
    }
  }

  lemma ValueStands(base: Lora, w: Weights, p: Weights)
    requires Usual(base) && Stands(base, w, p) && |ShapeOf(p)| == 4
    ensures StandTogether(base, InternLm2Value(w), InternLm2Value(p))
  {
    PartStands(base, w, p, Int(-1));
    if Indexed(p, [ALL, Int(-1)]).Some? {
      AsRowsStands(base, Indexed(w, [ALL, Int(-1)]).value, Indexed(p, [ALL, Int(-1)]).value);
    }
  }

  ghost predicate AllMerged(w: Option<(Weights, Weights, Weights)>, p: Option<(Weights, Weights, Weights)>) {
    && (w.Some? <==> p.Some?)
    && (p.Some? ==>
          w.Some? && Merged(w.value.0, p.value.0) && Merged(w.value.1, p.value.1) && Merged(w.value.2, p.value.2))
  }

  lemma TripleMerged(base: Lora, wa: Option<Weights>, pa: Option<Weights>, wb: Option<Weights>, pb: Option<Weights>,
                     wc: Option<Weights>, pc: Option<Weights>)
    requires Usual(base) && StandTogether(base, wa, pa) && StandTogether(base, wb, pb) && StandTogether(base, wc, pc)
    ensures AllMerged(Triple(wa, wb, wc), Triple(pa, pb, pc))
  {
  }

  lemma InternLm2PartsMerged(base: Lora, w: Weights, p: Weights, groups: nat, perKv: nat, dim: nat, heads: nat, kvHeads: nat)
    requires Usual(base) && Stands(base, w, p)
    ensures AllMerged(InternLm2Parts(w, groups, perKv, dim, Cols(base), heads, kvHeads),
                      InternLm2Parts(p, groups, perKv, dim, Cols(base), heads, kvHeads))
  {
    var args := GroupArgs(groups, perKv, dim, Cols(base));
    ReshapeStands(base, w, p, args);
    if Reshaped(p, args).Some? {
      var w1, p1 := Reshaped(w, args).value, Reshaped(p, args).value;
      QueryStands(base, w1, p1, heads, perKv);
      KeyStands(base, w1, p1, heads, kvHeads);
      ValueStands(base, w1, p1);
      TripleMerged(base, InternLm2Query(w1, heads, perKv), InternLm2Query(p1, heads, perKv),
                   InternLm2Key(w1, heads, kvHeads), InternLm2Key(p1, heads, kvHeads), InternLm2Value(w1), InternLm2Value(p1));
    }
  }

  lemma InternLm2OtherRowSize(l: Adapter, s: GroupSizes, heads: nat, kvHeads: nat, embd: nat)
    requires embd != Cols(l)
    ensures InternLm2Parts(Factored(l), s.groups, s.perKv, s.dim, embd, heads, kvHeads).None?
  {
    OtherRowSize(l, GroupArgs(s.groups, s.perKv, s.dim, embd));
  }

  lemma InternLm2PartsThenMerge(l: Adapter, s: GroupSizes, heads: nat, kvHeads: nat, embd: nat)
    requires Usual(l)
    ensures var f := InternLm2Parts(Factored(l), s.groups, s.perKv, s.dim, embd, heads, kvHeads);
            if embd != Cols(l) then f.None?
            else AllMerged(f, InternLm2Parts(Plain(Dense(l)), s.groups, s.perKv, s.dim, embd, heads, kvHeads))
  {
    if embd == Cols(l) {
      InternLm2PartsMerged(l, Factored(l), Plain(Dense(l)), s.groups, s.perKv, s.dim, heads, kvHeads);
    } else {
      InternLm2OtherRowSize(l, s, heads, kvHeads, embd);
    }
  }

  /** The InternLM2 split of an adapter is the InternLM2 split of its product, where its rows have the embedding's size. */
  lemma InternLm2SplitThenMerge(l: Adapter, heads: nat, kvHeads: nat, embd: nat)
    requires Usual(l)
    ensures var f := InternLm2Split(Factored(l), heads, kvHeads, embd);
            if embd != Cols(l) then f.None?
            else AllMerged(f, InternLm2Split(Plain(Dense(l)), heads, kvHeads, embd))
  {
    var sizes := InternLm2Sizes(heads, kvHeads, embd);
    if sizes.Some? {
      InternLm2PartsThenMerge(l, sizes.value, heads, kvHeads, embd);
    }
  }

  lemma FalconPartStands(base: Lora, w: Weights, p: Weights, ix: Ix, rows: nat)
    requires Usual(base) && Stands(base, w, p) && |ShapeOf(p)| == 4
    ensures StandTogether(base, FalconPart(w, ix, rows, Cols(base)), FalconPart(p, ix, rows, Cols(base)))
    ensures FalconPart(p, ix, rows, Cols(base)).Some? ==> |ShapeOf(FalconPart(p, ix, rows, Cols(base)).value)| == 2
  {
    PartStands(base, w, p, ix);
    if Indexed(p, [ALL, ix]).Some? {
      ReshapeStands(base, Indexed(w, [ALL, ix]).value, Indexed(p, [ALL, ix]).value, [rows, Cols(base)]);
    }
  }

  predicate IsMatrix(p: Option<Weights>) {
    p.Some? ==> |ShapeOf(p.value)| == 2
  }

  function JoinedParts(a: Option<Weights>, b: Option<Weights>, c: Option<Weights>): Option<Weights> {
    var q :- a;
    var k :- b;
    var v :- c;
    Concatenated(q, k, v)
  }

  lemma PartsTogether(base: Lora, wa: Option<Weights>, pa: Option<Weights>, wb: Option<Weights>, pb: Option<Weights>,
                      wc: Option<Weights>, pc: Option<Weights>)
    requires Usual(base) && StandTogether(base, wa, pa) && StandTogether(base, wb, pb) && StandTogether(base, wc, pc)
    requires IsMatrix(pa) && IsMatrix(pb) && IsMatrix(pc)
    ensures StandTogether(base, JoinedParts(wa, wb, wc), JoinedParts(pa, pb, pc))
  {
    if pa.Some? && pb.Some? && pc.Some? {
      CatStands(base, wa.value, pa.value, wb.value, pb.value, wc.value, pc.value);
    }
  }

  lemma FalconRowsStands(base: Lora, w: Weights, p: Weights, queryRows: nat, keyRows: nat)
    requires Usual(base) && Stands(base, w, p) && |ShapeOf(p)| == 4
    ensures StandTogether(base, FalconRows(w, queryRows, keyRows, Cols(base)), FalconRows(p, queryRows, keyRows, Cols(base)))
  {
    var cols := Cols(base);
    FalconPartStands(base, w, p, Slice(None, Some(-2)), queryRows);
    FalconPartStands(base, w, p, List([-2]), keyRows);
    FalconPartStands(base, w, p, List([-1]), keyRows);
    PartsTogether(base, FalconPart(w, Slice(None, Some(-2)), queryRows, cols),
                  FalconPart(p, Slice(None, Some(-2)), queryRows, cols),
                  FalconPart(w, List([-2]), keyRows, cols), FalconPart(p, List([-2]), keyRows, cols),
                  FalconPart(w, List([-1]), keyRows, cols), FalconPart(p, List([-1]), keyRows, cols));
  }

  lemma FalconRearrangedStands(base: Lora, w: Weights, p: Weights, groups: nat, per: nat, dim: nat, queryRows: nat, keyRows: nat)
    requires Usual(base) && Stands(base, w, p)
    ensures StandTogether(base, FalconRearranged(w, groups, per, dim, queryRows, keyRows, Cols(base)),
                         FalconRearranged(p, groups, per, dim, queryRows, keyRows, Cols(base)))
  {
    var cols := Cols(base);
    var args := GroupArgs(groups, per, dim, cols);
    ReshapeStands(base, w, p, args);
    if Reshaped(p, args).Some? {
      var w1, p1 := Reshaped(w, args).value, Reshaped(p, args).value;
      FalconRowsStands(base, w1, p1, queryRows, keyRows);
      StandsShape(base, w, p);
      if FalconRows(p1, queryRows, keyRows, cols).Some? {
        ReshapeStands(base, FalconRows(w1, queryRows, keyRows, cols).value, FalconRows(p1, queryRows, keyRows, cols).value, ShapeOf(p));
      }
    }
  }

  lemma FalconRearrangedThenMerge(l: Adapter, groups: nat, s: FalconSizes)
    requires Usual(l)
    ensures var f := FalconRearranged(Factored(l), groups, s.per, s.dim, s.queryRows, s.keyRows, s.cols);
            if s.cols != Cols(l) then f.None?
            else MergedTogether(f, FalconRearranged(Plain(Dense(l)), groups, s.per, s.dim, s.queryRows, s.keyRows, s.cols))
  {
    if s.cols == Cols(l) {
      FalconRearrangedStands(l, Factored(l), Plain(Dense(l)), groups, s.per, s.dim, s.queryRows, s.keyRows);
    } else {
      OtherRowSize(l, GroupArgs(groups, s.per, s.dim, s.cols));
    }
  }

  /**
   * The Falcon re-layout of an adapter is the Falcon re-layout of its product; it needs rows of head size times heads,
   * where the plain weights can be read with other rows.
   */
  lemma FalconThenMerge(l: Adapter, heads: nat, kvHeads: nat, hidden: nat)
    requires Usual(l)
    ensures var sizes, f := FalconSizesOf(heads, kvHeads, hidden), FalconQkv(Factored(l), heads, kvHeads, hidden);
            if sizes.Some? && sizes.value.cols != Cols(l) then f.None?
            else MergedTogether(f, FalconQkv(Plain(Dense(l)), heads, kvHeads, hidden))
  {
    var sizes := FalconSizesOf(heads, kvHeads, hidden);
    if sizes.Some? {
      FalconRearrangedThenMerge(l, kvHeads, sizes.value);
    }
  }

  lemma BloomPartStands(base: Lora, w: Weights, p: Weights, part: nat)
    requires Usual(base) && Stands(base, w, p) && |ShapeOf(p)| == 4
    ensures StandTogether(base, BloomPart(w, part, Cols(base)), BloomPart(p, part, Cols(base)))
    ensures BloomPart(p, part, Cols(base)).Some? ==> |ShapeOf(BloomPart(p, part, Cols(base)).value)| == 2
  {
    var ixs := [ALL, Int(part), ALL, ALL];
    IndexStands(base, w, p, ixs);
    if Indexed(p, ixs).Some? {
      ReshapeStands(base, Indexed(w, ixs).value, Indexed(p, ixs).value, [-1, Cols(base) as int]);
    }
  }

  lemma BloomRowsStands(base: Lora, w: Weights, p: Weights)
    requires Usual(base) && Stands(base, w, p) && |ShapeOf(p)| == 4
    ensures StandTogether(base, BloomRows(w, Cols(base)), BloomRows(p, Cols(base)))
  {
    var embd := Cols(base);
    BloomPartStands(base, w, p, 0);
    BloomPartStands(base, w, p, 1);
    BloomPartStands(base, w, p, 2);
    PartsTogether(base, BloomPart(w, 0, embd), BloomPart(p, 0, embd), BloomPart(w, 1, embd), BloomPart(p, 1, embd),
                  BloomPart(w, 2, embd), BloomPart(p, 2, embd));
  }

  lemma BloomSplitStands(base: Lora, w: Weights, p: Weights, heads: nat, dim: nat)
    requires Usual(base) && Stands(base, w, p)
    ensures StandTogether(base, BloomSplit(w, heads, dim, Cols(base)), BloomSplit(p, heads, dim, Cols(base)))
  {
    var args := [heads, 3, dim, Cols(base)];
    ReshapeStands(base, w, p, args);
    if Reshaped(p, args).Some? {
      BloomRowsStands(base, Reshaped(w, args).value, Reshaped(p, args).value);
    }
  }

  /** The Bloom and GPT-NeoX re-layout of an adapter is that of its product, where its rows have the embedding's size. */
  lemma BloomThenMerge(l: Adapter, heads: nat, embd: nat)
    requires Usual(l)
    ensures if embd != Cols(l) then BloomQkv(Factored(l), heads, embd).None?
            else MergedTogether(BloomQkv(Factored(l), heads, embd), BloomQkv(Plain(Dense(l)), heads, embd))
  {
    if heads > 0 {
      if embd == Cols(l) {
        BloomSplitStands(l, Factored(l), Plain(Dense(l)), heads, embd / heads);
      } else {
        OtherRowSize(l, [heads, 3, embd / heads, embd]);
      }
    }
  }
}
