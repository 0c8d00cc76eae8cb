/** Exactly which weights the re-layouts accept, in plain numbers. */
module RelayoutSuccess {
  import opened StringUtils
  import opened Tensors
  import opened Lora
  import opened LoraIndexing
  import opened Relayout
  import opened RowOrder
  import opened RowNumbers

  // ----- LlamaModel.permute -----

  lemma SwapWithinWorksExactlyWhen(t: Tensor, n: nat, m: nat, k: nat)
    requires t.shape != []
    ensures SwapWithin(Plain(t), n, m, k).Some? <==> Prod([n, m, k] + t.shape[1..]) == Prod(t.shape)
  {
    if SwapWithin(Plain(t), n, m, k).Some? {
      var a, b, r := SwapWithinSteps(t, n, m, k);
    } else if Prod([n, m, k] + t.shape[1..]) == Prod(t.shape) {
      SwapWithinSucceeds(t, n, m, k);
    }
  }

  /** Two numbers of rows of the same size: the same number of entries. */
  lemma SameEntries(lead: Shape, rows: nat, tail: Shape)
    ensures Prod(lead + tail) == Prod([rows] + tail) <==> Prod(tail) == 0 || Prod(lead) == rows
  {
    FlatAppend(lead, tail, Zeros(|lead|), Zeros(|tail|));
    assert ([rows] + tail)[1..] == tail;
    if Prod(tail) == 0 {
      TimesIs(Prod(lead), 0);
      TimesIs(rows, 0);
    } else if Prod(lead) != rows {
      MulDiffers(Prod(lead), rows, Prod(tail));
    }
  }

  lemma HalvesMakeRows(rows: nat, n: nat, half: nat)
    requires n > 0 && half == rows / n / 2
    ensures n * 2 * half == rows <==> rows % (2 * n) == 0
  {
    if rows % (2 * n) == 0 {
      WholeHeads(rows, n, rows / (2 * n));
    } else if n * 2 * half == rows {
      NothingOver(rows, 2 * n, half);
    }
  }

  lemma WholeHeads(rows: nat, n: nat, q: nat)
    requires n > 0 && rows % (2 * n) == 0 && q == rows / (2 * n)
    ensures rows / n / 2 == q && n * 2 * q == rows
  {
    DivModSplit(rows, 2 * n);
    TimesIs(q, 2 * n);
    TimesIs(2 * q, n);
    assert q * (2 * n) == 2 * q * n;
    QuotientIs(rows, 2 * q, n, 0);
  }

  lemma NothingOver(rows: nat, size: nat, q: nat)
    requires size > 0 && q * size == rows
    ensures rows % size == 0
  {
    TimesIs(q, size);
    DivModUnique(q, size, 0);
  }

  /** The rows are whole heads of two halves, unless there is no entry at all. */
  lemma LlamaPermuteWorksExactlyWhen(t: Tensor, heads: nat, kvHeads: Option<nat>, n: nat)
    requires n == if kvHeads.Some? then kvHeads.value else heads
    ensures LlamaPermute(Plain(t), heads, kvHeads).Some?
            <==> t.shape != [] && n > 0 && (Prod(t.shape[1..]) == 0 || t.shape[0] % (2 * n) == 0)
  {
    if t.shape != [] && n > 0 {
      var rows, half := t.shape[0], t.shape[0] / n / 2;
      assert t.shape == [rows] + t.shape[1..];
      SwapWithinWorksExactlyWhen(t, n, 2, half);
      SameEntries([n, 2, half], rows, t.shape[1..]);
      ProdOfThreeIs(n, 2, half);
      HalvesMakeRows(rows, n, half);
    }
  }

  // ----- parts of groups -----

  lemma RowsTimes(rows: nat, cols: nat)
    ensures Prod([rows, cols]) == Times(rows, cols)
  {
    ProdOfTwo(rows, cols);
  }

  lemma GroupsTimes(groups: nat, count: nat, dim: nat, cols: nat)
    ensures Prod([groups, count, dim] + [cols]) == Times(Prod([groups, count, dim]), cols)
  {
    FlatAppend([groups, count, dim], [cols], [0, 0, 0], [0]);
    FlatOne(cols, 0);
  }

  lemma FalconPartWorks(all: Tensor, groups: nat, size: nat, dim: nat, cols: nat, ix: Ix, p: Pick, rows: nat)
    requires all.shape == [groups, size, dim] + [cols] && PickOf(ix, size) == Some(p) && p.keep
    ensures var part := FalconPart(Plain(all), ix, rows, cols);
            && (part.Some? <==> Times(rows, cols) == Times(Prod([groups, |p.positions|, dim]), cols))
            && (part.Some? ==> part.value.Plain? && part.value.t.shape == [rows, cols])
  {
    var picks := [Full(groups), p, Full(dim)];
    assert Pad([ALL, ix], 4) == [ALL, ix, ALL, ALL];
    FourPicks(groups, size, dim, cols, [ALL, ix], ix, p);
    var s := PartSteps(all, [groups, size, dim], picks, [ALL, ix], cols);
    PickedHeads(groups, dim, p);
    ReshapeToShape(s, [rows, cols]);
    RowsTimes(rows, cols);
    GroupsTimes(groups, |p.positions|, dim, cols);
  }

  lemma FalconRowsWork(all: Tensor, groups: nat, per: nat, size: nat, dim: nat, queryRows: nat, keyRows: nat, cols: nat)
    requires all.shape == [groups, size, dim] + [cols] && size == per + 2
    ensures var rows := FalconRows(Plain(all), queryRows, keyRows, cols);
            && (rows.Some? <==> Times(queryRows, cols) == Times(Prod([groups, per, dim]), cols)
                                && Times(keyRows, cols) == Times(Prod([groups, 1, dim]), cols))
            && (rows.Some? ==> rows.value.Plain? && rows.value.t.shape == [queryRows + keyRows + keyRows, cols])
  {
    var last := per + 1;
    FalconPicks(per);
    FalconPartWorks(all, groups, size, dim, cols, Slice(None, Some(-2)), Pick(true, Range(0, per)), queryRows);
    FalconPartWorks(all, groups, size, dim, cols, List([-2]), Pick(true, Range(per, last)), keyRows);
    FalconPartWorks(all, groups, size, dim, cols, List([-1]), Pick(true, Range(last, size)), keyRows);
    var q := FalconPart(Plain(all), Slice(None, Some(-2)), queryRows, cols);
    var k := FalconPart(Plain(all), List([-2]), keyRows, cols);
    var v := FalconPart(Plain(all), List([-1]), keyRows, cols);
    if q.Some? && k.Some? && v.Some? {
      ThreeMatricesFit(q.value.t, k.value.t, v.value.t, queryRows, keyRows, cols);
    }
  }

  lemma ThreeMatricesFit(q: Tensor, k: Tensor, v: Tensor, m: nat, n: nat, cols: nat)
    requires RowOrder.IsMatrix(q, m, cols) && RowOrder.IsMatrix(k, n, cols) && RowOrder.IsMatrix(v, n, cols)
    ensures var e := Concatenated(Plain(q), Plain(k), Plain(v));
            e.Some? && e.value.Plain? && e.value.t.shape == [m + n + n, cols]
  {
    TotalOfThree(q, k, v, m, n, cols);
    assert CatFits([q, k, v]);
  }

  lemma {:induction false} TimesOfSums(a: nat, b: nat, c: nat)
    ensures Times(a + b, c) == Times(a, c) + Times(b, c)
  {
    TimesIs(a + b, c);
    TimesIs(a, c);
    TimesIs(b, c);
  }

  /** Query, key and value rows together have as many entries as the fused weights. */
  lemma PartsMakeWhole(groups: nat, per: nat, dim: nat, queryRows: nat, keyRows: nat, cols: nat)
    requires Times(queryRows, cols) == Times(Prod([groups, per, dim]), cols)
    requires Times(keyRows, cols) == Times(Prod([groups, 1, dim]), cols)
    ensures Times(queryRows + keyRows + keyRows, cols) == Times(FusedRows(groups, per, dim), cols)
  {
    var q, k := Prod([groups, per, dim]), Prod([groups, 1, dim]);
    GroupRows(groups, per, dim);
    TimesOfSums(queryRows + keyRows, keyRows, cols);
    TimesOfSums(queryRows, keyRows, cols);
    TimesOfSums(q + k, k, cols);
    TimesOfSums(q, k, cols);
  }

  lemma FalconRead(t: Tensor, groups: nat, per: nat, dim: nat, cols: nat) returns (all: Tensor)
    ensures var read := Reshaped(Plain(t), GroupArgs(groups, per, dim, cols));
            && (read.Some? <==> Times(FusedRows(groups, per, dim), cols) == Prod(t.shape))
            && (read.Some? ==> read == Some(Plain(all)) && all.shape == [groups, per + 2, dim] + [cols])
  {
    var size, shape := per + 2, [groups, per + 2, dim, cols];
    all := t;
    ReshapeToShape(t, shape);
    assert GroupArgs(groups, per, dim, cols) == shape && shape == [groups, size, dim] + [cols];
    GroupsTimes(groups, size, dim, cols);
    if Reshape(t, shape).Some? {
      all := Reshape(t, shape).value;
    }
  }

  lemma FalconPutBack(t: Tensor, e: Tensor, rows: nat, cols: nat)
    requires e.shape == [rows, cols] && Times(rows, cols) == Prod(t.shape)
    ensures Reshaped(Plain(e), t.shape).Some?
  {
    ReshapeToShape(e, t.shape);
    RowsTimes(rows, cols);
  }

  /** With the weights read, the rest succeeds if the parts have the right entries. */
  lemma FalconRearrangedFrom(t: Tensor, all: Tensor, groups: nat, per: nat, size: nat, dim: nat, queryRows: nat, keyRows: nat,
                             cols: nat)
    requires size == per + 2 && all.shape == [groups, size, dim] + [cols]
    requires Times(FusedRows(groups, per, dim), cols) == Prod(t.shape)
    ensures var rows := FalconRows(Plain(all), queryRows, keyRows, cols);
            && (rows.Some? <==> Times(queryRows, cols) == Times(Prod([groups, per, dim]), cols)
                                && Times(keyRows, cols) == Times(Prod([groups, 1, dim]), cols))
            && (rows.Some? ==> Reshaped(rows.value, t.shape).Some?)
  {
    FalconRowsWork(all, groups, per, size, dim, queryRows, keyRows, cols);
    var rows := FalconRows(Plain(all), queryRows, keyRows, cols);
    if rows.Some? {
      PartsMakeWhole(groups, per, dim, queryRows, keyRows, cols);
      FalconPutBack(t, rows.value.t, queryRows + keyRows + keyRows, cols);
    }
  }

  lemma FalconStepsSucceed(t: Tensor, all: Tensor, groups: nat, per: nat, dim: nat, queryRows: nat, keyRows: nat, cols: nat)
    requires Reshaped(Plain(t), GroupArgs(groups, per, dim, cols)) == Some(Plain(all))
    requires var rows := FalconRows(Plain(all), queryRows, keyRows, cols); rows.Some? ==> Reshaped(rows.value, t.shape).Some?
    ensures FalconRearranged(Plain(t), groups, per, dim, queryRows, keyRows, cols).Some?
            <==> FalconRows(Plain(all), queryRows, keyRows, cols).Some?
  {
  }

  lemma FalconRearrangedWorks(t: Tensor, groups: nat, per: nat, dim: nat, queryRows: nat, keyRows: nat, cols: nat)
    ensures FalconRearranged(Plain(t), groups, per, dim, queryRows, keyRows, cols).Some?
            <==> && Times(FusedRows(groups, per, dim), cols) == Prod(t.shape)
                 && Times(queryRows, cols) == Times(Prod([groups, per, dim]), cols)
                 && Times(keyRows, cols) == Times(Prod([groups, 1, dim]), cols)
  {
    var size, args := per + 2, GroupArgs(groups, per, dim, cols);
    var all := FalconRead(t, groups, per, dim, cols);
    if Reshaped(Plain(t), args).Some? {
      FalconRearrangedFrom(t, all, groups, per, size, dim, queryRows, keyRows, cols);
      FalconStepsSucceed(t, all, groups, per, dim, queryRows, keyRows, cols);
    }
  }

  /** Numbers with the same product, when one factor is the same. */
  lemma SameFactor(a: nat, b: nat, c: nat)
    ensures a * c == b * c <==> a == b || c == 0
  {
  }

  lemma HeadsFit(heads: nat, groups: nat, per: nat, dim: nat, cols: nat)
    requires cols == dim * heads && heads > 0 && groups > 0 && per == heads / groups
    ensures heads * dim * cols == groups * per * dim * cols <==> dim == 0 || heads % groups == 0
  {
    assert groups * per + heads % groups == heads;
    if dim > 0 {
      Positive(dim, heads);
      Positive(dim, cols);
      SameFactor(heads, groups * per, dim * cols);
      assert heads * (dim * cols) == heads * dim * cols && groups * per * (dim * cols) == groups * per * dim * cols;
    }
  }

  /**
   * Falcon accepts weights exactly if they have the entries of `kvHeads` groups of heads of `hidden / heads` rows, and the
   * groups share the query heads without a rest.
   */
  lemma FalconWorksExactlyWhen(t: Tensor, heads: nat, kvHeads: nat, hidden: nat)
    ensures FalconQkv(Plain(t), heads, kvHeads, hidden).Some?
            <==> && heads > 0 && kvHeads > 0
                 && var per, dim := heads / kvHeads, hidden / heads;
                    && Prod(t.shape) == kvHeads * (per + 2) * dim * (dim * heads)
                    && (dim == 0 || heads % kvHeads == 0)
  {
    if heads > 0 && kvHeads > 0 {
      FalconFits(t, heads, kvHeads, hidden, heads / kvHeads, hidden / heads, hidden / heads * heads);
    }
  }

  lemma FalconFits(t: Tensor, heads: nat, groups: nat, hidden: nat, per: nat, dim: nat, cols: nat)
    requires heads > 0 && groups > 0 && per == heads / groups && dim == hidden / heads && cols == dim * heads
    ensures FalconQkv(Plain(t), heads, groups, hidden).Some?
            <==> Prod(t.shape) == groups * (per + 2) * dim * cols && (dim == 0 || heads % groups == 0)
  {
    FalconAs(Plain(t), heads, groups, hidden, per, dim, cols);
    FalconRearrangedWorks(t, groups, per, dim, Times(heads, dim), Times(groups, dim), cols);
    FalconNumbers(heads, groups, per, dim, cols);
    HeadsFit(heads, groups, per, dim, cols);
  }

  lemma FalconNumbers(heads: nat, groups: nat, per: nat, dim: nat, cols: nat)
    ensures Times(FusedRows(groups, per, dim), cols) == groups * (per + 2) * dim * cols
    ensures Times(Times(heads, dim), cols) == heads * dim * cols
    ensures Times(Prod([groups, per, dim]), cols) == groups * per * dim * cols
    ensures Times(Times(groups, dim), cols) == Times(Prod([groups, 1, dim]), cols)
  {
    ProdOfThreeIs(groups, per + 2, dim);
    ProdOfThreeIs(groups, per, dim);
    ProdOfThreeIs(groups, 1, dim);
    TimesIs(heads, dim);
    TimesIs(groups, dim);
    TimesIs(FusedRows(groups, per, dim), cols);
    TimesIs(Times(heads, dim), cols);
    TimesIs(Prod([groups, per, dim]), cols);
  }

  // ----- Bloom and GPT-NeoX -----

  /** Reading as rows of a given size needs rows that are not empty. */
  lemma RowsWork(s: Tensor, lead: Shape, cols: nat)
    requires s.shape == lead + [cols]
    ensures var x := Reshaped(Plain(s), [-1, cols as int]);
            && (x.Some? <==> cols > 0)
            && (x.Some? ==> x.value.Plain? && x.value.t.shape == [Prod(lead), cols])
  {
    var args: seq<int> := [-1, cols as int];
    assert args[1..] == [cols as int] && args[1..][1..] == [] && KnownSize(args[1..]) == cols && KnownSize(args) == cols;
    FlatAppend(lead, [cols], Zeros(|lead|), [0]);
    FlatOne(cols, 0);
    if cols > 0 {
      DivModUnique(Prod(lead), cols, 0);
      var shape: Shape := [Prod(lead), cols];
      assert args[0] == -1 && Prod(s.shape) % cols == 0 && Prod(s.shape) / cols == Prod(lead);
      assert ResolveShape(Prod(s.shape), args).value == shape;
      RowsTimes(Prod(lead), cols);
    }
  }

  lemma BloomPartWorks(all: Tensor, heads: nat, dim: nat, cols: nat, part: nat)
    requires all.shape == [heads, 3, dim] + [cols] && part < 3
    ensures var x := BloomPart(Plain(all), part, cols);
            (x.Some? <==> cols > 0) && (x.Some? ==> x.value.Plain? && x.value.t.shape == [Prod([heads, dim]), cols])
  {
    var ixs, picks := [ALL, Int(part), ALL, ALL], [Full(heads), Pick(false, [part]), Full(dim)];
    assert Pad(ixs, 4) == ixs && PickOf(Int(part), 3) == Some(Pick(false, [part]));
    FourPicks(heads, 3, dim, cols, ixs, Int(part), Pick(false, [part]));
    var s := PartSteps(all, [heads, 3, dim], picks, ixs, cols);
    PickedPair(heads, dim, part);
    RowsWork(s, [heads, dim], cols);
  }

  lemma BloomRowsWork(all: Tensor, heads: nat, dim: nat, cols: nat)
    requires all.shape == [heads, 3, dim] + [cols]
    ensures BloomRows(Plain(all), cols).Some? <==> cols > 0
  {
    BloomPartWorks(all, heads, dim, cols, 0);
    BloomPartWorks(all, heads, dim, cols, 1);
    BloomPartWorks(all, heads, dim, cols, 2);
    if cols > 0 {
      var q, k := BloomPart(Plain(all), 0, cols).value.t, BloomPart(Plain(all), 1, cols).value.t;
      var v, rows := BloomPart(Plain(all), 2, cols).value.t, Prod([heads, dim]);
      ThreeMatricesFit(q, k, v, rows, rows, cols);
    }
  }

  lemma BloomSplitWorks(t: Tensor, heads: nat, dim: nat, cols: nat)
    ensures BloomSplit(Plain(t), heads, dim, cols).Some? <==> cols > 0 && Prod(t.shape) == Times(Prod([heads, 3, dim]), cols)
  {
    var shape: Shape := [heads, 3, dim, cols];
    ReshapeToShape(t, shape);
    assert shape == [heads, 3, dim] + [cols];
    GroupsTimes(heads, 3, dim, cols);
    if Reshape(t, shape).Some? {
      BloomRowsWork(Reshape(t, shape).value, heads, dim, cols);
    }
  }

  /** Bloom and GPT-NeoX accept weights exactly if they have the entries of three times `embd / heads` rows for each head. */
  lemma BloomWorksExactlyWhen(t: Tensor, heads: nat, embd: nat)
    ensures BloomQkv(Plain(t), heads, embd).Some?
            <==> heads > 0 && embd > 0 && Prod(t.shape) == heads * 3 * (embd / heads) * embd
  {
    if heads > 0 {
      var dim := embd / heads;
      BloomSplitWorks(t, heads, dim, embd);
      ProdOfThreeIs(heads, 3, dim);
      TimesIs(Prod([heads, 3, dim]), embd);
    }
  }

  // ----- InternLM2 -----

  /** Some heads of every group, read as rows. */
  lemma HeadRowsWork(all: Tensor, groups: nat, size: nat, dim: nat, cols: nat, ix: Ix, p: Pick) returns (s: Tensor)
    requires all.shape == [groups, size, dim] + [cols] && PickOf(ix, size) == Some(p) && (p.keep || |p.positions| == 1)
    ensures Indexed(Plain(all), [ALL, ix]) == Some(Plain(s)) && LastOf(s.shape) == cols
    ensures var x := AsRows(Plain(s));
            && (x.Some? <==> cols > 0)
            && (x.Some? ==> x.value.Plain? && x.value.t.shape == [Prod([groups, |p.positions|, dim]), cols])
  {
    var picks := [Full(groups), p, Full(dim)];
    assert Pad([ALL, ix], 4) == [ALL, ix, ALL, ALL];
    FourPicks(groups, size, dim, cols, [ALL, ix], ix, p);
    s := PartSteps(all, [groups, size, dim], picks, [ALL, ix], cols);
    if p.keep {
      PickedHeads(groups, dim, p);
    } else {
      PickedPair(groups, dim, p.positions[0]);
      assert p == Pick(false, [p.positions[0]]);
    }
    RowsWork(s, PickedShape(picks), cols);
  }

  /** The permuted rows of a part, which are of the embedding's size. */
  lemma PermutedPartWorks(x: Tensor, heads: nat, n: nat, rows: nat, cols: nat)
    requires x.shape == [rows, cols] && cols > 0
    ensures LlamaPermute(Plain(x), heads, Some(n)).Some? <==> n > 0 && rows % (2 * n) == 0
  {
    LlamaPermuteWorksExactlyWhen(x, heads, Some(n), n);
    assert x.shape[1..] == [cols];
    FlatOne(cols, 0);
  }

  lemma InternLm2PartsWork(all: Tensor, groups: nat, per: nat, size: nat, dim: nat, cols: nat, heads: nat, kvHeads: nat,
                           queryRows: nat, keyRows: nat)
    requires all.shape == [groups, size, dim] + [cols] && size == per + 2 && heads > 0 && kvHeads > 0
    requires queryRows == Prod([groups, per, dim]) && keyRows == Prod([groups, 1, dim])
    ensures InternLm2Query(Plain(all), heads, per).Some? <==> cols > 0 && queryRows % (2 * heads) == 0
    ensures InternLm2Key(Plain(all), heads, kvHeads).Some? <==> cols > 0 && keyRows % (2 * kvHeads) == 0
    ensures InternLm2Value(Plain(all)).Some? <==> cols > 0
  {
    var last := per + 1;
    InternLm2Picks(per, size, last);
    var q := HeadRowsWork(all, groups, size, dim, cols, Slice(None, Some(per)), Pick(true, Range(0, per)));
    var k := HeadRowsWork(all, groups, size, dim, cols, Int(-2), Pick(false, [per]));
    var v := HeadRowsWork(all, groups, size, dim, cols, Int(-1), Pick(false, [last]));
    if cols > 0 {
      PermutedPartWorks(AsRows(Plain(q)).value.t, heads, heads, queryRows, cols);
      PermutedPartWorks(AsRows(Plain(k)).value.t, heads, kvHeads, keyRows, cols);
    }
  }

  lemma InternLm2SplitWorks(t: Tensor, heads: nat, kvHeads: nat, embd: nat, s: GroupSizes, queryRows: nat, keyRows: nat)
    requires heads > 0 && kvHeads > 0 && queryRows == Prod([s.groups, s.perKv, s.dim]) && keyRows == Prod([s.groups, 1, s.dim])
    ensures InternLm2Parts(Plain(t), s.groups, s.perKv, s.dim, embd, heads, kvHeads).Some?
            <==> && embd > 0 && Prod(t.shape) == Times(FusedRows(s.groups, s.perKv, s.dim), embd)
                 && queryRows % (2 * heads) == 0 && keyRows % (2 * kvHeads) == 0
  {
    var all := FalconRead(t, s.groups, s.perKv, s.dim, embd);
    if Reshaped(Plain(t), GroupArgs(s.groups, s.perKv, s.dim, embd)).Some? {
      InternLm2PartsWork(all, s.groups, s.perKv, s.perKv + 2, s.dim, embd, heads, kvHeads, queryRows, keyRows);
    }
  }

  /**
   * InternLM2 accepts weights exactly if they have the entries of the groups, and query and key rows are whole heads of two
   * halves.
   */
  lemma InternLm2WorksExactlyWhen(t: Tensor, heads: nat, kvHeads: nat, embd: nat, s: GroupSizes)
    requires InternLm2Has(heads, kvHeads, embd, s)
    ensures InternLm2Split(Plain(t), heads, kvHeads, embd).Some?
            <==> && embd > 0 && Prod(t.shape) == s.groups * (s.perKv + 2) * s.dim * embd
                 && s.groups * s.perKv * s.dim % (2 * heads) == 0 && s.groups * 1 * s.dim % (2 * kvHeads) == 0
  {
    assert InternLm2Sizes(heads, kvHeads, embd) == Some(s);
    InternLm2SplitWorks(t, heads, kvHeads, embd, s, Prod([s.groups, s.perKv, s.dim]), Prod([s.groups, 1, s.dim]));
    ProdOfThreeIs(s.groups, s.perKv + 2, s.dim);
    ProdOfThreeIs(s.groups, s.perKv, s.dim);
    ProdOfThreeIs(s.groups, 1, s.dim);
    TimesIs(FusedRows(s.groups, s.perKv, s.dim), embd);
  }

  /** Without such sizes, because a divisor is zero, there is an exception. */
  lemma InternLm2NeedsHeads(t: Tensor, heads: nat, kvHeads: nat, embd: nat)
    requires !(heads > 0 && 0 < kvHeads <= heads)
    ensures InternLm2Split(Plain(t), heads, kvHeads, embd).None?
  {
    if heads > 0 && kvHeads > 0 {
      QuotientIs(heads, 0, kvHeads, heads);
    }
  }

  lemma InternLm2SizesExist(heads: nat, kvHeads: nat, embd: nat) returns (s: GroupSizes)
    requires heads > 0 && 0 < kvHeads <= heads
    ensures InternLm2Has(heads, kvHeads, embd, s)
  {
    AtLeastOne(heads, kvHeads);
    var per := heads / kvHeads;
    s := GroupSizes(heads / per, per, embd / heads);
  }

  lemma AtLeastOne(a: nat, b: nat)
    requires 0 < b <= a
    ensures a / b > 0
  {
  }
}
