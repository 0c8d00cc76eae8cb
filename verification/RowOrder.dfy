/**
 * Where the re-layouts put the rows of plain weights: each is given by a map of row numbers, and the map loses and
 * repeats no row.
 */
module RowOrder {
  import opened StringUtils
  import opened Tensors
  import opened Lora
  import opened LoraIndexing
  import opened Relayout

  // ----- rows under a finer reading of the first dimension -----

  lemma {:induction false} FlatAppend(s: Shape, t: Shape, i: Index, j: Index)
    requires |i| == |s| && |j| == |t|
    ensures Prod(s + t) == Times(Prod(s), Prod(t))
    ensures Flat(s + t, i + j) == Times(Flat(s, i), Prod(t)) + Flat(t, j)
  {
    if s == [] {
      assert s + t == t && i + j == j;
      TimesIs(1, Prod(t));
      TimesIs(0, Prod(t));
    } else {
      assert (s + t)[1..] == s[1..] + t && (i + j)[1..] == i[1..] + j;
      FlatAppend(s[1..], t, i[1..], j);
      Reassociate(s[0], Prod(s[1..]), 0, Prod(t));
      TimesIs(0, Prod(t));
      Reassociate(i[0], Prod(s[1..]), Flat(s[1..], i[1..]), Prod(t));
    }
  }

  lemma AppendInBounds(s: Shape, t: Shape, i: Index, j: Index)
    requires InBounds(s, i) && InBounds(t, j)
    ensures InBounds(s + t, i + j)
  {
  }

  /** Tensors with the same entries, read with leading shapes that give two indices the same number. */
  lemma SameRow(a: Tensor, s: Shape, i: Index, b: Tensor, t: Shape, j: Index, tail: Shape, rest: Index)
    requires a.data == b.data && a.shape == s + tail && b.shape == t + tail
    requires InBounds(s, i) && InBounds(t, j) && InBounds(tail, rest) && Flat(s, i) == Flat(t, j)
    ensures At(a, i + rest) == At(b, j + rest)
  {
    FlatAppend(s, tail, i, rest);
    FlatAppend(t, tail, j, rest);
    AppendInBounds(s, tail, i, rest);
    AppendInBounds(t, tail, j, rest);
  }

  lemma SameRowCount(s: Shape, rows: nat, tail: Shape, rest: Index)
    requires Prod(s + tail) == Prod([rows] + tail) && InBounds(tail, rest)
    ensures Prod(s) == rows
  {
    FlatBound(tail, rest);
    FlatAppend(s, tail, Zeros(|s|), rest);
    assert ([rows] + tail)[1..] == tail;
    if Prod(s) != rows {
      MulDiffers(Prod(s), rows, Prod(tail));
    }
  }

  lemma FlatOne(rows: nat, row: nat)
    ensures Prod([rows]) == rows && Flat([rows], [row]) == row
  {
    assert [rows][1..] == [] && [row][1..] == [];
    TimesIs(rows, 1);
    TimesIs(row, 1);
  }

  /** A row of the coarse reading is a row of the fine one. */
  lemma CoarseRow(fine: Tensor, lead: Shape, coarse: Tensor, rows: nat, tail: Shape, row: nat, rest: Index)
    requires fine.data == coarse.data && fine.shape == lead + tail && coarse.shape == [rows] + tail
    requires row < rows == Prod(lead) && InBounds(tail, rest)
    ensures At(coarse, [row] + rest) == At(fine, Unflat(lead, row) + rest)
  {
    FlatOne(rows, row);
    FlatUnflat(lead, row);
    SameRow(coarse, [rows], [row], fine, lead, Unflat(lead, row), tail, rest);
  }

  /** And the other way around. */
  lemma FineRow(fine: Tensor, lead: Shape, coarse: Tensor, rows: nat, tail: Shape, u: Index, rest: Index)
    requires fine.data == coarse.data && fine.shape == lead + tail && coarse.shape == [rows] + tail
    requires rows == Prod(lead) && InBounds(lead, u) && InBounds(tail, rest)
    ensures Flat(lead, u) < rows && At(fine, u + rest) == At(coarse, [Flat(lead, u)] + rest)
  {
    FlatBound(lead, u);
    FlatOne(rows, Flat(lead, u));
    SameRow(fine, lead, u, coarse, [rows], [Flat(lead, u)], tail, rest);
  }

  // ----- LlamaModel.permute -----

  /** The row that swapping the m parts and k rows within each of n heads brings to `row`. */
  function SwappedRow(n: nat, m: nat, k: nat, row: nat): nat
    requires row < Prod([n, k, m])
  {
    var u := Unflat([n, k, m], row);
    Flat([n, m, k], [u[0], u[2], u[1]])
  }

  lemma TimesCommutes(a: nat, b: nat)
    ensures Times(a, b) == Times(b, a)
  {
    TimesIs(a, b);
    TimesIs(b, a);
  }

  lemma ProdOfTwo(m: nat, k: nat)
    ensures Prod([m, k]) == Times(m, k)
  {
    FlatOne(k, 0);
    assert [m, k][1..] == [k];
  }

  lemma ProdOfThree(n: nat, m: nat, k: nat)
    ensures Prod([n, m, k]) == Times(n, Times(m, k))
  {
    ProdOfTwo(m, k);
    assert [n, m, k][1..] == [m, k];
  }

  lemma SameProduct(n: nat, m: nat, k: nat)
    ensures Prod([n, m, k]) == Prod([n, k, m])
  {
    ProdOfThree(n, m, k);
    ProdOfThree(n, k, m);
    TimesCommutes(m, k);
  }

  /** The map stays in range and is undone by the swap with m and k exchanged; so it is a bijection. */
  lemma SwappedRowUndone(n: nat, m: nat, k: nat, row: nat)
    requires row < Prod([n, k, m])
    ensures SwappedRow(n, m, k, row) < Prod([n, m, k]) == Prod([n, k, m])
    ensures SwappedRow(n, k, m, SwappedRow(n, m, k, row)) == row
  {
    var u := Unflat([n, k, m], row);
    var v := [u[0], u[2], u[1]];
    SameProduct(n, m, k);
    FlatBound([n, m, k], v);
    UnflatFlat([n, m, k], v);
    assert u == [v[0], v[2], v[1]];
    FlatUnflat([n, k, m], row);
  }

  lemma HeadOf(n: nat, m: nat, k: nat, u: Index, size: nat)
    requires InBounds([n, m, k], u) && size == Times(m, k)
    ensures size > 0 && Flat([n, m, k], u) / size == u[0]
  {
    ProdOfTwo(m, k);
    assert [n, m, k][1..] == [m, k];
    FlatBound([m, k], u[1..]);
    QuotientIs(Flat([n, m, k], u), u[0], size, Flat([m, k], u[1..]));
  }

  lemma QuotientIs(x: nat, q: nat, size: nat, f: nat)
    requires f < size && x == Times(q, size) + f
    ensures x / size == q
  {
    DivModUnique(q, size, f);
  }

  /** No row leaves its head, heads having m * k rows each. */
  lemma SwappedRowKeepsHead(n: nat, m: nat, k: nat, row: nat, size: nat)
    requires row < Prod([n, k, m]) && size == Times(m, k)
    ensures size > 0 && SwappedRow(n, m, k, row) / size == row / size
  {
    var u := Unflat([n, k, m], row);
    FlatUnflat([n, k, m], row);
    TimesCommutes(m, k);
    HeadOf(n, k, m, u, size);
    HeadOf(n, m, k, [u[0], u[2], u[1]], size);
  }

  function MiddleSwap(n: nat): (dims: seq<nat>)
    requires n >= 3
  {
    [0, 2, 1] + seq(n - 3, i requires 0 <= i => i + 3)
  }

  lemma MiddleSwapIs(n: nat)
    requires n >= 3
    ensures SwappedDims(n, 1, 2) == Some(MiddleSwap(n)) && IsPermutation(MiddleSwap(n), n)
  {
    assert SwappedDims(n, 1, 2).value == MiddleSwap(n);
  }

  lemma PositionInMiddleSwap(n: nat, d: nat)
    requires n >= 3 && d < n
    ensures PositionOf(MiddleSwap(n), d) == MiddleSwap(n)[d]
  {
    var dims := MiddleSwap(n);
    MiddleSwapIs(n);
    PermutationIsOnto(dims, n, d);
    var p := PositionOf(dims, d);
    assert dims[p] == d && dims[dims[d]] == d;
  }

  lemma UnswapMiddle(u: Index, rest: Index)
    requires |u| == 3
    ensures Unpermute(MiddleSwap(3 + |rest|), u + rest) == [u[0], u[2], u[1]] + rest
  {
    var n := 3 + |rest|;
    forall d | 0 <= d < n ensures Unpermute(MiddleSwap(n), u + rest)[d] == ([u[0], u[2], u[1]] + rest)[d] {
      PositionInMiddleSwap(n, d);
    }
  }

  lemma SwappedEntry(p: Tensor, t: Tensor, n: nat, m: nat, k: nat, tail: Shape, u: Index, rest: Index)
    requires t.shape == [n, m, k] + tail && SwapAxes(Plain(t), 1, 2) == Some(Plain(p))
    requires InBounds([n, k, m], u) && InBounds(tail, rest)
    ensures p.shape == [n, k, m] + tail && At(p, u + rest) == At(t, [u[0], u[2], u[1]] + rest)
  {
    var dims := MiddleSwap(|t.shape|);
    MiddleSwapIs(|t.shape|);
    SwapIsPermutation(|t.shape|, 1, 2);
    TorchPermuteIs(t, dims, dims);
    assert p.shape == [n, k, m] + tail;
    AppendInBounds([n, k, m], tail, u, rest);
    assert PermutedAt(p, t, dims, u + rest);
    UnswapMiddle(u, rest);
  }

  /** The three steps of a successful swap within heads. */
  lemma SwapWithinSteps(t: Tensor, n: nat, m: nat, k: nat) returns (a: Tensor, b: Tensor, r: Tensor)
    requires t.shape != [] && SwapWithin(Plain(t), n, m, k).Some?
    ensures SwapWithin(Plain(t), n, m, k) == Some(Plain(r))
    ensures a.data == t.data && a.shape == [n, m, k] + t.shape[1..]
    ensures SwapAxes(Plain(a), 1, 2) == Some(Plain(b))
    ensures r.data == b.data && r.shape == t.shape
  {
    var args := SplitRows(n, m, k, t.shape);
    a := Reshaped(Plain(t), args).value.t;
    assert a.shape == args;
    b := SwapAxes(Plain(a), 1, 2).value.t;
    r := Reshaped(Plain(b), t.shape).value.t;
    assert r.shape == t.shape;
  }

  /** Row `row` of the result is row SwappedRow of the weights, whatever further dimensions there are. */
  lemma SwapWithinMovesRows(t: Tensor, r: Tensor, n: nat, m: nat, k: nat, row: nat, rest: Index)
    requires t.shape != [] && SwapWithin(Plain(t), n, m, k) == Some(Plain(r)) && InBounds(t.shape, [row] + rest)
    ensures r.shape == t.shape && Prod([n, k, m]) == t.shape[0]
    ensures SwappedRow(n, m, k, row) < t.shape[0]
    ensures At(r, [row] + rest) == At(t, [SwappedRow(n, m, k, row)] + rest)
  {
    var rows, tail := t.shape[0], t.shape[1..];
    assert t.shape == [rows] + tail;
    assert InBounds(tail, rest) by {
      assert forall i :: 0 <= i < |rest| ==> ([row] + rest)[i + 1] == rest[i] && t.shape[i + 1] == tail[i];
    }
    assert row < rows by { assert ([row] + rest)[0] == row; }
    var a, b, r' := SwapWithinSteps(t, n, m, k);
    SameRowCount([n, m, k], rows, tail, rest);
    SwappedRowUndoneFor(n, m, k, rows, row);
    var u := Unflat([n, k, m], row);
    SwappedEntry(b, a, n, m, k, tail, u, rest);
    CoarseRow(b, [n, k, m], r, rows, tail, row, rest);
    FineRow(a, [n, m, k], t, rows, tail, [u[0], u[2], u[1]], rest);
  }

  lemma SwappedRowUndoneFor(n: nat, m: nat, k: nat, rows: nat, row: nat)
    requires Prod([n, m, k]) == rows && row < rows
    ensures Prod([n, k, m]) == rows && SwappedRow(n, m, k, row) < rows
  {
    SameProduct(n, m, k);
    SwappedRowUndone(n, m, k, row);
  }

  /** Reshaping to existing sizes works exactly when the number of entries is right. */
  lemma ReshapeToShape(t: Tensor, shape: Shape)
    ensures Reshaped(Plain(t), shape) == OfTensor(Reshape(t, shape))
  {
    assert seq(|shape|, i requires 0 <= i < |shape| => shape[i]) == shape;
  }

  lemma SwapWithinSucceeds(t: Tensor, n: nat, m: nat, k: nat)
    requires t.shape != [] && Prod([n, m, k] + t.shape[1..]) == Prod(t.shape)
    ensures SwapWithin(Plain(t), n, m, k).Some?
  {
    var args := SplitRows(n, m, k, t.shape);
    ReshapeToShape(t, args);
    var a := Tensor(args, t.data);
    MiddleSwapIs(|args|);
    SwapIsPermutation(|args|, 1, 2);
    TorchPermuteIs(a, MiddleSwap(|args|), MiddleSwap(|args|));
    var b := SwapAxes(Plain(a), 1, 2).value.t;
    assert b.shape == [n, k, m] + t.shape[1..];
    SameSizeSwapped(n, m, k, t.shape[1..]);
    ReshapeToShape(b, t.shape);
  }

  lemma SameSizeSwapped(n: nat, m: nat, k: nat, tail: Shape)
    ensures Prod([n, m, k] + tail) == Prod([n, k, m] + tail)
  {
    FlatAppend([n, m, k], tail, [0, 0, 0], Zeros(|tail|));
    FlatAppend([n, k, m], tail, [0, 0, 0], Zeros(|tail|));
    SameProduct(n, m, k);
  }

  lemma FirstOf(shape: Shape, idx: Index)
    requires shape != [] && InBounds(shape, idx)
    ensures idx == [idx[0]] + idx[1..]
  {
  }

  /** The swap is undone by swapping back. */
  lemma SwapWithinUndone(t: Tensor, r: Tensor, n: nat, m: nat, k: nat)
    requires t.shape != [] && SwapWithin(Plain(t), n, m, k) == Some(Plain(r))
    ensures r.shape == t.shape && SwapWithin(Plain(r), n, k, m) == Some(Plain(t))
  {
    var a, b, r' := SwapWithinSteps(t, n, m, k);
    SameSizeSwapped(n, m, k, t.shape[1..]);
    SwapWithinSucceeds(r, n, k, m);
    var a', b', back := SwapWithinSteps(r, n, k, m);
    forall idx | InBounds(t.shape, idx) ensures At(back, idx) == At(t, idx) {
      FirstOf(t.shape, idx);
      SwappedTwice(t, r, back, n, m, k, idx[0], idx[1..]);
    }
    SameEntriesSameTensor(back, t);
  }

  /** LlamaModel.permute is undone by reading each head as half as many pairs of rows and swapping back. */
  lemma LlamaPermuteUndone(t: Tensor, r: Tensor, heads: nat, kvHeads: Option<nat>)
    requires LlamaPermute(Plain(t), heads, kvHeads) == Some(Plain(r))
    ensures var n := HeadsOf(heads, kvHeads);
            r.shape == t.shape && SwapWithin(Plain(r), n, HalfHead(t.shape[0], n), 2) == Some(Plain(t))
  {
    var n := HeadsOf(heads, kvHeads);
    SwapWithinUndone(t, r, n, 2, HalfHead(t.shape[0], n));
  }

  /** LlamaModel.permute brings to every row a row of the same head, by the bijection SwappedRow. */
  lemma LlamaPermuteMovesRows(t: Tensor, r: Tensor, heads: nat, kvHeads: Option<nat>, row: nat, rest: Index)
    requires LlamaPermute(Plain(t), heads, kvHeads) == Some(Plain(r)) && InBounds(t.shape, [row] + rest)
    ensures var n := HeadsOf(heads, kvHeads);
            var half := HalfHead(t.shape[0], n);
            && Prod([n, half, 2]) == t.shape[0] && Times(2, half) > 0
            && var from := SwappedRow(n, 2, half, row);
               from < t.shape[0] && from / Times(2, half) == row / Times(2, half) && At(r, [row] + rest) == At(t, [from] + rest)
  {
    var n := HeadsOf(heads, kvHeads);
    var half := HalfHead(t.shape[0], n);
    assert row < t.shape[0] by { assert ([row] + rest)[0] == row; }
    SwapWithinMovesRows(t, r, n, 2, half, row, rest);
    SwappedRowKeepsHead(n, 2, half, row, Times(2, half));
  }

  lemma SwappedTwice(t: Tensor, r: Tensor, back: Tensor, n: nat, m: nat, k: nat, row: nat, rest: Index)
    requires t.shape != [] && SwapWithin(Plain(t), n, m, k) == Some(Plain(r)) && r.shape == t.shape
    requires SwapWithin(Plain(r), n, k, m) == Some(Plain(back)) && InBounds(t.shape, [row] + rest)
    ensures At(back, [row] + rest) == At(t, [row] + rest)
  {
    SwapWithinMovesRows(r, back, n, k, m, row, rest);
    var mid := SwappedRow(n, k, m, row);
    OtherRow(t.shape, row, mid, rest);
    SwapWithinMovesRows(t, r, n, m, k, mid, rest);
    SwappedRowUndone(n, k, m, row);
  }

  lemma OtherRow(shape: Shape, row: nat, mid: nat, rest: Index)
    requires shape != [] && InBounds(shape, [row] + rest) && mid < shape[0]
    ensures InBounds(shape, [mid] + rest)
  {
    assert forall i :: 0 < i < |shape| ==> ([mid] + rest)[i] == ([row] + rest)[i];
  }

  // ----- parts of fused weights -----

  lemma PartSteps(t: Tensor, lead: Shape, picks: seq<Pick>, ixs: seq<Ix>, cols: nat) returns (s: Tensor)
    requires t.shape == lead + [cols] && |picks| == |lead| && 0 < |ixs| <= |t.shape|
    requires Picks(t.shape, Pad(ixs, |t.shape|)) == Some(picks + [Full(cols)])
    ensures Indexed(Plain(t), ixs) == Some(Plain(s)) && IsSelected(s, t, picks + [Full(cols)])
    ensures s.shape == PickedShape(picks) + [cols] && PicksFit(lead, picks)
  {
    SelectByIs(t, Pad(ixs, |t.shape|), picks + [Full(cols)]);
    s := Indexed(Plain(t), ixs).value.t;
    PickedSnoc(picks, Full(cols));
    FitsPrefix(lead, picks, cols);
  }

  lemma {:induction false} FitsPrefix(lead: Shape, picks: seq<Pick>, cols: nat)
    requires |picks| == |lead| && PicksFit(lead + [cols], picks + [Full(cols)])
    ensures PicksFit(lead, picks)
    decreases |picks|
  {
    if picks != [] {
      assert (lead + [cols])[1..] == lead[1..] + [cols] && (picks + [Full(cols)])[1..] == picks[1..] + [Full(cols)];
      FitsPrefix(lead[1..], picks[1..], cols);
    }
  }

  /**
   * Row `row` of a selection read as a matrix is a row of the whole read as a matrix: number it among the selected
   * heads, and find its place among all.
   */
  lemma PartRow(whole: Tensor, all: Tensor, rows: nat, lead: Shape, picks: seq<Pick>, s: Tensor, part: Tensor, cols: nat, row: nat, c: nat)
    requires whole.shape == [rows, cols] && all.shape == lead + [cols] && whole.data == all.data && rows == Prod(lead)
    requires |picks| == |lead| && PicksFit(lead, picks)
    requires IsSelected(s, all, picks + [Full(cols)]) && s.shape == PickedShape(picks) + [cols]
    requires part.data == s.data && part.shape == [Prod(PickedShape(picks)), cols]
    requires row < Prod(PickedShape(picks)) && c < cols
    ensures var from := Flat(lead, Source(picks, Unflat(PickedShape(picks), row)));
            from < rows && At(part, [row] + [c]) == At(whole, [from] + [c])
  {
    var u := Unflat(PickedShape(picks), row);
    assert part.shape == [Prod(PickedShape(picks))] + [cols] && whole.shape == [rows] + [cols];
    CoarseRow(s, PickedShape(picks), part, Prod(PickedShape(picks)), [cols], row, [c]);
    SelectedRow(all, lead, picks, s, cols, u, c);
    SourceInBounds(lead, picks, u);
    FineRow(all, lead, whole, rows, [cols], Source(picks, u), [c]);
  }

  lemma SelectedRow(all: Tensor, lead: Shape, picks: seq<Pick>, s: Tensor, cols: nat, u: Index, c: nat)
    requires all.shape == lead + [cols] && |picks| == |lead|
    requires IsSelected(s, all, picks + [Full(cols)]) && s.shape == PickedShape(picks) + [cols]
    requires InBounds(PickedShape(picks), u) && c < cols
    ensures At(s, u + [c]) == At(all, Source(picks, u) + [c])
  {
    AppendInBounds(PickedShape(picks), [cols], u, [c]);
    SourceSnoc(picks, Full(cols), u, c);
    assert SelectedAt(s, all, picks + [Full(cols)], u + [c]);
  }

  // ----- Falcon, Bloom and GPT-NeoX: from groups of query, key and value heads to all query, all key, all value rows -----

  /** Row `row` of the heads `offset` up to `offset + count` of every group, as a row of the fused weights. */
  function BlockRow(groups: nat, size: nat, dim: nat, offset: nat, count: nat, row: nat): nat
    requires row < Prod([groups, count, dim])
  {
    var u := Unflat([groups, count, dim], row);
    Flat([groups, size, dim], [u[0], offset + u[1], u[2]])
  }

  /** The rows of groups that hold some query heads, one key head and one value head. */
  function FusedRows(groups: nat, per: nat, dim: nat): nat {
    Prod([groups, per + 2, dim])
  }

  lemma GroupRows(groups: nat, per: nat, dim: nat)
    ensures FusedRows(groups, per, dim) == Prod([groups, per, dim]) + Prod([groups, 1, dim]) + Prod([groups, 1, dim])
  {
    ProdOfThree(groups, per + 2, dim);
    ProdOfThree(groups, per, dim);
    ProdOfThree(groups, 1, dim);
    TimesIs(1, dim);
    TimesOfSum(groups, Times(per, dim), dim);
    TimesOfSum(groups, Times(per + 1, dim), dim);
    assert Times(per + 2, dim) == dim + Times(per + 1, dim) && Times(per + 1, dim) == dim + Times(per, dim);
  }

  lemma {:induction false} TimesOfSum(a: nat, b: nat, c: nat)
    ensures Times(a, b + c) == Times(a, b) + Times(a, c)
  {
    if a > 0 {
      TimesOfSum(a - 1, b, c);
    }
  }

  /** The row of the fused weights that comes to `row`: first the query rows of all groups, then the key, then the value rows. */
  function GroupedRow(groups: nat, per: nat, dim: nat, row: nat): nat
    requires row < FusedRows(groups, per, dim)
  {
    GroupRows(groups, per, dim);
    var q, k := Prod([groups, per, dim]), Prod([groups, 1, dim]);
    if row < q then BlockRow(groups, per + 2, dim, 0, per, row)
    else if row < q + k then BlockRow(groups, per + 2, dim, per, 1, row - q)
    else BlockRow(groups, per + 2, dim, per + 1, 1, row - q - k)
  }

  /** Where a row of the fused weights goes. */
  function GroupedPlace(groups: nat, per: nat, dim: nat, from: nat): nat
    requires from < FusedRows(groups, per, dim)
  {
    var u := Unflat([groups, per + 2, dim], from);
    var q, k := Prod([groups, per, dim]), Prod([groups, 1, dim]);
    if u[1] < per then Flat([groups, per, dim], u)
    else if u[1] == per then q + Flat([groups, 1, dim], [u[0], 0, u[2]])
    else q + k + Flat([groups, 1, dim], [u[0], 0, u[2]])
  }

  lemma BlockRowPlace(groups: nat, size: nat, dim: nat, offset: nat, count: nat, row: nat)
    requires row < Prod([groups, count, dim]) && offset + count <= size
    ensures BlockRow(groups, size, dim, offset, count, row) < Prod([groups, size, dim])
    ensures var u := Unflat([groups, count, dim], row);
            && Unflat([groups, size, dim], BlockRow(groups, size, dim, offset, count, row)) == [u[0], offset + u[1], u[2]]
            && Flat([groups, count, dim], u) == row
  {
    var u := Unflat([groups, count, dim], row);
    FlatBound([groups, size, dim], [u[0], offset + u[1], u[2]]);
    UnflatFlat([groups, size, dim], [u[0], offset + u[1], u[2]]);
    FlatUnflat([groups, count, dim], row);
  }

  lemma PlaceBlockRow(groups: nat, size: nat, dim: nat, offset: nat, count: nat, from: nat, v: Index)
    requires from < Prod([groups, size, dim]) && offset + count <= size
    requires var u := Unflat([groups, size, dim], from); offset <= u[1] < offset + count && v == [u[0], u[1] - offset, u[2]]
    ensures Flat([groups, count, dim], v) < Prod([groups, count, dim])
    ensures BlockRow(groups, size, dim, offset, count, Flat([groups, count, dim], v)) == from
  {
    var u := Unflat([groups, size, dim], from);
    FlatBound([groups, count, dim], v);
    UnflatFlat([groups, count, dim], v);
    FlatUnflat([groups, size, dim], from);
    assert u == [v[0], offset + v[1], v[2]];
  }

  /** Every row has one place and every place one row: none is lost and none is repeated. */
  lemma GroupedRowIsBijective(groups: nat, per: nat, dim: nat, row: nat)
    requires row < FusedRows(groups, per, dim)
    ensures GroupedRow(groups, per, dim, row) < FusedRows(groups, per, dim)
    ensures GroupedPlace(groups, per, dim, GroupedRow(groups, per, dim, row)) == row
    ensures GroupedPlace(groups, per, dim, row) < FusedRows(groups, per, dim)
    ensures GroupedRow(groups, per, dim, GroupedPlace(groups, per, dim, row)) == row
  {
    PlaceOfGroupedRow(groups, per, dim, row);
    GroupedRowOfPlace(groups, per, dim, row);
  }

  lemma PlaceOfQueryRow(groups: nat, per: nat, dim: nat, row: nat)
    requires row < Prod([groups, per, dim])
    ensures var from := BlockRow(groups, per + 2, dim, 0, per, row);
            from < FusedRows(groups, per, dim) && GroupedPlace(groups, per, dim, from) == row
  {
    BlockRowPlace(groups, per + 2, dim, 0, per, row);
    var u := Unflat([groups, per, dim], row);
    assert [u[0], 0 + u[1], u[2]] == u;
  }

  lemma PlaceOfKeyRow(groups: nat, per: nat, dim: nat, row: nat)
    requires row < Prod([groups, 1, dim])
    ensures var from := BlockRow(groups, per + 2, dim, per, 1, row);
            from < FusedRows(groups, per, dim) && GroupedPlace(groups, per, dim, from) == Prod([groups, per, dim]) + row
  {
    BlockRowPlace(groups, per + 2, dim, per, 1, row);
    var u := Unflat([groups, 1, dim], row);
    assert [u[0], 0, u[2]] == u;
  }

  lemma PlaceOfValueRow(groups: nat, per: nat, dim: nat, row: nat)
    requires row < Prod([groups, 1, dim])
    ensures var from := BlockRow(groups, per + 2, dim, per + 1, 1, row);
            && from < FusedRows(groups, per, dim)
            && GroupedPlace(groups, per, dim, from) == Prod([groups, per, dim]) + Prod([groups, 1, dim]) + row
  {
    BlockRowPlace(groups, per + 2, dim, per + 1, 1, row);
    var u := Unflat([groups, 1, dim], row);
    assert [u[0], 0, u[2]] == u;
  }

  lemma PlaceOfGroupedRow(groups: nat, per: nat, dim: nat, row: nat)
    requires row < FusedRows(groups, per, dim)
    ensures GroupedRow(groups, per, dim, row) < FusedRows(groups, per, dim)
    ensures GroupedPlace(groups, per, dim, GroupedRow(groups, per, dim, row)) == row
  {
    GroupRows(groups, per, dim);
    var q, k := Prod([groups, per, dim]), Prod([groups, 1, dim]);
    if row < q {
      PlaceOfQueryRow(groups, per, dim, row);
    } else if row < q + k {
      PlaceOfKeyRow(groups, per, dim, row - q);
    } else {
      PlaceOfValueRow(groups, per, dim, row - q - k);
    }
  }

  lemma QueryRowOfPlace(groups: nat, per: nat, size: nat, dim: nat, from: nat, u: Index)
    requires size == per + 2 && from < FusedRows(groups, per, dim) && u == Unflat([groups, size, dim], from) && u[1] < per
    ensures GroupedPlace(groups, per, dim, from) < Prod([groups, per, dim])
    ensures BlockRow(groups, size, dim, 0, per, GroupedPlace(groups, per, dim, from)) == from
  {
    assert u == [u[0], u[1] - 0, u[2]];
    PlaceBlockRow(groups, size, dim, 0, per, from, u);
  }

  lemma SingleRowOfPlace(groups: nat, size: nat, dim: nat, head: nat, from: nat, u: Index, v: Index)
    requires from < Prod([groups, size, dim]) && u == Unflat([groups, size, dim], from) && u[1] == head && v == [u[0], 0, u[2]]
    ensures Flat([groups, 1, dim], v) < Prod([groups, 1, dim])
    ensures BlockRow(groups, size, dim, head, 1, Flat([groups, 1, dim], v)) == from
  {
    PlaceBlockRow(groups, size, dim, head, 1, from, v);
  }

  lemma GroupedRowOfPlace(groups: nat, per: nat, dim: nat, from: nat)
    requires from < FusedRows(groups, per, dim)
    ensures GroupedPlace(groups, per, dim, from) < FusedRows(groups, per, dim)
    ensures GroupedRow(groups, per, dim, GroupedPlace(groups, per, dim, from)) == from
  {
    GroupRows(groups, per, dim);
    var size, last := per + 2, per + 1;
    var u := Unflat([groups, size, dim], from);
    if u[1] < per {
      QueryRowOfPlace(groups, per, size, dim, from, u);
    } else if u[1] == per {
      SingleRowOfPlace(groups, size, dim, per, from, u, [u[0], 0, u[2]]);
    } else {
      SingleRowOfPlace(groups, size, dim, last, from, u, [u[0], 0, u[2]]);
    }
  }

  // the parts of the Falcon re-layout

  lemma FourPicks(groups: nat, size: nat, dim: nat, cols: nat, ixs: seq<Ix>, ix: Ix, p: Pick)
    requires PickOf(ix, size) == Some(p) && Pad(ixs, 4) == [ALL, ix, ALL, ALL]
    ensures Picks([groups, size, dim] + [cols], Pad(ixs, 4)) == Some([Full(groups), p, Full(dim)] + [Full(cols)])
  {
    var shape, picks := [groups, size, dim] + [cols], [Full(groups), p, Full(dim)] + [Full(cols)];
    FullIsAll(groups);
    FullIsAll(dim);
    FullIsAll(cols);
    PicksAre(shape, Pad(ixs, 4), picks);
  }

  lemma PickedHeads(groups: nat, dim: nat, p: Pick)
    requires p.keep
    ensures PickedShape([Full(groups), p, Full(dim)]) == [groups, |p.positions|, dim]
  {
    assert [Full(groups), p, Full(dim)][1..] == [p, Full(dim)] && [p, Full(dim)][1..] == [Full(dim)];
    assert [Full(dim)][1..] == [] && PickedShape([Full(dim)]) == [dim];
    assert PickedShape([p, Full(dim)]) == [|p.positions|] + [dim];
  }

  lemma SourceOfHeads(groups: nat, dim: nat, p: Pick, u: Index)
    requires p.keep && InBounds([groups, |p.positions|, dim], u)
    ensures Source([Full(groups), p, Full(dim)], u) == [u[0], p.positions[u[1]], u[2]]
  {
    assert [Full(groups), p, Full(dim)][1..] == [p, Full(dim)] && [p, Full(dim)][1..] == [Full(dim)];
    assert [Full(dim)][1..] == [] && u[1..][0] == u[1] && u[1..][1..] == [u[2]] && [u[2]][1..] == [];
    assert Range(0, groups)[u[0]] == u[0] && Range(0, dim)[u[2]] == u[2];
    assert Source([Full(dim)], [u[2]]) == [u[2]];
    assert Source([p, Full(dim)], u[1..]) == [p.positions[u[1]]] + [u[2]];
  }

  /** `part` holds the rows of some heads of every group of the fused weights `t`. */
  ghost predicate IsBlock(part: Tensor, t: Tensor, groups: nat, size: nat, dim: nat, offset: nat, count: nat, cols: nat) {
    && part.shape == [Prod([groups, count, dim]), cols]
    && forall row: nat, c: nat :: row < Prod([groups, count, dim]) && c < cols ==>
         BlockRowAt(part, t, groups, size, dim, offset, count, row, c)
  }

  ghost predicate BlockRowAt(part: Tensor, t: Tensor, groups: nat, size: nat, dim: nat, offset: nat, count: nat, row: nat, c: nat)
    requires row < Prod([groups, count, dim])
  {
    At(part, [row] + [c]) == At(t, [BlockRow(groups, size, dim, offset, count, row)] + [c])
  }

  lemma SelectedBlockRow(t: Tensor, all: Tensor, groups: nat, size: nat, dim: nat, cols: nat, p: Pick, offset: nat, s: Tensor,
                         part: Tensor, row: nat, c: nat)
    requires t.shape == [Prod([groups, size, dim]), cols] && all.shape == [groups, size, dim] + [cols] && t.data == all.data
    requires p.keep && p.positions == Range(offset, offset + |p.positions|)
    requires PicksFit([groups, size, dim], [Full(groups), p, Full(dim)])
    requires IsSelected(s, all, [Full(groups), p, Full(dim)] + [Full(cols)])
    requires s.shape == [groups, |p.positions|, dim] + [cols]
    requires part.data == s.data && part.shape == [Prod([groups, |p.positions|, dim]), cols]
    requires row < Prod([groups, |p.positions|, dim]) && c < cols
    ensures BlockRowAt(part, t, groups, size, dim, offset, |p.positions|, row, c)
  {
    PickedHeads(groups, dim, p);
    PartRow(t, all, Prod([groups, size, dim]), [groups, size, dim], [Full(groups), p, Full(dim)], s, part, cols, row, c);
    SourceOfHeads(groups, dim, p, Unflat([groups, |p.positions|, dim], row));
  }

  lemma FalconPartIsBlock(t: Tensor, all: Tensor, groups: nat, size: nat, dim: nat, cols: nat, ix: Ix, p: Pick, offset: nat,
                          rows: nat, part: Tensor)
    requires t.shape == [Prod([groups, size, dim]), cols] && all.shape == [groups, size, dim] + [cols] && t.data == all.data
    requires PickOf(ix, size) == Some(p) && p.keep && p.positions == Range(offset, offset + |p.positions|)
    requires FalconPart(Plain(all), ix, rows, cols) == Some(Plain(part)) && cols > 0
    ensures IsBlock(part, t, groups, size, dim, offset, |p.positions|, cols)
  {
    var picks := [Full(groups), p, Full(dim)];
    assert Pad([ALL, ix], 4) == [ALL, ix, ALL, ALL];
    FourPicks(groups, size, dim, cols, [ALL, ix], ix, p);
    var s := PartSteps(all, [groups, size, dim], picks, [ALL, ix], cols);
    PickedHeads(groups, dim, p);
    ReshapeToShape(s, [rows, cols]);
    assert part == Tensor([rows, cols], s.data) && [rows, cols] == [rows] + [cols];
    SameRowCount(PickedShape(picks), rows, [cols], [0]);
    forall row: nat, c: nat | row < rows && c < cols
      ensures BlockRowAt(part, t, groups, size, dim, offset, |p.positions|, row, c)
    {
      SelectedBlockRow(t, all, groups, size, dim, cols, p, offset, s, part, row, c);
    }
  }

  predicate IsMatrix(t: Tensor, rows: nat, cols: nat) {
    t.shape == [rows, cols]
  }

  lemma CatOfThree(q: Tensor, k: Tensor, v: Tensor, e: Tensor, m: nat, n: nat, cols: nat, row: nat, c: nat)
    requires IsMatrix(q, m, cols) && IsMatrix(k, n, cols) && IsMatrix(v, n, cols)
    requires Concatenated(Plain(q), Plain(k), Plain(v)) == Some(Plain(e)) && row < m + n + n && c < cols
    ensures IsMatrix(e, m + n + n, cols)
    ensures At(e, [row] + [c]) == if row < m then At(q, [row] + [c])
                                  else if row < m + n then At(k, [row - m] + [c])
                                  else At(v, [row - m - n] + [c])
  {
    CatIsCat([q, k, v]);
    LocateInThree(q, k, v, m, n, cols, row);
    assert RowAt(e, [q, k, v], row, [c]);
  }

  lemma LocateLater(ts: seq<Tensor>, row: nat)
    requires forall i :: 0 <= i < |ts| ==> ts[i].shape != []
    requires ts != [] && row < TotalRows(ts)
    ensures TotalRows(ts) == ts[0].shape[0] + TotalRows(ts[1..])
    ensures Locate(ts, row) == if row < ts[0].shape[0] then (0, row)
                               else (Locate(ts[1..], row - ts[0].shape[0]).0 + 1, Locate(ts[1..], row - ts[0].shape[0]).1)
  {
  }

  lemma TotalOfThree(q: Tensor, k: Tensor, v: Tensor, m: nat, n: nat, cols: nat)
    requires IsMatrix(q, m, cols) && IsMatrix(k, n, cols) && IsMatrix(v, n, cols)
    ensures TotalRows([v]) == n && TotalRows([k, v]) == n + n && TotalRows([q, k, v]) == m + n + n
  {
    assert [q, k, v][1..] == [k, v] && [k, v][1..] == [v] && [v][1..] == [];
  }

  lemma LocateInThree(q: Tensor, k: Tensor, v: Tensor, m: nat, n: nat, cols: nat, row: nat)
    requires IsMatrix(q, m, cols) && IsMatrix(k, n, cols) && IsMatrix(v, n, cols) && row < m + n + n
    ensures TotalRows([q, k, v]) == m + n + n
    ensures Locate([q, k, v], row) == if row < m then (0, row) else if row < m + n then (1, row - m) else (2, row - m - n)
  {
    TotalOfThree(q, k, v, m, n, cols);
    assert [q, k, v][1..] == [k, v] && [k, v][1..] == [v];
    LocateLater([q, k, v], row);
    if row >= m {
      LocateLater([k, v], row - m);
      if row >= m + n {
        LocateLater([v], row - m - n);
      }
    }
  }

  /** The pieces of a successful Falcon re-layout. */
  lemma FalconSteps(t: Tensor, r: Tensor, groups: nat, per: nat, dim: nat, queryRows: nat, keyRows: nat, cols: nat)
      returns (all: Tensor, q: Tensor, k: Tensor, v: Tensor, e: Tensor)
    requires FalconRearranged(Plain(t), groups, per, dim, queryRows, keyRows, cols) == Some(Plain(r))
    ensures all.shape == [groups, per + 2, dim] + [cols] && all.data == t.data
    ensures FalconPart(Plain(all), Slice(None, Some(-2)), queryRows, cols) == Some(Plain(q))
    ensures FalconPart(Plain(all), List([-2]), keyRows, cols) == Some(Plain(k))
    ensures FalconPart(Plain(all), List([-1]), keyRows, cols) == Some(Plain(v))
    ensures Concatenated(Plain(q), Plain(k), Plain(v)) == Some(Plain(e))
    ensures r.data == e.data && r.shape == t.shape
  {
    all := ReadAs(t, groups, per, dim, cols, GroupArgs(groups, per, dim, cols));
    q := FalconPart(Plain(all), Slice(None, Some(-2)), queryRows, cols).value.t;
    k := FalconPart(Plain(all), List([-2]), keyRows, cols).value.t;
    v := FalconPart(Plain(all), List([-1]), keyRows, cols).value.t;
    e := Concatenated(Plain(q), Plain(k), Plain(v)).value.t;
    ReshapeToShape(e, t.shape);
  }

  lemma FalconPicks(per: nat)
    ensures PickOf(Slice(None, Some(-2)), per + 2) == Some(Pick(true, Range(0, per))) && |Range(0, per)| == per
    ensures PickOf(List([-2]), per + 2) == Some(Pick(true, Range(per, per + 1))) && |Range(per, per + 1)| == 1
    ensures PickOf(List([-1]), per + 2) == Some(Pick(true, Range(per + 1, per + 2))) && |Range(per + 1, per + 2)| == 1
  {
    assert DimensionList([-2], per + 2).value == [per] == Range(per, per + 1);
    assert DimensionList([-1], per + 2).value == [per + 1] == Range(per + 1, per + 2);
  }

  lemma ThreeBlocks(t: Tensor, q: Tensor, k: Tensor, v: Tensor, e: Tensor, groups: nat, per: nat, dim: nat, cols: nat, row: nat, c: nat)
    requires row < FusedRows(groups, per, dim) && c < cols
    requires IsBlock(q, t, groups, per + 2, dim, 0, per, cols)
    requires IsBlock(k, t, groups, per + 2, dim, per, 1, cols)
    requires IsBlock(v, t, groups, per + 2, dim, per + 1, 1, cols)
    requires Concatenated(Plain(q), Plain(k), Plain(v)) == Some(Plain(e))
    ensures e.shape == [FusedRows(groups, per, dim), cols]
    ensures At(e, [row] + [c]) == At(t, [GroupedRow(groups, per, dim, row)] + [c])
  {
    GroupRows(groups, per, dim);
    var m, n := Prod([groups, per, dim]), Prod([groups, 1, dim]);
    CatOfThree(q, k, v, e, m, n, cols, row, c);
    if row < m {
      assert BlockRowAt(q, t, groups, per + 2, dim, 0, per, row, c);
    } else if row < m + n {
      assert BlockRowAt(k, t, groups, per + 2, dim, per, 1, row - m, c);
    } else {
      assert BlockRowAt(v, t, groups, per + 2, dim, per + 1, 1, row - m - n, c);
    }
  }

  lemma FalconBlocks(t: Tensor, all: Tensor, q: Tensor, k: Tensor, v: Tensor, groups: nat, per: nat, dim: nat, queryRows: nat,
                     keyRows: nat, cols: nat)
    requires t.shape == [FusedRows(groups, per, dim), cols] && cols > 0
    requires all.shape == [groups, per + 2, dim] + [cols] && all.data == t.data
    requires FalconPart(Plain(all), Slice(None, Some(-2)), queryRows, cols) == Some(Plain(q))
    requires FalconPart(Plain(all), List([-2]), keyRows, cols) == Some(Plain(k))
    requires FalconPart(Plain(all), List([-1]), keyRows, cols) == Some(Plain(v))
    ensures IsBlock(q, t, groups, per + 2, dim, 0, per, cols)
    ensures IsBlock(k, t, groups, per + 2, dim, per, 1, cols)
    ensures IsBlock(v, t, groups, per + 2, dim, per + 1, 1, cols)
  {
    FalconPicks(per);
    FalconPartIsBlock(t, all, groups, per + 2, dim, cols, Slice(None, Some(-2)), Pick(true, Range(0, per)), 0, queryRows, q);
    FalconPartIsBlock(t, all, groups, per + 2, dim, cols, List([-2]), Pick(true, Range(per, per + 1)), per, keyRows, k);
    FalconPartIsBlock(t, all, groups, per + 2, dim, cols, List([-1]), Pick(true, Range(per + 1, per + 2)), per + 1, keyRows, v);
  }

  lemma ReadingHasAllRows(t: Tensor, all: Tensor, groups: nat, size: nat, dim: nat, rows: nat, cols: nat)
    requires t.shape == [rows, cols] && cols > 0 && all.shape == [groups, size, dim] + [cols] && all.data == t.data
    ensures rows == Prod([groups, size, dim])
  {
    assert t.shape == [rows] + [cols];
    SameRowCount([groups, size, dim], rows, [cols], [0]);
  }

  lemma FalconRearrangedMovesRows(t: Tensor, r: Tensor, groups: nat, per: nat, dim: nat, queryRows: nat, keyRows: nat, rows: nat,
                                  cols: nat, row: nat, c: nat)
    requires t.shape == [rows, cols] && row < rows && c < cols
    requires FalconRearranged(Plain(t), groups, per, dim, queryRows, keyRows, cols) == Some(Plain(r))
    ensures r.shape == t.shape && rows == FusedRows(groups, per, dim)
    ensures At(r, [row] + [c]) == At(t, [GroupedRow(groups, per, dim, row)] + [c])
  {
    var all, q, k, v, e := FalconSteps(t, r, groups, per, dim, queryRows, keyRows, cols);
    ReadingHasAllRows(t, all, groups, per + 2, dim, rows, cols);
    FalconBlocks(t, all, q, k, v, groups, per, dim, queryRows, keyRows, cols);
    ThreeBlocks(t, q, k, v, e, groups, per, dim, cols, row, c);
    assert r == e;
  }

  /** Row `row` of the Falcon re-layout is row GroupedRow of the fused weights, a bijection of the rows. */
  lemma FalconMovesRows(t: Tensor, r: Tensor, heads: nat, kvHeads: nat, hidden: nat, s: FalconSizes, rows: nat, row: nat, c: nat)
    requires FalconSizesOf(heads, kvHeads, hidden) == Some(s) && t.shape == [rows, s.cols] && row < rows && c < s.cols
    requires FalconQkv(Plain(t), heads, kvHeads, hidden) == Some(Plain(r))
    ensures r.shape == t.shape && rows == FusedRows(kvHeads, s.per, s.dim)
    ensures At(r, [row] + [c]) == At(t, [GroupedRow(kvHeads, s.per, s.dim, row)] + [c])
  {
    FalconRearrangedMovesRows(t, r, kvHeads, s.per, s.dim, s.queryRows, s.keyRows, rows, s.cols, row, c);
  }

  // the parts of the Bloom re-layout

  lemma DroppedMiddle(heads: nat, dim: nat, part: nat, u: Index)
    requires InBounds([heads, dim], u)
    ensures var picks := [Full(heads), Pick(false, [part]), Full(dim)];
            PickedShape(picks) == [heads, dim] && Source(picks, u) == [u[0], part, u[1]]
  {
    var p := Pick(false, [part]);
    assert [Full(heads), p, Full(dim)][1..] == [p, Full(dim)] && [p, Full(dim)][1..] == [Full(dim)];
    assert [Full(dim)][1..] == [] && PickedShape([Full(dim)]) == [dim] && PickedShape([p, Full(dim)]) == [dim];
    assert u[1..] == [u[1]] && [u[1]][1..] == [];
    assert Range(0, heads)[u[0]] == u[0] && Range(0, dim)[u[1]] == u[1];
    assert Source([Full(dim)], [u[1]]) == [u[1]];
    assert Source([p, Full(dim)], u[1..]) == [part] + [u[1]];
  }

  /** A dimension of size one does not change the numbering. */
  lemma UnitMiddle(heads: nat, dim: nat, u: Index)
    requires InBounds([heads, dim], u)
    ensures Prod([heads, 1, dim]) == Prod([heads, dim]) && Flat([heads, dim], u) < Prod([heads, dim])
    ensures Unflat([heads, 1, dim], Flat([heads, dim], u)) == [u[0], 0, u[1]]
  {
    UnitProduct(heads, dim);
    FlatBound([heads, dim], u);
    FlatOfPair(heads, dim, u[0], u[1]);
    assert u == [u[0], u[1]];
    UnflatFlat([heads, 1, dim], [u[0], 0, u[1]]);
  }

  lemma UnitProduct(heads: nat, dim: nat)
    ensures Prod([heads, 1, dim]) == Prod([heads, dim])
  {
    ProdOfThree(heads, 1, dim);
    ProdOfTwo(heads, dim);
    TimesIs(1, dim);
  }

  lemma FlatOfPair(heads: nat, dim: nat, x: nat, y: nat)
    ensures Flat([heads, dim], [x, y]) == Flat([heads, 1, dim], [x, 0, y])
  {
    FlatOne(dim, y);
    TimesIs(1, dim);
    TimesIs(0, dim);
    assert [heads, dim][1..] == [dim] && [x, y][1..] == [y];
    assert [heads, 1, dim][1..] == [1, dim] && [x, 0, y][1..] == [0, y] && [1, dim][1..] == [dim] && [0, y][1..] == [y];
    assert Prod([1, dim]) == dim && Flat([1, dim], [0, y]) == y;
  }

  lemma DroppedBlockRow(t: Tensor, all: Tensor, heads: nat, size: nat, dim: nat, cols: nat, part: nat, s: Tensor, x: Tensor,
                        row: nat, c: nat)
    requires t.shape == [Prod([heads, size, dim]), cols] && all.shape == [heads, size, dim] + [cols] && t.data == all.data
    requires part < size && PicksFit([heads, size, dim], [Full(heads), Pick(false, [part]), Full(dim)])
    requires IsSelected(s, all, [Full(heads), Pick(false, [part]), Full(dim)] + [Full(cols)])
    requires s.shape == [heads, dim] + [cols] && PickedShape([Full(heads), Pick(false, [part]), Full(dim)]) == [heads, dim]
    requires x.data == s.data && x.shape == [Prod([heads, dim]), cols]
    requires row < Prod([heads, dim]) == Prod([heads, 1, dim]) && c < cols
    ensures BlockRowAt(x, t, heads, size, dim, part, 1, row, c)
  {
    PartRow(t, all, Prod([heads, size, dim]), [heads, size, dim], [Full(heads), Pick(false, [part]), Full(dim)], s, x, cols, row, c);
    var u := Unflat([heads, dim], row);
    DroppedMiddle(heads, dim, part, u);
    FlatUnflat([heads, dim], row);
    UnitMiddle(heads, dim, u);
  }

  lemma PickedPair(heads: nat, dim: nat, part: nat)
    ensures PickedShape([Full(heads), Pick(false, [part]), Full(dim)]) == [heads, dim]
    ensures Prod([heads, dim]) == Prod([heads, 1, dim])
  {
    var p := Pick(false, [part]);
    assert [Full(heads), p, Full(dim)][1..] == [p, Full(dim)] && [p, Full(dim)][1..] == [Full(dim)];
    assert [Full(dim)][1..] == [] && PickedShape([Full(dim)]) == [dim] && PickedShape([p, Full(dim)]) == [dim];
    UnitProduct(heads, dim);
  }

  /** One head of every group, read as rows. */
  lemma DroppedSteps(all: Tensor, heads: nat, size: nat, dim: nat, cols: nat, ixs: seq<Ix>, ix: Ix, part: nat, s: Tensor, x: Tensor)
    requires all.shape == [heads, size, dim] + [cols] && cols > 0 && 0 < |ixs| <= 4
    requires PickOf(ix, size) == Some(Pick(false, [part])) && Pad(ixs, 4) == [ALL, ix, ALL, ALL]
    requires Indexed(Plain(all), ixs) == Some(Plain(s)) && Reshaped(Plain(s), [-1, cols as int]) == Some(Plain(x))
    ensures var picks := [Full(heads), Pick(false, [part]), Full(dim)];
            IsSelected(s, all, picks + [Full(cols)]) && PicksFit([heads, size, dim], picks)
    ensures s.shape == [heads, dim] + [cols] && x.data == s.data && x.shape == [Prod([heads, dim]), cols]
  {
    var p := Pick(false, [part]);
    FourPicks(heads, size, dim, cols, ixs, ix, p);
    var s' := PartSteps(all, [heads, size, dim], [Full(heads), p, Full(dim)], ixs, cols);
    PickedPair(heads, dim, part);
    RowsOfReshape(s, [heads, dim], cols, x);
  }

  lemma RowsOfReshape(s: Tensor, lead: Shape, cols: nat, x: Tensor)
    requires s.shape == lead + [cols] && cols > 0 && Reshaped(Plain(s), [-1, cols as int]) == Some(Plain(x))
    ensures x.data == s.data && x.shape == [Prod(lead), cols]
  {
    var args := [-1, cols as int];
    ResolvedAt(Prod(s.shape), args, 1);
    var rows := x.shape[0];
    assert x.shape == [rows] + [cols];
    SameRowCount(lead, rows, [cols], [0]);
  }

  lemma DroppedIsBlock(t: Tensor, all: Tensor, heads: nat, size: nat, dim: nat, cols: nat, ixs: seq<Ix>, ix: Ix, part: nat, s: Tensor,
                       x: Tensor)
    requires t.shape == [Prod([heads, size, dim]), cols] && all.shape == [heads, size, dim] + [cols] && t.data == all.data
    requires cols > 0 && part < size && 0 < |ixs| <= 4
    requires PickOf(ix, size) == Some(Pick(false, [part])) && Pad(ixs, 4) == [ALL, ix, ALL, ALL]
    requires Indexed(Plain(all), ixs) == Some(Plain(s)) && Reshaped(Plain(s), [-1, cols as int]) == Some(Plain(x))
    ensures IsBlock(x, t, heads, size, dim, part, 1, cols)
  {
    DroppedSteps(all, heads, size, dim, cols, ixs, ix, part, s, x);
    PickedPair(heads, dim, part);
    forall row: nat, c: nat | row < Prod([heads, 1, dim]) && c < cols ensures BlockRowAt(x, t, heads, size, dim, part, 1, row, c) {
      DroppedBlockRow(t, all, heads, size, dim, cols, part, s, x, row, c);
    }
  }

  lemma BloomPartIsBlock(t: Tensor, all: Tensor, heads: nat, dim: nat, cols: nat, part: nat, x: Tensor)
    requires t.shape == [Prod([heads, 3, dim]), cols] && all.shape == [heads, 3, dim] + [cols] && t.data == all.data
    requires part < 3 && BloomPart(Plain(all), part, cols) == Some(Plain(x)) && cols > 0
    ensures IsBlock(x, t, heads, 3, dim, part, 1, cols)
  {
    var ixs := [ALL, Int(part), ALL, ALL];
    assert Pad(ixs, 4) == ixs && PickOf(Int(part), 3) == Some(Pick(false, [part]));
    var s := Indexed(Plain(all), ixs).value.t;
    DroppedIsBlock(t, all, heads, 3, dim, cols, ixs, Int(part), part, s, x);
  }

  /** The pieces of a successful Bloom re-layout. */
  lemma BloomSteps(t: Tensor, r: Tensor, heads: nat, dim: nat, cols: nat) returns (all: Tensor, q: Tensor, k: Tensor, v: Tensor)
    requires BloomSplit(Plain(t), heads, dim, cols) == Some(Plain(r))
    ensures all.shape == [heads, 3, dim] + [cols] && all.data == t.data
    ensures BloomPart(Plain(all), 0, cols) == Some(Plain(q)) && BloomPart(Plain(all), 1, cols) == Some(Plain(k))
    ensures BloomPart(Plain(all), 2, cols) == Some(Plain(v))
    ensures Concatenated(Plain(q), Plain(k), Plain(v)) == Some(Plain(r))
  {
    ReshapeToShape(t, [heads, 3, dim, cols]);
    all := Reshaped(Plain(t), [heads, 3, dim, cols]).value.t;
    q, k := BloomPart(Plain(all), 0, cols).value.t, BloomPart(Plain(all), 1, cols).value.t;
    v := BloomPart(Plain(all), 2, cols).value.t;
  }

  /** Row `row` of the Bloom and GPT-NeoX re-layout: each head is a group with one query head. */
  lemma BloomMovesRows(t: Tensor, r: Tensor, heads: nat, dim: nat, rows: nat, cols: nat, row: nat, c: nat)
    requires t.shape == [rows, cols] && row < rows && c < cols
    requires BloomSplit(Plain(t), heads, dim, cols) == Some(Plain(r))
    ensures r.shape == t.shape && rows == FusedRows(heads, 1, dim)
    ensures At(r, [row] + [c]) == At(t, [GroupedRow(heads, 1, dim, row)] + [c])
  {
    var all, q, k, v := BloomSteps(t, r, heads, dim, cols);
    ReadingHasAllRows(t, all, heads, 3, dim, rows, cols);
    BloomPartIsBlock(t, all, heads, dim, cols, 0, q);
    BloomPartIsBlock(t, all, heads, dim, cols, 1, k);
    BloomPartIsBlock(t, all, heads, dim, cols, 2, v);
    ThreeBlocks(t, q, k, v, r, heads, 1, dim, cols, row, c);
  }

  // ----- InternLM2: the parts of the groups, with the heads of query and key permuted -----

  /** Some heads of every group, read as rows. */
  lemma KeptIsBlock(t: Tensor, all: Tensor, groups: nat, size: nat, dim: nat, cols: nat, ix: Ix, p: Pick, offset: nat, s: Tensor,
                    x: Tensor)
    requires t.shape == [Prod([groups, size, dim]), cols] && all.shape == [groups, size, dim] + [cols] && t.data == all.data
    requires PickOf(ix, size) == Some(p) && p.keep && p.positions == Range(offset, offset + |p.positions|) && cols > 0
    requires Indexed(Plain(all), [ALL, ix]) == Some(Plain(s)) && Reshaped(Plain(s), [-1, cols as int]) == Some(Plain(x))
    ensures IsBlock(x, t, groups, size, dim, offset, |p.positions|, cols)
  {
    var picks := [Full(groups), p, Full(dim)];
    assert Pad([ALL, ix], 4) == [ALL, ix, ALL, ALL];
    FourPicks(groups, size, dim, cols, [ALL, ix], ix, p);
    var s' := PartSteps(all, [groups, size, dim], picks, [ALL, ix], cols);
    PickedHeads(groups, dim, p);
    RowsOfReshape(s, [groups, |p.positions|, dim], cols, x);
    forall row: nat, c: nat | row < Prod([groups, |p.positions|, dim]) && c < cols
      ensures BlockRowAt(x, t, groups, size, dim, offset, |p.positions|, row, c)
    {
      SelectedBlockRow(t, all, groups, size, dim, cols, p, offset, s, x, row, c);
    }
  }

  lemma InternLm2Picks(per: nat, size: nat, last: nat)
    requires size == per + 2 && last == per + 1
    ensures PickOf(Slice(None, Some(per)), size) == Some(Pick(true, Range(0, per))) && |Range(0, per)| == per
    ensures PickOf(Int(-2), size) == Some(Pick(false, [per])) && PickOf(Int(-1), size) == Some(Pick(false, [last]))
  {
  }

  /** The rows of query, key and value before the heads are permuted. */
  lemma InternLm2Blocks(t: Tensor, groups: nat, per: nat, size: nat, last: nat, dim: nat, rows: nat, cols: nat, heads: nat,
                        kvHeads: nat, parts: (Weights, Weights, Weights))
      returns (q: Tensor, k: Tensor, v: Tensor)
    requires t.shape == [rows, cols] && cols > 0 && size == per + 2 && last == per + 1
    requires InternLm2Parts(Plain(t), groups, per, dim, cols, heads, kvHeads) == Some(parts)
    ensures rows == Prod([groups, size, dim])
    ensures IsBlock(q, t, groups, size, dim, 0, per, cols) && LlamaPermute(Plain(q), heads, Some(heads)) == Some(parts.0)
    ensures IsBlock(k, t, groups, size, dim, per, 1, cols) && LlamaPermute(Plain(k), heads, Some(kvHeads)) == Some(parts.1)
    ensures IsBlock(v, t, groups, size, dim, last, 1, cols) && parts.2 == Plain(v)
  {
    var all := InternLm2Reading(t, groups, per, size, dim, cols, heads, kvHeads, parts);
    ReadingHasAllRows(t, all, groups, size, dim, rows, cols);
    InternLm2Picks(per, size, last);
    q := QueryBlock(t, all, groups, size, dim, cols, heads, per);
    k := KeyBlock(t, all, groups, size, dim, cols, heads, kvHeads, per);
    v := ValueBlock(t, all, groups, size, dim, cols, last);
  }

  lemma QueryBlock(t: Tensor, all: Tensor, groups: nat, size: nat, dim: nat, cols: nat, heads: nat, per: nat) returns (q: Tensor)
    requires t.shape == [Prod([groups, size, dim]), cols] && all.shape == [groups, size, dim] + [cols] && t.data == all.data
    requires cols > 0 && PickOf(Slice(None, Some(per)), size) == Some(Pick(true, Range(0, per))) && |Range(0, per)| == per
    requires InternLm2Query(Plain(all), heads, per).Some?
    ensures IsBlock(q, t, groups, size, dim, 0, per, cols)
    ensures InternLm2Query(Plain(all), heads, per) == LlamaPermute(Plain(q), heads, Some(heads))
  {
    var s;
    s, q := QuerySteps(all, cols, heads, per);
    KeptIsBlock(t, all, groups, size, dim, cols, Slice(None, Some(per)), Pick(true, Range(0, per)), 0, s, q);
  }

  lemma KeyBlock(t: Tensor, all: Tensor, groups: nat, size: nat, dim: nat, cols: nat, heads: nat, kvHeads: nat, per: nat)
      returns (k: Tensor)
    requires t.shape == [Prod([groups, size, dim]), cols] && all.shape == [groups, size, dim] + [cols] && t.data == all.data
    requires cols > 0 && per < size && PickOf(Int(-2), size) == Some(Pick(false, [per]))
    requires InternLm2Key(Plain(all), heads, kvHeads).Some?
    ensures IsBlock(k, t, groups, size, dim, per, 1, cols)
    ensures InternLm2Key(Plain(all), heads, kvHeads) == LlamaPermute(Plain(k), heads, Some(kvHeads))
  {
    var s;
    s, k := KeySteps(all, cols, heads, kvHeads);
    DroppedIsBlock(t, all, groups, size, dim, cols, [ALL, Int(-2)], Int(-2), per, s, k);
  }

  lemma ValueBlock(t: Tensor, all: Tensor, groups: nat, size: nat, dim: nat, cols: nat, last: nat) returns (v: Tensor)
    requires t.shape == [Prod([groups, size, dim]), cols] && all.shape == [groups, size, dim] + [cols] && t.data == all.data
    requires cols > 0 && last < size && PickOf(Int(-1), size) == Some(Pick(false, [last]))
    requires InternLm2Value(Plain(all)).Some?
    ensures IsBlock(v, t, groups, size, dim, last, 1, cols) && InternLm2Value(Plain(all)) == Some(Plain(v))
  {
    var s;
    s, v := ValueSteps(all, cols);
    DroppedIsBlock(t, all, groups, size, dim, cols, [ALL, Int(-1)], Int(-1), last, s, v);
  }

  lemma InternLm2Reading(t: Tensor, groups: nat, per: nat, size: nat, dim: nat, cols: nat, heads: nat, kvHeads: nat,
                         parts: (Weights, Weights, Weights))
      returns (all: Tensor)
    requires size == per + 2
    requires InternLm2Parts(Plain(t), groups, per, dim, cols, heads, kvHeads) == Some(parts)
    ensures all.shape == [groups, size, dim] + [cols] && all.data == t.data
    ensures InternLm2Query(Plain(all), heads, per) == Some(parts.0)
    ensures InternLm2Key(Plain(all), heads, kvHeads) == Some(parts.1) && InternLm2Value(Plain(all)) == Some(parts.2)
  {
    var args := GroupArgs(groups, per, dim, cols);
    var qkv := Reshaped(Plain(t), args).value;
    all := ReadAs(t, groups, per, dim, cols, args);
    TripleIs(InternLm2Query(qkv, heads, per), InternLm2Key(qkv, heads, kvHeads), InternLm2Value(qkv), parts);
  }

  lemma ReadAs(t: Tensor, groups: nat, per: nat, dim: nat, cols: nat, args: seq<int>) returns (all: Tensor)
    requires args == GroupArgs(groups, per, dim, cols) && Reshaped(Plain(t), args).Some?
    ensures Reshaped(Plain(t), args) == Some(Plain(all)) && all.shape == [groups, per + 2, dim] + [cols] && all.data == t.data
  {
    var shape: Shape := [groups, per + 2, dim, cols];
    ReshapeToShape(t, shape);
    assert args == shape && shape == [groups, per + 2, dim] + [cols];
    all := Reshape(t, shape).value;
  }

  lemma TripleIs(a: Option<Weights>, b: Option<Weights>, c: Option<Weights>, parts: (Weights, Weights, Weights))
    requires Triple(a, b, c) == Some(parts)
    ensures a == Some(parts.0) && b == Some(parts.1) && c == Some(parts.2)
  {
  }

  lemma QuerySteps(all: Tensor, cols: nat, heads: nat, per: nat) returns (s: Tensor, x: Tensor)
    requires InternLm2Query(Plain(all), heads, per).Some? && |all.shape| == 4 && all.shape[3] == cols
    ensures Indexed(Plain(all), [ALL, Slice(None, Some(per))]) == Some(Plain(s))
    ensures Reshaped(Plain(s), [-1, cols as int]) == Some(Plain(x))
    ensures InternLm2Query(Plain(all), heads, per) == LlamaPermute(Plain(x), heads, Some(heads))
  {
    s := Indexed(Plain(all), [ALL, Slice(None, Some(per))]).value.t;
    LastIsKept(all, Slice(None, Some(per)), s);
    x := AsRows(Plain(s)).value.t;
  }

  lemma KeySteps(all: Tensor, cols: nat, heads: nat, kvHeads: nat) returns (s: Tensor, x: Tensor)
    requires InternLm2Key(Plain(all), heads, kvHeads).Some? && |all.shape| == 4 && all.shape[3] == cols
    ensures Indexed(Plain(all), [ALL, Int(-2)]) == Some(Plain(s)) && Reshaped(Plain(s), [-1, cols as int]) == Some(Plain(x))
    ensures InternLm2Key(Plain(all), heads, kvHeads) == LlamaPermute(Plain(x), heads, Some(kvHeads))
  {
    s := Indexed(Plain(all), [ALL, Int(-2)]).value.t;
    LastIsKept(all, Int(-2), s);
    x := AsRows(Plain(s)).value.t;
  }

  lemma ValueSteps(all: Tensor, cols: nat) returns (s: Tensor, x: Tensor)
    requires InternLm2Value(Plain(all)).Some? && |all.shape| == 4 && all.shape[3] == cols
    ensures Indexed(Plain(all), [ALL, Int(-1)]) == Some(Plain(s)) && Reshaped(Plain(s), [-1, cols as int]) == Some(Plain(x))
    ensures InternLm2Value(Plain(all)) == Some(Plain(x))
  {
    s := Indexed(Plain(all), [ALL, Int(-1)]).value.t;
    LastIsKept(all, Int(-1), s);
    x := AsRows(Plain(s)).value.t;
  }

  lemma LastIsKept(all: Tensor, ix: Ix, s: Tensor)
    requires |all.shape| == 4 && Indexed(Plain(all), [ALL, ix]) == Some(Plain(s))
    ensures LastOf(s.shape) == all.shape[3]
  {
    var ixs := Pad([ALL, ix], 4);
    var picks := Picks(all.shape, ixs).value;
    PicksAt(all.shape, ixs, 3);
    FullIsAll(all.shape[3]);
    SelectByIs(all, ixs, picks);
    assert picks == picks[..3] + [Full(all.shape[3])];
    PickedSnoc(picks[..3], Full(all.shape[3]));
  }

  /** Permuting the heads of a block of rows. */
  lemma PermutedBlock(x: Tensor, t: Tensor, r: Tensor, groups: nat, size: nat, dim: nat, offset: nat, count: nat, cols: nat,
                      heads: nat, kvHeads: Option<nat>, row: nat, c: nat)
    requires IsBlock(x, t, groups, size, dim, offset, count, cols) && LlamaPermute(Plain(x), heads, kvHeads) == Some(Plain(r))
    requires row < Prod([groups, count, dim]) && c < cols
    ensures var n := HeadsOf(heads, kvHeads);
            var half := HalfHead(Prod([groups, count, dim]), n);
            && Prod([n, half, 2]) == Prod([groups, count, dim])
            && SwappedRow(n, 2, half, row) < Prod([groups, count, dim])
            && At(r, [row] + [c]) == At(t, [BlockRow(groups, size, dim, offset, count, SwappedRow(n, 2, half, row))] + [c])
  {
    assert x.shape == [Prod([groups, count, dim])] + [cols];
    AppendInBounds([Prod([groups, count, dim])], [cols], [row], [c]);
    LlamaPermuteMovesRows(x, r, heads, kvHeads, row, [c]);
    var n := HeadsOf(heads, kvHeads);
    var from := SwappedRow(n, 2, HalfHead(Prod([groups, count, dim]), n), row);
    assert BlockRowAt(x, t, groups, size, dim, offset, count, from, c);
  }

  /** What the InternLM2 split puts into the rows of each part. */
  ghost predicate InternLm2Rows(t: Tensor, parts: (Weights, Weights, Weights), s: GroupSizes, cols: nat, heads: nat, kvHeads: nat) {
    && IsPermutedBlock(parts.0, t, s, 0, s.perKv, cols, heads)
    && IsPermutedBlock(parts.1, t, s, s.perKv, 1, cols, kvHeads)
    && parts.2.Plain? && IsBlock(parts.2.t, t, s.groups, s.perKv + 2, s.dim, s.perKv + 1, 1, cols)
  }

  ghost predicate IsPermutedBlock(r: Weights, t: Tensor, s: GroupSizes, offset: nat, count: nat, cols: nat, n: nat) {
    && r.Plain? && r.t.shape == [Prod([s.groups, count, s.dim]), cols]
    && forall row: nat, c: nat :: row < Prod([s.groups, count, s.dim]) && c < cols ==>
         PermutedRowAt(r.t, t, s, offset, count, n, row, c)
  }

  /** Row `row` of a part is a row of its block, found with the halves of its head interleaved. */
  ghost predicate PermutedRowAt(r: Tensor, t: Tensor, s: GroupSizes, offset: nat, count: nat, n: nat, row: nat, c: nat)
    requires row < Prod([s.groups, count, s.dim])
  {
    n > 0
    && var half := HalfHead(Prod([s.groups, count, s.dim]), n);
       Prod([n, half, 2]) == Prod([s.groups, count, s.dim])
       && SwappedRow(n, 2, half, row) < Prod([s.groups, count, s.dim])
       && At(r, [row] + [c]) == At(t, [BlockRow(s.groups, s.perKv + 2, s.dim, offset, count, SwappedRow(n, 2, half, row))] + [c])
  }

  lemma RowsFrom(t: Tensor, parts: (Weights, Weights, Weights), s: GroupSizes, size: nat, last: nat, cols: nat, heads: nat,
                 kvHeads: nat, v: Tensor)
    requires IsPermutedBlock(parts.0, t, s, 0, s.perKv, cols, heads)
    requires IsPermutedBlock(parts.1, t, s, s.perKv, 1, cols, kvHeads)
    requires parts.2 == Plain(v) && IsBlock(v, t, s.groups, size, s.dim, last, 1, cols)
    requires size == s.perKv + 2 && last == s.perKv + 1
    ensures InternLm2Rows(t, parts, s, cols, heads, kvHeads)
  {
  }

  lemma PermutedRows(x: Tensor, t: Tensor, r: Weights, s: GroupSizes, size: nat, offset: nat, count: nat, cols: nat, heads: nat,
                     kvHeads: Option<nat>)
    requires size == s.perKv + 2 && IsBlock(x, t, s.groups, size, s.dim, offset, count, cols)
    requires LlamaPermute(Plain(x), heads, kvHeads) == Some(r)
    ensures IsPermutedBlock(r, t, s, offset, count, cols, HeadsOf(heads, kvHeads))
  {
    LlamaPermuteUndone(x, r.t, heads, kvHeads);
    forall row: nat, c: nat | row < Prod([s.groups, count, s.dim]) && c < cols
      ensures PermutedRowAt(r.t, t, s, offset, count, HeadsOf(heads, kvHeads), row, c)
    {
      PermutedBlock(x, t, r.t, s.groups, size, s.dim, offset, count, cols, heads, kvHeads, row, c);
    }
  }

  /**
   * Every row of the three parts of the InternLM2 split is a row of the fused weights: for the query one of the query heads
   * of a group and for the key its key head, with the halves of the head interleaved, for the value its value head as it is.
   */
  lemma InternLm2MovesRows(t: Tensor, parts: (Weights, Weights, Weights), heads: nat, kvHeads: nat, embd: nat, s: GroupSizes, rows: nat)
    requires t.shape == [rows, embd] && embd > 0 && InternLm2Sizes(heads, kvHeads, embd) == Some(s)
    requires InternLm2Split(Plain(t), heads, kvHeads, embd) == Some(parts)
    ensures rows == FusedRows(s.groups, s.perKv, s.dim) && InternLm2Rows(t, parts, s, embd, heads, kvHeads)
  {
    var size, last := s.perKv + 2, s.perKv + 1;
    InternLm2PartsMoveRows(t, parts, heads, kvHeads, embd, s, size, last, rows);
    FusedRowsAre(s.groups, s.perKv, size, s.dim);
  }

  lemma PermutedRowsMove(k: Tensor, t: Tensor, r: Weights, s: GroupSizes, size: nat, offset: nat, count: nat, cols: nat, heads: nat,
                    n: nat)
    requires size == s.perKv + 2 && IsBlock(k, t, s.groups, size, s.dim, offset, count, cols)
    requires LlamaPermute(Plain(k), heads, Some(n)) == Some(r)
    ensures IsPermutedBlock(r, t, s, offset, count, cols, n)
  {
    PermutedRows(k, t, r, s, size, offset, count, cols, heads, Some(n));
  }

  lemma BlocksMove(t: Tensor, q: Tensor, k: Tensor, v: Tensor, parts: (Weights, Weights, Weights), s: GroupSizes, size: nat,
                   last: nat, cols: nat, heads: nat, kvHeads: nat)
    requires size == s.perKv + 2 && last == s.perKv + 1
    requires IsBlock(q, t, s.groups, size, s.dim, 0, s.perKv, cols) && LlamaPermute(Plain(q), heads, Some(heads)) == Some(parts.0)
    requires IsBlock(k, t, s.groups, size, s.dim, s.perKv, 1, cols) && LlamaPermute(Plain(k), heads, Some(kvHeads)) == Some(parts.1)
    requires IsBlock(v, t, s.groups, size, s.dim, last, 1, cols) && parts.2 == Plain(v)
    ensures InternLm2Rows(t, parts, s, cols, heads, kvHeads)
  {
    PermutedRowsMove(q, t, parts.0, s, size, 0, s.perKv, cols, heads, heads);
    PermutedRowsMove(k, t, parts.1, s, size, s.perKv, 1, cols, heads, kvHeads);
    RowsFrom(t, parts, s, size, last, cols, heads, kvHeads, v);
  }

  lemma FusedRowsAre(groups: nat, per: nat, size: nat, dim: nat)
    requires size == per + 2
    ensures FusedRows(groups, per, dim) == Prod([groups, size, dim])
  {
  }

  lemma InternLm2PartsMoveRows(t: Tensor, parts: (Weights, Weights, Weights), heads: nat, kvHeads: nat, embd: nat, s: GroupSizes,
                               size: nat, last: nat, rows: nat)
    requires t.shape == [rows, embd] && embd > 0 && size == s.perKv + 2 && last == s.perKv + 1
    requires InternLm2Parts(Plain(t), s.groups, s.perKv, s.dim, embd, heads, kvHeads) == Some(parts)
    ensures rows == Prod([s.groups, size, s.dim]) && InternLm2Rows(t, parts, s, embd, heads, kvHeads)
  {
    var q, k, v := InternLm2Blocks(t, s.groups, s.perKv, size, last, s.dim, rows, embd, heads, kvHeads, parts);
    BlocksMove(t, q, k, v, parts, s, size, last, embd, heads, kvHeads);
  }
}
