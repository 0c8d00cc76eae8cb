/**
 * The re-layouts in plain numbers: exactly which weights they accept, and which row of the weights comes to which row of
 * the result, from the numbers of heads and the sizes of the weights alone.
 */
module RowNumbers {
  import opened StringUtils
  import opened Tensors
  import opened Lora
  import opened LoraIndexing
  import opened Relayout
  import opened RowOrder

  // ----- numbers of rows -----

  /** Row c of part b of head a, for heads of m parts of k rows. */
  function RowOf(m: nat, k: nat, a: nat, b: nat, c: nat): nat {
    (a * m + b) * k + c
  }

  lemma FlatOfThree(n: nat, m: nat, k: nat, a: nat, b: nat, c: nat)
    ensures Flat([n, m, k], [a, b, c]) == RowOf(m, k, a, b, c)
  {
    assert [n, m, k][1..] == [m, k] && [a, b, c][1..] == [b, c] && [m, k][1..] == [k] && [b, c][1..] == [c];
    FlatOne(k, c);
    ProdOfTwo(m, k);
    TimesIs(m, k);
    TimesIs(a, m * k);
    TimesIs(b, k);
    Distribute(a, m, b, k);
  }

  lemma UnflatOfThree(n: nat, m: nat, k: nat, a: nat, b: nat, c: nat)
    requires a < n && b < m && c < k
    ensures RowOf(m, k, a, b, c) < Prod([n, m, k]) && Unflat([n, m, k], RowOf(m, k, a, b, c)) == [a, b, c]
  {
    FlatOfThree(n, m, k, a, b, c);
    FlatBound([n, m, k], [a, b, c]);
    UnflatFlat([n, m, k], [a, b, c]);
  }

  lemma ProdOfThreeIs(n: nat, m: nat, k: nat)
    ensures Prod([n, m, k]) == n * m * k
  {
    ProdOfThree(n, m, k);
    TimesIs(m, k);
    TimesIs(n, m * k);
    assert n * (m * k) == n * m * k;
  }

  // ----- LlamaModel.permute -----

  lemma SwappedRowOf(n: nat, half: nat, h: nat, x: nat, y: nat)
    requires h < n && x < half && y < 2
    ensures RowOf(half, 2, h, x, y) < Prod([n, half, 2])
    ensures SwappedRow(n, 2, half, RowOf(half, 2, h, x, y)) == RowOf(2, half, h, y, x)
  {
    UnflatOfThree(n, half, 2, h, x, y);
    FlatOfThree(n, 2, half, h, y, x);
  }

  /** The heads are those of keys and values, if there are any. */
  lemma PermutedHeads(t: Tensor, heads: nat, kvHeads: Option<nat>, n: nat)
    requires LlamaPermute(Plain(t), heads, kvHeads).Some? && n == if kvHeads.Some? then kvHeads.value else heads
    ensures n > 0 && t.shape != [] && LlamaPermute(Plain(t), heads, kvHeads) == SwapWithin(Plain(t), n, 2, t.shape[0] / n / 2)
  {
  }

  /**
   * LlamaModel.permute for any head counts: within each head of twice `half` rows, row 2x + y of the result is row x of the
   * half y.
   */
  lemma LlamaPermuteBringsRows(t: Tensor, r: Tensor, heads: nat, kvHeads: Option<nat>, n: nat, half: nat, h: nat, x: nat, y: nat,
                               rest: Index)
    requires LlamaPermute(Plain(t), heads, kvHeads) == Some(Plain(r)) && n == if kvHeads.Some? then kvHeads.value else heads
    requires t.shape != [] && n > 0 && half == t.shape[0] / n / 2 && h < n && x < half && y < 2
    requires InBounds(t.shape, [RowOf(half, 2, h, x, y)] + rest)
    ensures InBounds(t.shape, [RowOf(2, half, h, y, x)] + rest)
    ensures At(r, [RowOf(half, 2, h, x, y)] + rest) == At(t, [RowOf(2, half, h, y, x)] + rest)
  {
    var row, from := RowOf(half, 2, h, x, y), RowOf(2, half, h, y, x);
    PermutedHeads(t, heads, kvHeads, n);
    SwappedRowOf(n, half, h, x, y);
    SwapWithinMovesRows(t, r, n, 2, half, row, rest);
    OtherRow(t.shape, row, from, rest);
  }

  // ----- groups of heads -----

  lemma BlockRowOf(groups: nat, size: nat, dim: nat, offset: nat, count: nat, a: nat, i: nat, x: nat)
    requires offset + count <= size && a < groups && i < count && x < dim
    ensures RowOf(count, dim, a, i, x) < Prod([groups, count, dim])
    ensures BlockRow(groups, size, dim, offset, count, RowOf(count, dim, a, i, x)) == RowOf(size, dim, a, offset + i, x)
  {
    UnflatOfThree(groups, count, dim, a, i, x);
    FlatOfThree(groups, size, dim, a, offset + i, x);
  }

  /** Behind the query rows come the key rows of all groups, then the value rows. */
  function KeyRow(groups: nat, per: nat, dim: nat, a: nat, x: nat): nat {
    groups * per * dim + a * dim + x
  }

  function ValueRow(groups: nat, per: nat, dim: nat, a: nat, x: nat): nat {
    groups * per * dim + groups * dim + a * dim + x
  }

  lemma SingleRow(groups: nat, dim: nat, a: nat, x: nat)
    ensures Prod([groups, 1, dim]) == groups * dim && RowOf(1, dim, a, 0, x) == a * dim + x
  {
    ProdOfThreeIs(groups, 1, dim);
  }

  /** What the map GroupedRow is, for the row x of head i of group a, and for its key and value. */
  lemma GroupedRowOf(groups: nat, per: nat, dim: nat, a: nat, i: nat, x: nat)
    requires a < groups && x < dim
    ensures var size := per + 2;
            && (i < per ==> GroupedRowGives(groups, per, dim, RowOf(per, dim, a, i, x), RowOf(size, dim, a, i, x)))
            && GroupedRowGives(groups, per, dim, KeyRow(groups, per, dim, a, x), RowOf(size, dim, a, per, x))
            && GroupedRowGives(groups, per, dim, ValueRow(groups, per, dim, a, x), RowOf(size, dim, a, per + 1, x))
  {
    var size, last := per + 2, per + 1;
    GroupRows(groups, per, dim);
    ProdOfThreeIs(groups, per, dim);
    SingleRow(groups, dim, a, x);
    if i < per {
      BlockRowOf(groups, size, dim, 0, per, a, i, x);
    }
    BlockRowOf(groups, size, dim, per, 1, a, 0, x);
    BlockRowOf(groups, size, dim, last, 1, a, 0, x);
  }

  predicate GroupedRowGives(groups: nat, per: nat, dim: nat, row: nat, from: nat) {
    row < FusedRows(groups, per, dim) && GroupedRow(groups, per, dim, row) == from
  }

  /** Row `row` of one matrix is row `from` of another. */
  ghost predicate SameRows(r: Tensor, row: nat, t: Tensor, from: nat, cols: nat) {
    forall c: nat :: c < cols ==> At(r, [row] + [c]) == At(t, [from] + [c])
  }

  /** The fused weights hold, for each group, its query heads, its key head and its value head; the result all of a kind. */
  ghost predicate Ungrouped(r: Tensor, t: Tensor, groups: nat, per: nat, dim: nat, cols: nat, a: nat, i: nat, x: nat) {
    && (i < per ==> SameRows(r, RowOf(per, dim, a, i, x), t, RowOf(per + 2, dim, a, i, x), cols))
    && SameRows(r, KeyRow(groups, per, dim, a, x), t, RowOf(per + 2, dim, a, per, x), cols)
    && SameRows(r, ValueRow(groups, per, dim, a, x), t, RowOf(per + 2, dim, a, per + 1, x), cols)
  }

  lemma FalconAs(w: Weights, heads: nat, kvHeads: nat, hidden: nat, per: nat, dim: nat, cols: nat)
    requires heads > 0 && kvHeads > 0 && per == heads / kvHeads && dim == hidden / heads && cols == dim * heads
    ensures FalconQkv(w, heads, kvHeads, hidden)
            == FalconRearranged(w, kvHeads, per, dim, Times(heads, dim), Times(kvHeads, dim), cols)
  {
    TimesIs(dim, heads);
  }

  lemma FalconReadsAll(t: Tensor, r: Tensor, groups: nat, per: nat, dim: nat, queryRows: nat, keyRows: nat, rows: nat, cols: nat)
    requires FalconRearranged(Plain(t), groups, per, dim, queryRows, keyRows, cols) == Some(Plain(r))
    requires t.shape == [rows, cols] && cols > 0
    ensures rows == FusedRows(groups, per, dim)
  {
    var size := per + 2;
    var all, q, k, v, e := FalconSteps(t, r, groups, per, dim, queryRows, keyRows, cols);
    ReadingHasAllRows(t, all, groups, size, dim, rows, cols);
  }

  lemma FalconBringsRow(t: Tensor, r: Tensor, groups: nat, per: nat, dim: nat, queryRows: nat, keyRows: nat, rows: nat, cols: nat,
                        row: nat, from: nat)
    requires FalconRearranged(Plain(t), groups, per, dim, queryRows, keyRows, cols) == Some(Plain(r))
    requires t.shape == [rows, cols] && cols > 0 && GroupedRowGives(groups, per, dim, row, from)
    ensures SameRows(r, row, t, from, cols)
  {
    FalconReadsAll(t, r, groups, per, dim, queryRows, keyRows, rows, cols);
    forall c: nat | c < cols ensures At(r, [row] + [c]) == At(t, [from] + [c]) {
      FalconRearrangedMovesRows(t, r, groups, per, dim, queryRows, keyRows, rows, cols, row, c);
    }
  }

  lemma FalconRearrangedBringsRows(t: Tensor, r: Tensor, groups: nat, per: nat, dim: nat, queryRows: nat, keyRows: nat, rows: nat,
                                   cols: nat, a: nat, i: nat, x: nat)
    requires FalconRearranged(Plain(t), groups, per, dim, queryRows, keyRows, cols) == Some(Plain(r))
    requires t.shape == [rows, cols] && cols > 0 && a < groups && x < dim
    ensures Ungrouped(r, t, groups, per, dim, cols, a, i, x)
  {
    var size, last := per + 2, per + 1;
    var keyRow, valueRow := KeyRow(groups, per, dim, a, x), ValueRow(groups, per, dim, a, x);
    GroupedRowOf(groups, per, dim, a, i, x);
    if i < per {
      FalconBringsRow(t, r, groups, per, dim, queryRows, keyRows, rows, cols, RowOf(per, dim, a, i, x), RowOf(size, dim, a, i, x));
    }
    FalconBringsRow(t, r, groups, per, dim, queryRows, keyRows, rows, cols, keyRow, RowOf(size, dim, a, per, x));
    FalconBringsRow(t, r, groups, per, dim, queryRows, keyRows, rows, cols, valueRow, RowOf(size, dim, a, last, x));
  }

  lemma Positive(a: nat, b: nat)
    requires a > 0 && b > 0
    ensures a * b > 0
  {
  }

  /**
   * Falcon: for every row x of every head i of every group a, with heads of `hidden / heads` rows and `heads / kvHeads` of
   * them in each of the `kvHeads` groups.
   */
  lemma FalconBringsRows(t: Tensor, r: Tensor, heads: nat, kvHeads: nat, hidden: nat, per: nat, dim: nat, rows: nat, cols: nat,
                         a: nat, i: nat, x: nat)
    requires FalconQkv(Plain(t), heads, kvHeads, hidden) == Some(Plain(r)) && heads > 0 && kvHeads > 0
    requires per == heads / kvHeads && dim == hidden / heads && cols == dim * heads && t.shape == [rows, cols]
    requires a < kvHeads && x < dim
    ensures Ungrouped(r, t, kvHeads, per, dim, cols, a, i, x)
  {
    Positive(dim, heads);
    FalconAs(Plain(t), heads, kvHeads, hidden, per, dim, cols);
    FalconRearrangedBringsRows(t, r, kvHeads, per, dim, Times(heads, dim), Times(kvHeads, dim), rows, cols, a, i, x);
  }

  // Bloom and GPT-NeoX

  lemma BloomBringsRow(t: Tensor, r: Tensor, heads: nat, dim: nat, rows: nat, cols: nat, row: nat, from: nat)
    requires BloomSplit(Plain(t), heads, dim, cols) == Some(Plain(r)) && t.shape == [rows, cols]
    requires GroupedRowGives(heads, 1, dim, row, from)
    ensures SameRows(r, row, t, from, cols)
  {
    forall c: nat | c < cols ensures At(r, [row] + [c]) == At(t, [from] + [c]) {
      var all, q, k, v := BloomSteps(t, r, heads, dim, cols);
      ReadingHasAllRows(t, all, heads, 3, dim, rows, cols);
      BloomMovesRows(t, r, heads, dim, rows, cols, row, c);
    }
  }

  lemma BloomSplitBringsRows(t: Tensor, r: Tensor, heads: nat, dim: nat, rows: nat, cols: nat, a: nat, x: nat)
    requires BloomSplit(Plain(t), heads, dim, cols) == Some(Plain(r)) && t.shape == [rows, cols] && a < heads && x < dim
    ensures Ungrouped(r, t, heads, 1, dim, cols, a, 0, x)
  {
    GroupedRowOf(heads, 1, dim, a, 0, x);
    BloomBringsRow(t, r, heads, dim, rows, cols, RowOf(1, dim, a, 0, x), RowOf(3, dim, a, 0, x));
    BloomBringsRow(t, r, heads, dim, rows, cols, KeyRow(heads, 1, dim, a, x), RowOf(3, dim, a, 1, x));
    BloomBringsRow(t, r, heads, dim, rows, cols, ValueRow(heads, 1, dim, a, x), RowOf(3, dim, a, 2, x));
  }

  /** Bloom and GPT-NeoX: for every row x of every head a, with heads of `embd / heads` rows. */
  lemma BloomBringsRows(t: Tensor, r: Tensor, heads: nat, embd: nat, dim: nat, rows: nat, a: nat, x: nat)
    requires BloomQkv(Plain(t), heads, embd) == Some(Plain(r)) && heads > 0 && dim == embd / heads
    requires t.shape == [rows, embd] && a < heads && x < dim
    ensures Ungrouped(r, t, heads, 1, dim, embd, a, 0, x)
  {
    BloomSplitBringsRows(t, r, heads, dim, rows, embd, a, x);
  }

  // InternLM2

  /** Row 2x + y of the halves of head h is row z of head i of group a. */
  predicate IsHalfRow(half: nat, h: nat, x: nat, y: nat, per: nat, dim: nat, a: nat, i: nat, z: nat) {
    RowOf(2, half, h, y, x) == RowOf(per, dim, a, i, z)
  }

  lemma HalvesFit(rows: nat, n: nat, half: nat)
    requires n > 0 && half == rows / n / 2
    ensures n * half * 2 <= rows
  {
    var q := rows / n;
    assert q * n <= rows && half * 2 <= q;
    MulMonotone(half * 2, q, n);
    assert n * half * 2 == half * 2 * n;
  }

  /** Within the heads of a block of `all` rows. */
  lemma SwappedRowInBlock(all: nat, n: nat, half: nat, h: nat, x: nat, y: nat)
    requires n > 0 && half == HalfHead(all, n) && h < n && x < half && y < 2
    ensures RowOf(half, 2, h, x, y) < all && RowOf(half, 2, h, x, y) < Prod([n, half, 2])
    ensures SwappedRow(n, 2, half, RowOf(half, 2, h, x, y)) == RowOf(2, half, h, y, x)
  {
    SwappedRowOf(n, half, h, x, y);
    ProdOfThreeIs(n, half, 2);
    HalvesFit(all, n, half);
  }

  lemma PermutedRowIs(r: Tensor, t: Tensor, s: GroupSizes, offset: nat, count: nat, n: nat, all: nat, half: nat, cols: nat,
                      row: nat, k: nat, c: nat)
    requires IsPermutedBlock(Plain(r), t, s, offset, count, cols, n) && all == Prod([s.groups, count, s.dim])
    requires n > 0 && half == HalfHead(all, n) && row < all && row < Prod([n, half, 2]) && SwappedRow(n, 2, half, row) == k
    requires k < all && c < cols
    ensures At(r, [row] + [c]) == At(t, [BlockRow(s.groups, s.perKv + 2, s.dim, offset, count, k)] + [c])
  {
    assert PermutedRowAt(r, t, s, offset, count, n, row, c);
  }

  /** A row of the permuted heads of a block. */
  lemma PermutedRowOf(r: Tensor, t: Tensor, s: GroupSizes, offset: nat, count: nat, n: nat, all: nat, half: nat, cols: nat,
                      h: nat, x: nat, y: nat, a: nat, i: nat, z: nat)
    requires IsPermutedBlock(Plain(r), t, s, offset, count, cols, n) && offset + count <= s.perKv + 2
    requires all == Prod([s.groups, count, s.dim]) && n > 0 && half == HalfHead(all, n) && h < n && x < half && y < 2
    requires a < s.groups && i < count && z < s.dim && IsHalfRow(half, h, x, y, count, s.dim, a, i, z)
    ensures SameRows(r, RowOf(half, 2, h, x, y), t, RowOf(s.perKv + 2, s.dim, a, offset + i, z), cols)
  {
    var row, k, size := RowOf(half, 2, h, x, y), RowOf(count, s.dim, a, i, z), s.perKv + 2;
    SwappedRowInBlock(all, n, half, h, x, y);
    BlockRowOf(s.groups, size, s.dim, offset, count, a, i, z);
    forall c: nat | c < cols ensures At(r, [row] + [c]) == At(t, [RowOf(size, s.dim, a, offset + i, z)] + [c]) {
      PermutedRowIs(r, t, s, offset, count, n, all, half, cols, row, k, c);
    }
  }

  /** The sizes as the numbers of heads and the embedding give them. */
  predicate InternLm2Has(heads: nat, kvHeads: nat, embd: nat, s: GroupSizes) {
    && heads > 0 && kvHeads > 0 && s.perKv == heads / kvHeads
    && s.perKv > 0 && s.groups == heads / s.perKv && s.dim == embd / heads
  }

  /** Half the rows of one of n heads that share the rows of `count` heads of every group. */
  predicate IsHalf(half: nat, s: GroupSizes, count: nat, n: nat) {
    n > 0 && half == s.groups * count * s.dim / n / 2
  }

  lemma HalfIs(half: nat, s: GroupSizes, count: nat, n: nat)
    requires IsHalf(half, s, count, n)
    ensures half == HalfHead(Prod([s.groups, count, s.dim]), n)
  {
    ProdOfThreeIs(s.groups, count, s.dim);
  }

  lemma HalfRowOf(r: Tensor, t: Tensor, s: GroupSizes, offset: nat, count: nat, size: nat, n: nat, half: nat, cols: nat,
                  h: nat, x: nat, y: nat, a: nat, i: nat, z: nat, j: nat)
    requires IsPermutedBlock(Plain(r), t, s, offset, count, cols, n) && size == s.perKv + 2 && offset + count <= size
    requires IsHalf(half, s, count, n) && h < n && x < half && y < 2
    requires a < s.groups && i < count && z < s.dim && IsHalfRow(half, h, x, y, count, s.dim, a, i, z) && j == offset + i
    ensures SameRows(r, RowOf(half, 2, h, x, y), t, RowOf(size, s.dim, a, j, z), cols)
  {
    HalfIs(half, s, count, n);
    PermutedRowOf(r, t, s, offset, count, n, Prod([s.groups, count, s.dim]), half, cols, h, x, y, a, i, z);
  }

  lemma InternLm2As(t: Tensor, parts: (Weights, Weights, Weights), heads: nat, kvHeads: nat, embd: nat, s: GroupSizes, rows: nat)
    requires InternLm2Split(Plain(t), heads, kvHeads, embd) == Some(parts) && InternLm2Has(heads, kvHeads, embd, s)
    requires embd > 0 && t.shape == [rows, embd]
    ensures parts.0.Plain? && parts.1.Plain? && parts.2.Plain? && InternLm2Rows(t, parts, s, embd, heads, kvHeads)
  {
    assert InternLm2Sizes(heads, kvHeads, embd) == Some(s);
    InternLm2MovesRows(t, parts, heads, kvHeads, embd, s, rows);
  }

  /**
   * InternLM2: row 2x + y of head h of the query is row x of the half y of the rows that head h has among the query rows of all
   * groups, row z of head i of group a. The heads are all heads.
   */
  lemma InternLm2BringsQueryRows(t: Tensor, parts: (Weights, Weights, Weights), heads: nat, kvHeads: nat, embd: nat, s: GroupSizes,
                                 rows: nat, half: nat, h: nat, x: nat, y: nat, a: nat, i: nat, z: nat)
    requires InternLm2Split(Plain(t), heads, kvHeads, embd) == Some(parts) && InternLm2Has(heads, kvHeads, embd, s)
    requires embd > 0 && t.shape == [rows, embd]
    requires IsHalf(half, s, s.perKv, heads) && h < heads && x < half && y < 2
    requires a < s.groups && i < s.perKv && z < s.dim && IsHalfRow(half, h, x, y, s.perKv, s.dim, a, i, z)
    ensures parts.0.Plain? && SameRows(parts.0.t, RowOf(half, 2, h, x, y), t, RowOf(s.perKv + 2, s.dim, a, i, z), embd)
  {
    InternLm2As(t, parts, heads, kvHeads, embd, s, rows);
    HalfRowOf(parts.0.t, t, s, 0, s.perKv, s.perKv + 2, heads, half, embd, h, x, y, a, i, z, i);
  }

  /** The key has one head of each group, and its heads are the key-value heads. */
  lemma InternLm2BringsKeyRows(t: Tensor, parts: (Weights, Weights, Weights), heads: nat, kvHeads: nat, embd: nat, s: GroupSizes,
                               rows: nat, half: nat, h: nat, x: nat, y: nat, a: nat, z: nat)
    requires InternLm2Split(Plain(t), heads, kvHeads, embd) == Some(parts) && InternLm2Has(heads, kvHeads, embd, s)
    requires embd > 0 && t.shape == [rows, embd]
    requires IsHalf(half, s, 1, kvHeads) && h < kvHeads && x < half && y < 2
    requires a < s.groups && z < s.dim && IsHalfRow(half, h, x, y, 1, s.dim, a, 0, z)
    ensures parts.1.Plain? && SameRows(parts.1.t, RowOf(half, 2, h, x, y), t, RowOf(s.perKv + 2, s.dim, a, s.perKv, z), embd)
  {
    InternLm2As(t, parts, heads, kvHeads, embd, s, rows);
    HalfRowOf(parts.1.t, t, s, s.perKv, 1, s.perKv + 2, kvHeads, half, embd, h, x, y, a, 0, z, s.perKv);
  }

  lemma BlockBringsRow(v: Tensor, t: Tensor, s: GroupSizes, size: nat, offset: nat, cols: nat, a: nat, z: nat)
    requires IsBlock(v, t, s.groups, size, s.dim, offset, 1, cols) && offset < size && a < s.groups && z < s.dim
    ensures SameRows(v, RowOf(1, s.dim, a, 0, z), t, RowOf(size, s.dim, a, offset, z), cols)
  {
    var row := RowOf(1, s.dim, a, 0, z);
    BlockRowOf(s.groups, size, s.dim, offset, 1, a, 0, z);
    forall c: nat | c < cols ensures At(v, [row] + [c]) == At(t, [RowOf(size, s.dim, a, offset, z)] + [c]) {
      assert BlockRowAt(v, t, s.groups, size, s.dim, offset, 1, row, c);
    }
  }

  /** The value has the last head of each group as it is. */
  lemma InternLm2BringsValueRows(t: Tensor, parts: (Weights, Weights, Weights), heads: nat, kvHeads: nat, embd: nat, s: GroupSizes,
                                 rows: nat, a: nat, z: nat)
    requires InternLm2Split(Plain(t), heads, kvHeads, embd) == Some(parts) && InternLm2Has(heads, kvHeads, embd, s)
    requires embd > 0 && t.shape == [rows, embd] && a < s.groups && z < s.dim
    ensures parts.2.Plain? && SameRows(parts.2.t, RowOf(1, s.dim, a, 0, z), t, RowOf(s.perKv + 2, s.dim, a, s.perKv + 1, z), embd)
  {
    var size, last := s.perKv + 2, s.perKv + 1;
    InternLm2As(t, parts, heads, kvHeads, embd, s, rows);
    BlockBringsRow(parts.2.t, t, s, size, last, embd, a, z);
  }
}
