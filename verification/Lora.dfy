/**
 * LoraTorchTensor: a pair of factors A and B standing for the dense tensor B·A, on which the model converters run
 * unchanged. Every operation touches the factors only; the lemmas say when that is the operation on the product.
 */
module Lora {
  import opened StringUtils
  import opened Tensors

  datatype Lora = Lora(A: Tensor, B: Tensor)

  /** What the constructor asserts; an index that does not exist is an exception as well. */
  predicate Constructed(l: Lora) {
    && |l.A.shape| == |l.B.shape| >= 2
    && l.A.shape[|l.A.shape| - 2] == l.B.shape[|l.B.shape| - 1]
  }

  function New(A: Tensor, B: Tensor): (r: Option<Lora>) {
    if Constructed(Lora(A, B)) then Some(Lora(A, B)) else None
  }

  function Rank(l: Lora): nat
    requires Constructed(l)
  {
    l.B.shape[|l.B.shape| - 1]
  }

  function Cols(l: Lora): nat
    requires Constructed(l)
  {
    l.A.shape[|l.A.shape| - 1]
  }

  function Dims(l: Lora): nat {
    |l.B.shape|
  }

  /** The shape property: that of the product. */
  function LoraShape(l: Lora): Shape
    requires Constructed(l)
  {
    l.B.shape[..Dims(l) - 1] + [Cols(l)]
  }

  /** The factors can be multiplied: each leading dimension of A is that of B, or 1 and repeated. */
  predicate Meaningful(l: Lora) {
    && Constructed(l)
    && forall i :: 0 <= i < Dims(l) - 2 ==> l.A.shape[i] == 1 || l.A.shape[i] == l.B.shape[i]
  }

  /** One A for all leading coordinates, as adapters come. */
  predicate UnitLead(l: Lora) {
    && Constructed(l)
    && forall i :: 0 <= i < Dims(l) - 2 ==> l.A.shape[i] == 1
  }

  // ----- the product -----

  function Sum(n: nat, f: nat -> real): real {
    if n == 0 then 0.0 else Sum(n - 1, f) + f(n - 1)
  }

  lemma {:induction false} SumCongruence(n: nat, f: nat -> real, g: nat -> real)
    requires forall k: nat :: k < n ==> f(k) == g(k)
    ensures Sum(n, f) == Sum(n, g)
  {
    if n > 0 {
      SumCongruence(n - 1, f, g);
    }
  }

  /** The leading coordinates to use in A for row coordinates `u` of B. */
  function LeadInA(shapeA: Shape, u: Index): Index
    requires |u| > 0 && |shapeA| == |u| + 1
  {
    seq(|u| - 1, i requires 0 <= i < |u| - 1 => if shapeA[i] == 1 then 0 else u[i])
  }

  function Term(l: Lora, u: Index, c: nat, k: nat): real
    requires Constructed(l) && |u| == Dims(l) - 1
  {
    At(l.B, u + [k]) * At(l.A, LeadInA(l.A.shape, u) + [k, c])
  }

  function Cell(l: Lora, u: Index, c: nat): real
    requires Constructed(l) && |u| == Dims(l) - 1
  {
    Sum(Rank(l), (k: nat) => Term(l, u, c, k))
  }

  function CellAt(l: Lora, idx: Index): real {
    if Constructed(l) && |idx| == Dims(l) then Cell(l, idx[..|idx| - 1], idx[|idx| - 1]) else 0.0
  }

  function Dense(l: Lora): (t: Tensor)
    requires Constructed(l)
    ensures t.shape == LoraShape(l)
  {
    Build(LoraShape(l), idx => CellAt(l, idx))
  }

  ghost predicate DenseAt(d: Tensor, l: Lora, u: Index, c: nat)
    requires Constructed(l)
  {
    |u| == Dims(l) - 1 && InBounds(d.shape, u + [c]) ==> At(d, u + [c]) == Cell(l, u, c)
  }

  /** `d` is the product of the factors, entry by entry. */
  ghost predicate IsDense(d: Tensor, l: Lora) {
    && Constructed(l)
    && d.shape == LoraShape(l)
    && forall u: Index, c: nat :: DenseAt(d, l, u, c)
  }

  lemma DenseIsDense(l: Lora)
    requires Constructed(l)
    ensures IsDense(Dense(l), l)
  {
    forall u: Index, c: nat ensures DenseAt(Dense(l), l, u, c) {
      if |u| == Dims(l) - 1 && InBounds(LoraShape(l), u + [c]) {
        BuildAt(LoraShape(l), idx => CellAt(l, idx), u + [c]);
        assert (u + [c])[..|u|] == u;
      }
    }
  }

  lemma DenseIsUnique(d: Tensor, l: Lora)
    requires IsDense(d, l)
    ensures d == Dense(l)
  {
    DenseIsDense(l);
    forall idx | InBounds(d.shape, idx) ensures At(d, idx) == At(Dense(l), idx) {
      SplitLast(d.shape, idx);
      var u, c := idx[..|idx| - 1], idx[|idx| - 1];
      assert DenseAt(d, l, u, c) && DenseAt(Dense(l), l, u, c);
    }
    SameEntriesSameTensor(d, Dense(l));
  }

  /** Cells made of the same terms are equal. */
  lemma SameTermsSameCell(l: Lora, u: Index, c: nat, m: Lora, v: Index, d: nat)
    requires Constructed(l) && |u| == Dims(l) - 1 && Constructed(m) && |v| == Dims(m) - 1
    requires Rank(l) == Rank(m)
    requires forall k: nat :: k < Rank(l) ==> Term(l, u, c, k) == Term(m, v, d, k)
    ensures Cell(l, u, c) == Cell(m, v, d)
  {
    SumCongruence(Rank(l), (k: nat) => Term(l, u, c, k), (k: nat) => Term(m, v, d, k));
  }

  // ----- the product of an adapter with unit leading dimensions, by row and column number -----

  function RowCount(shape: Shape): nat
    requires shape != []
  {
    Prod(shape[..|shape| - 1])
  }

  lemma LastDimension(shape: Shape)
    requires shape != []
    ensures Prod(shape) == Times(RowCount(shape), shape[|shape| - 1])
  {
    assert shape == shape[..|shape| - 1] + [shape[|shape| - 1]];
    FlatSnoc(shape[..|shape| - 1], seq(|shape| - 1, _ => 0), shape[|shape| - 1], 0);
  }

  /** Entry `c` of row `r` of data read as a matrix with rows of `m`; zero outside. */
  function Entry(data: seq<real>, m: nat, r: nat, c: nat): real {
    if Times(r, m) + c < |data| then data[Times(r, m) + c] else 0.0
  }

  lemma EntryIsAt(t: Tensor, lead: Shape, m: nat, u: Index, c: nat)
    requires t.shape == lead + [m] && InBounds(lead, u) && c < m
    ensures Flat(lead, u) < Prod(lead)
    ensures InBounds(t.shape, u + [c]) && At(t, u + [c]) == Entry(t.data, m, Flat(lead, u), c)
  {
    FlatBound(lead, u);
    FlatSnoc(lead, u, m, c);
    FlatBound(t.shape, u + [c]);
  }

  lemma SplitLast(shape: Shape, idx: Index)
    requires shape != [] && |idx| == |shape|
    ensures var n := |shape| - 1;
            && shape == shape[..n] + [shape[n]] && idx == idx[..n] + [idx[n]]
            && (InBounds(shape, idx) <==> InBounds(shape[..n], idx[..n]) && idx[n] < shape[n])
  {
  }

  function Ones(n: nat): Shape {
    seq(n, _ => 1)
  }

  function Zeros(n: nat): Index {
    seq(n, _ => 0)
  }

  lemma {:induction false} OnesVanish(n: nat)
    ensures Prod(Ones(n)) == 1 && Flat(Ones(n), Zeros(n)) == 0
  {
    if n > 0 {
      assert Ones(n)[1..] == Ones(n - 1) && Zeros(n)[1..] == Zeros(n - 1);
      OnesVanish(n - 1);
    }
  }

  lemma UnitShape(l: Lora)
    requires UnitLead(l)
    ensures l.A.shape == Ones(Dims(l) - 2) + [Rank(l)] + [Cols(l)]
    ensures Prod(Ones(Dims(l) - 2) + [Rank(l)]) == Rank(l)
    ensures Prod(l.A.shape) == Times(Rank(l), Cols(l))
  {
    var n := Dims(l) - 2;
    OnesVanish(n);
    FlatSnoc(Ones(n), Zeros(n), Rank(l), 0);
    FlatSnoc(Ones(n) + [Rank(l)], Zeros(n + 1), Cols(l), 0);
  }

  /** In a unit-lead A the entry for rank k and column c is the same for every row of B. */
  lemma UnitEntryOfA(l: Lora, u: Index, k: nat, c: nat)
    requires UnitLead(l) && |u| == Dims(l) - 1 && k < Rank(l) && c < Cols(l)
    ensures At(l.A, LeadInA(l.A.shape, u) + [k, c]) == Entry(l.A.data, Cols(l), k, c)
  {
    var n := Dims(l) - 2;
    UnitShape(l);
    OnesVanish(n);
    assert LeadInA(l.A.shape, u) == Zeros(n);
    assert Zeros(n) + [k, c] == Zeros(n) + [k] + [c];
    assert InBounds(Ones(n) + [Rank(l)], Zeros(n) + [k]);
    FlatSnoc(Ones(n), Zeros(n), Rank(l), k);
    EntryIsAt(l.A, Ones(n) + [Rank(l)], Cols(l), Zeros(n) + [k], c);
  }

  /** The product of row r of one matrix and column c of another, given as row-major data. */
  function RowDot(dataB: seq<real>, dataA: seq<real>, rank: nat, cols: nat, r: nat, c: nat): real {
    Sum(rank, (k: nat) => Entry(dataB, rank, r, k) * Entry(dataA, cols, k, c))
  }

  lemma UnitTerm(l: Lora, u: Index, c: nat, k: nat)
    requires UnitLead(l) && InBounds(l.B.shape[..Dims(l) - 1], u) && c < Cols(l) && k < Rank(l)
    ensures Term(l, u, c, k)
         == Entry(l.B.data, Rank(l), Flat(l.B.shape[..Dims(l) - 1], u), k) * Entry(l.A.data, Cols(l), k, c)
  {
    EntryIsAt(l.B, l.B.shape[..Dims(l) - 1], Rank(l), u, k);
    UnitEntryOfA(l, u, k, c);
  }

  lemma UnitCell(l: Lora, u: Index, c: nat)
    requires UnitLead(l) && InBounds(l.B.shape[..Dims(l) - 1], u) && c < Cols(l)
    ensures Cell(l, u, c)
         == RowDot(l.B.data, l.A.data, Rank(l), Cols(l), Flat(l.B.shape[..Dims(l) - 1], u), c)
  {
    var r := Flat(l.B.shape[..Dims(l) - 1], u);
    var f, g := (k: nat) => Term(l, u, c, k),
                (k: nat) => Entry(l.B.data, Rank(l), r, k) * Entry(l.A.data, Cols(l), k, c);
    forall k: nat | k < Rank(l) ensures f(k) == g(k) {
      UnitTerm(l, u, c, k);
    }
    SumCongruence(Rank(l), f, g);
  }

  /** The entries of the product depend on the rows of B and on A, not on how the rows are arranged in dimensions. */
  lemma UnitDenseEntry(l: Lora, r: nat, c: nat)
    requires UnitLead(l) && r < RowCount(l.B.shape) && c < Cols(l)
    ensures Entry(Dense(l).data, Cols(l), r, c) == RowDot(l.B.data, l.A.data, Rank(l), Cols(l), r, c)
  {
    var lead := l.B.shape[..Dims(l) - 1];
    var u := Unflat(lead, r);
    FlatUnflat(lead, r);
    EntryIsAt(Dense(l), lead, Cols(l), u, c);
    DenseIsDense(l);
    assert DenseAt(Dense(l), l, u, c);
    UnitCell(l, u, c);
  }

  lemma DenseSize(l: Lora)
    requires Constructed(l)
    ensures |Dense(l).data| == Times(RowCount(l.B.shape), Cols(l))
  {
    FlatSnoc(l.B.shape[..Dims(l) - 1], Zeros(Dims(l) - 1), Cols(l), 0);
  }

  lemma EntryNumber(data: seq<real>, rows: nat, m: nat, i: nat) returns (r: nat, c: nat)
    requires |data| == Times(rows, m) && i < |data|
    ensures r < rows && c < m && i == Times(r, m) + c && Entry(data, m, r, c) == data[i]
  {
    DivModBounds(i, rows, m);
    r, c := i / m, i % m;
  }

  /** Unit-lead adapters with the same entries in their factors have products with the same entries. */
  lemma SameRowsSameData(l: Lora, m: Lora)
    requires UnitLead(l) && UnitLead(m) && l.A.data == m.A.data && l.B.data == m.B.data
    requires Rank(l) == Rank(m) && Cols(l) == Cols(m) && RowCount(l.B.shape) == RowCount(m.B.shape)
    ensures Dense(l).data == Dense(m).data
  {
    DenseSize(l);
    DenseSize(m);
    forall i | 0 <= i < |Dense(l).data| ensures Dense(l).data[i] == Dense(m).data[i] {
      var r, c := EntryNumber(Dense(l).data, RowCount(l.B.shape), Cols(l), i);
      UnitDenseEntry(l, r, c);
      UnitDenseEntry(m, r, c);
    }
  }

  // ----- reshape -----

  function KnownSize(args: seq<int>): int {
    if args == [] then 1 else (if args[0] == -1 then 1 else args[0]) * KnownSize(args[1..])
  }

  /** The shape a reshape call means: every -1 is replaced by what is missing. None stands for an exception. */
  function ResolveShape(size: nat, args: seq<int>): Option<Shape> {
    if exists i :: 0 <= i < |args| && args[i] < -1 then None
    else if -1 !in args then Some(seq(|args|, i requires 0 <= i < |args| => args[i]))
    else
      var known := KnownSize(args);
      if known <= 0 || size % known != 0 then None
      else Some(seq(|args|, i requires 0 <= i < |args| => if args[i] == -1 then size / known else args[i]))
  }

  /** torch's reshape accepts a single -1 only. */
  predicate OneWildcard(args: seq<int>) {
    forall i, j :: 0 <= i < j < |args| ==> args[i] != -1 || args[j] != -1
  }

  function TorchReshape(t: Tensor, args: seq<int>): Option<Tensor> {
    if !OneWildcard(args) then None
    else match ResolveShape(Prod(t.shape), args)
      case None => None
      case Some(shape) => Reshape(t, shape)
  }

  function LoraReshape(l: Lora, args: seq<int>): Option<Lora>
    requires Constructed(l)
  {
    if |args| < 2 then None
    else match ResolveShape(Prod(LoraShape(l)), args)
      case None => None
      case Some(shape) =>
        if shape[|shape| - 1] != Cols(l) then None
        else
          var A, B := ReshapedA(l, shape), ReshapedB(l, shape);
          if A.None? || B.None? then None else New(A.value, B.value)
  }

  lemma MulDiffers(a: nat, b: nat, c: nat)
    requires c > 0 && a != b
    ensures Times(a, c) != Times(b, c)
  {
    TimesIs(a, c);
    TimesIs(b, c);
    if a < b {
      MulMonotone(a + 1, b, c);
    } else {
      MulMonotone(b + 1, a, c);
    }
  }

  function ReshapedA(l: Lora, shape: Shape): Option<Tensor>
    requires Constructed(l) && |shape| >= 2
  {
    Reshape(l.A, Ones(|shape| - 2) + [Rank(l)] + [Cols(l)])
  }

  function ReshapedB(l: Lora, shape: Shape): Option<Tensor>
    requires Constructed(l) && |shape| >= 2
  {
    Reshape(l.B, shape[..|shape| - 1] + [Rank(l)])
  }

  lemma OnesThen(n: nat, rank: nat, cols: nat)
    ensures Prod(Ones(n) + [rank] + [cols]) == Times(rank, cols)
  {
    OnesVanish(n);
    FlatSnoc(Ones(n), Zeros(n), rank, 0);
    FlatSnoc(Ones(n) + [rank], Zeros(n + 1), cols, 0);
  }

  lemma ReshapedSizes(l: Lora, shape: Shape)
    requires UnitLead(l) && |shape| >= 2 && shape[|shape| - 1] == Cols(l)
    requires RowCount(shape) == RowCount(l.B.shape)
    ensures ReshapedA(l, shape).Some? && ReshapedB(l, shape).Some? && Reshape(Dense(l), shape).Some?
  {
    UnitShape(l);
    OnesThen(|shape| - 2, Rank(l), Cols(l));
    FlatSnoc(shape[..|shape| - 1], Zeros(|shape| - 1), Rank(l), 0);
    LastDimension(l.B.shape);
    DenseSize(l);
    LastDimension(shape);
  }

  /** Reshaping the factors keeps every row of B and all of A, so it reshapes the product. */
  lemma ReshapedFactors(l: Lora, shape: Shape)
    requires UnitLead(l) && |shape| >= 2 && shape[|shape| - 1] == Cols(l)
    requires RowCount(shape) == RowCount(l.B.shape)
    ensures var A, B := ReshapedA(l, shape), ReshapedB(l, shape);
            && A.Some? && B.Some?
            && var m := Lora(A.value, B.value);
               UnitLead(m) && LoraShape(m) == shape && Reshape(Dense(l), shape) == Some(Dense(m))
  {
    ReshapedSizes(l, shape);
    var n := |shape|;
    var m := Lora(ReshapedA(l, shape).value, ReshapedB(l, shape).value);
    assert m.B.shape[..n - 1] == shape[..n - 1];
    assert shape == shape[..n - 1] + [Cols(l)];
    SameRowsSameData(l, m);
  }

  /**
   * reshape commutes with the product wherever both succeed. With a rank it succeeds only where reshaping the product does,
   * and with columns wherever that gives two or more dimensions with the same row size. (Without a rank the rows of B, and
   * without columns those of the product, can be counted in another way.)
   */
  lemma ReshapeCommutes(l: Lora, args: seq<int>)
    requires UnitLead(l) && OneWildcard(args)
    ensures var r, dense := LoraReshape(l, args), TorchReshape(Dense(l), args);
            && (Rank(l) > 0 && r.Some? ==> dense.Some? && |args| >= 2 && dense.value.shape[|args| - 1] == Cols(l))
            && (Cols(l) > 0 && dense.Some? && |args| >= 2 && dense.value.shape[|args| - 1] == Cols(l) ==> r.Some?)
            && (r.Some? && dense.Some? ==> UnitLead(r.value) && Dense(r.value) == dense.value)
  {
    var resolved := ResolveShape(Prod(LoraShape(l)), args);
    if resolved.Some? && |args| >= 2 && resolved.value[|args| - 1] == Cols(l) {
      var shape := resolved.value;
      if RowCount(shape) == RowCount(l.B.shape) {
        ReshapedFactors(l, shape);
      } else {
        OtherRowCount(l, shape);
        if ReshapedB(l, shape).Some? && Reshape(Dense(l), shape).Some? {
          NoColumns(l, shape);
        }
      }
    }
  }

  /** Without columns both products are empty. */
  lemma NoColumns(l: Lora, shape: Shape)
    requires UnitLead(l) && Cols(l) == 0 && |shape| >= 2 && shape[|shape| - 1] == 0
    requires ReshapedB(l, shape).Some? && Reshape(Dense(l), shape).Some?
    ensures ReshapedA(l, shape).Some?
    ensures var m := Lora(ReshapedA(l, shape).value, ReshapedB(l, shape).value);
            UnitLead(m) && LoraShape(m) == shape && Some(Dense(m)) == Reshape(Dense(l), shape)
  {
    UnitShape(l);
    OnesThen(|shape| - 2, Rank(l), Cols(l));
    var n := |shape|;
    var m := Lora(ReshapedA(l, shape).value, ReshapedB(l, shape).value);
    assert m.B.shape[..n - 1] == shape[..n - 1];
    assert shape == shape[..n - 1] + [0];
    FlatSnoc(shape[..n - 1], Zeros(n - 1), 0, 0);
    TimesIs(Prod(shape[..n - 1]), 0);
  }

  lemma OtherRowCount(l: Lora, shape: Shape)
    requires Constructed(l)
    requires |shape| >= 2 && shape[|shape| - 1] == Cols(l) && RowCount(shape) != RowCount(l.B.shape)
    ensures Cols(l) > 0 ==> Reshape(Dense(l), shape).None?
    ensures Rank(l) > 0 ==> ReshapedB(l, shape).None?
  {
    var n := |shape|;
    DenseSize(l);
    LastDimension(shape);
    LastDimension(l.B.shape);
    FlatSnoc(shape[..n - 1], Zeros(n - 1), Rank(l), 0);
    if Cols(l) > 0 {
      MulDiffers(RowCount(shape), RowCount(l.B.shape), Cols(l));
    }
    if Rank(l) > 0 {
      MulDiffers(RowCount(shape), RowCount(l.B.shape), Rank(l));
    }
  }

  // ----- permute and transpose -----

  /** torch's and Python's negative numbers count from the end. */
  function Dimension(dim: int, n: nat): Option<nat> {
    if 0 <= dim < n then Some(dim) else if dim < 0 <= dim + n then Some(dim + n) else None
  }

  /** All dimensions of a list, or None if one does not exist. */
  function DimensionList(dims: seq<int>, n: nat): (r: Option<seq<nat>>)
    ensures r.Some? ==> |r.value| == |dims|
    ensures r.Some? ==> forall i :: 0 <= i < |dims| ==> Dimension(dims[i], n) == Some(r.value[i])
  {
    if forall i :: 0 <= i < |dims| ==> Dimension(dims[i], n).Some? then
      Some(seq(|dims|, i requires 0 <= i < |dims| && Dimension(dims[i], n).Some? => Dimension(dims[i], n).value))
    else None
  }

  function TorchPermute(t: Tensor, dims: seq<int>): Option<Tensor> {
    match DimensionList(dims, |t.shape|)
    case None => None
    case Some(ds) => Permute(t, ds)
  }

  function FromEnd(dims: seq<int>, n: nat): seq<int> {
    seq(|dims|, i requires 0 <= i < |dims| => if dims[i] >= 0 then dims[i] - n else dims[i])
  }

  function WithPermutedB(l: Lora, ds: seq<int>): Option<Lora> {
    match TorchPermute(l.B, ds)
    case None => None
    case Some(B) => New(l.A, B)
  }

  function WithSwappedFactors(l: Lora, ds: seq<int>): Option<Lora> {
    var A, B := TorchPermute(l.B, ds), TorchPermute(l.A, ds);
    if A.None? || B.None? then None else New(A.value, B.value)
  }

  datatype PermuteKind = PermuteRows | SwapFactors | NotSupported

  /** The case distinction of permute, on dimensions counted from the end. */
  function KindOfPermute(ds: seq<int>, n: nat, unit: bool): PermuteKind {
    var k := |ds|;
    if k == 0 then NotSupported
    else if ds[k - 1] == -1 then (if unit then PermuteRows else NotSupported)
    else if n == 2 && ds[k - 1] == -2 && k >= 2 && ds[k - 2] == -1 then SwapFactors
    else NotSupported
  }

  function LoraPermute(l: Lora, dims: seq<int>): Option<Lora>
    requires Constructed(l)
  {
    var ds := FromEnd(dims, Dims(l));
    match KindOfPermute(ds, Dims(l), UnitLead(l))
    case PermuteRows => WithPermutedB(l, ds)
    case SwapFactors => WithSwappedFactors(l, ds)
    case NotSupported => None
  }

  /** For dimensions that exist, counting from the end changes nothing. */
  lemma FromEndIsSame(dims: seq<int>, n: nat)
    requires DimensionList(dims, n).Some?
    ensures DimensionList(FromEnd(dims, n), n) == DimensionList(dims, n)
  {
    var back := FromEnd(dims, n);
    assert forall i :: 0 <= i < |dims| ==> Dimension(back[i], n) == Dimension(dims[i], n);
    assert DimensionList(back, n).value == DimensionList(dims, n).value;
  }

  /** A permutation that leaves the last dimension in place moves row coordinates among themselves. */
  lemma UnpermuteRows(ds: seq<nat>, n: nat, u: Index, x: nat)
    requires IsPermutation(ds, n) && n > 0 && ds[n - 1] == n - 1 && |u| == n - 1
    ensures Unpermute(ds, u + [x]) == Unpermute(ds, u + [0])[..n - 1] + [x]
  {
    forall d | 0 <= d < n - 1 ensures Unpermute(ds, u + [x])[d] == Unpermute(ds, u + [0])[d] {
      PermutationIsOnto(ds, n, d);
    }
    PermutationIsOnto(ds, n, n - 1);
  }

  lemma UnitLeadInA(l: Lora, u: Index, v: Index)
    requires UnitLead(l) && |u| == |v| == Dims(l) - 1
    ensures LeadInA(l.A.shape, u) == LeadInA(l.A.shape, v)
  {
  }

  lemma PermutedEntryOfB(b: Tensor, t: Tensor, ds: seq<nat>, u: Index, v: Index, k: nat)
    requires IsPermuted(b, t, ds) && |ds| > 0 && ds[|ds| - 1] == |ds| - 1
    requires |u| == |ds| - 1 && InBounds(b.shape, u + [k])
    requires v == Unpermute(ds, u + [0])[..|ds| - 1]
    ensures At(b, u + [k]) == At(t, v + [k])
  {
    UnpermuteRows(ds, |ds|, u, k);
    assert PermutedAt(b, t, ds, u + [k]);
  }

  /** Equal entries of B and the one A make equal terms. */
  lemma SameTerm(l: Lora, m: Lora, u: Index, v: Index, c: nat, k: nat)
    requires UnitLead(l) && Constructed(m) && m.A == l.A && |u| == |v| == Dims(l) - 1
    requires At(m.B, u + [k]) == At(l.B, v + [k])
    ensures Term(m, u, c, k) == Term(l, v, c, k)
  {
    UnitLeadInA(l, u, v);
  }

  lemma PermutedEntry(l: Lora, d: Tensor, e: Tensor, ds: seq<nat>, u: Index, v: Index, c: nat)
    requires IsDense(d, l) && IsPermuted(e, d, ds) && ds[Dims(l) - 1] == Dims(l) - 1
    requires |u| == Dims(l) - 1 && InBounds(e.shape, u + [c])
    requires v == Unpermute(ds, u + [0])[..Dims(l) - 1]
    ensures At(e, u + [c]) == Cell(l, v, c)
  {
    UnpermuteRows(ds, Dims(l), u, c);
    UnpermuteInBounds(e.shape, d.shape, ds, u + [c]);
    assert PermutedAt(e, d, ds, u + [c]) && DenseAt(d, l, v, c);
  }

  lemma PermutedCell(l: Lora, m: Lora, ds: seq<nat>, u: Index, v: Index, c: nat)
    requires UnitLead(l) && IsPermuted(m.B, l.B, ds) && ds[Dims(l) - 1] == Dims(l) - 1
    requires m.A == l.A && Constructed(m) && |u| == Dims(l) - 1 && InBounds(LoraShape(m), u + [c])
    requires v == Unpermute(ds, u + [0])[..Dims(l) - 1]
    ensures Cell(m, u, c) == Cell(l, v, c)
  {
    forall k: nat | k < Rank(l) ensures Term(m, u, c, k) == Term(l, v, c, k) {
      RowsInBounds(LoraShape(m), m.B.shape, u, c, k);
      PermutedEntryOfB(m.B, l.B, ds, u, v, k);
      SameTerm(l, m, u, v, c, k);
    }
    SameTermsSameCell(m, u, c, l, v, c);
  }

  lemma PermutedShape(l: Lora, d: Tensor, B: Tensor, e: Tensor, ds: seq<nat>)
    requires UnitLead(l) && d.shape == LoraShape(l)
    requires IsPermuted(B, l.B, ds) && IsPermuted(e, d, ds) && ds[Dims(l) - 1] == Dims(l) - 1
    ensures UnitLead(Lora(l.A, B)) && e.shape == LoraShape(Lora(l.A, B))
  {
    var n := Dims(l);
    forall i | 0 <= i < n ensures e.shape[i] == LoraShape(Lora(l.A, B))[i] {
      assert i < n - 1 ==> ds[i] != ds[n - 1];
    }
  }

  /** Permuting the rows of B among themselves permutes the rows of the product. */
  lemma PermutedRows(l: Lora, d: Tensor, B: Tensor, e: Tensor, ds: seq<nat>)
    requires UnitLead(l) && IsDense(d, l)
    requires IsPermuted(B, l.B, ds) && IsPermuted(e, d, ds) && ds[Dims(l) - 1] == Dims(l) - 1
    ensures UnitLead(Lora(l.A, B)) && IsDense(e, Lora(l.A, B))
  {
    var m := Lora(l.A, B);
    PermutedShape(l, d, B, e, ds);
    forall u: Index, c: nat ensures DenseAt(e, m, u, c) {
      if |u| == Dims(m) - 1 && InBounds(e.shape, u + [c]) {
        var v := Unpermute(ds, u + [0])[..Dims(l) - 1];
        PermutedEntry(l, d, e, ds, u, v, c);
        PermutedCell(l, m, ds, u, v, c);
      }
    }
  }

  /** Row coordinates that fit one shape fit another that differs in the last dimension only. */
  lemma RowsInBounds(s: Shape, t: Shape, u: Index, c: nat, k: nat)
    requires s != [] && |s| == |t| && s[..|s| - 1] == t[..|s| - 1] && |u| == |s| - 1
    requires InBounds(s, u + [c]) && k < t[|s| - 1]
    ensures InBounds(t, u + [k])
  {
    assert forall i :: 0 <= i < |u| ==> (u + [c])[i] == u[i] && s[..|s| - 1][i] == s[i] && t[..|s| - 1][i] == t[i];
  }

  const SWAP: seq<nat> := [1, 0]

  lemma TransposeAt(p: Tensor, t: Tensor, i: nat, j: nat)
    requires |t.shape| == 2 && i < t.shape[1] && j < t.shape[0] && IsPermuted(p, t, SWAP)
    ensures InBounds(p.shape, [i] + [j]) && InBounds(t.shape, [j] + [i])
    ensures At(p, [i] + [j]) == At(t, [j] + [i])
  {
    SwapPair(i, j);
    assert [i] + [j] == [i, j] && [j] + [i] == [j, i];
    assert p.shape[0] == t.shape[SWAP[0]] && p.shape[1] == t.shape[SWAP[1]];
    assert PermutedAt(p, t, SWAP, [i, j]);
  }

  lemma MatrixTerm(l: Lora, i: nat, c: nat, k: nat)
    requires Constructed(l) && Dims(l) == 2
    ensures Term(l, [i], c, k) == At(l.B, [i] + [k]) * At(l.A, [k] + [c])
  {
    assert LeadInA(l.A.shape, [i]) == [];
    assert [] + [k, c] == [k] + [c];
  }

  lemma TransposedTerm(l: Lora, m: Lora, i: nat, c: nat, k: nat)
    requires Constructed(l) && Dims(l) == 2 && Constructed(m) && Dims(m) == 2
    requires At(m.B, [i] + [k]) == At(l.A, [k] + [i]) && At(m.A, [k] + [c]) == At(l.B, [c] + [k])
    ensures Term(m, [i], c, k) == Term(l, [c], i, k)
  {
    MatrixTerm(m, i, c, k);
    MatrixTerm(l, c, i, k);
  }

  lemma TransposedCell(l: Lora, d: Tensor, m: Lora, e: Tensor, i: nat, c: nat)
    requires Constructed(l) && Dims(l) == 2 && IsPermuted(m.A, l.B, SWAP) && IsPermuted(m.B, l.A, SWAP)
    requires Constructed(m) && Rank(m) == Rank(l) && IsDense(d, l) && IsPermuted(e, d, SWAP)
    requires i < Cols(l) && c < l.B.shape[0]
    ensures At(e, [i] + [c]) == Cell(m, [i], c)
  {
    TransposeAt(e, d, i, c);
    assert DenseAt(d, l, [c], i);
    forall k: nat | k < Rank(l) ensures Term(m, [i], c, k) == Term(l, [c], i, k) {
      TransposeAt(m.B, l.A, i, k);
      TransposeAt(m.A, l.B, k, c);
      TransposedTerm(l, m, i, c, k);
    }
    SameTermsSameCell(m, [i], c, l, [c], i);
  }

  lemma SwapShape(p: Tensor, t: Tensor)
    requires |t.shape| == 2 && IsPermuted(p, t, SWAP)
    ensures |p.shape| == 2 && p.shape[0] == t.shape[1] && p.shape[1] == t.shape[0]
  {
    assert p.shape[0] == t.shape[SWAP[0]] && p.shape[1] == t.shape[SWAP[1]];
  }

  lemma SwappedConstructed(l: Lora, A: Tensor, B: Tensor)
    requires Constructed(l) && Dims(l) == 2 && IsPermuted(A, l.B, SWAP) && IsPermuted(B, l.A, SWAP)
    ensures UnitLead(Lora(A, B)) && Rank(Lora(A, B)) == Rank(l) && LoraShape(Lora(A, B)) == [Cols(l), l.B.shape[0]]
  {
    SwapShape(A, l.B);
    SwapShape(B, l.A);
  }

  /** Swapping the two dimensions of a matrix swaps the factors: (BA)' = A'B'. */
  lemma TransposedMatrix(l: Lora, d: Tensor, A: Tensor, B: Tensor, e: Tensor)
    requires Constructed(l) && Dims(l) == 2 && IsPermuted(A, l.B, SWAP) && IsPermuted(B, l.A, SWAP)
    requires IsDense(d, l) && IsPermuted(e, d, SWAP)
    ensures UnitLead(Lora(A, B)) && IsDense(e, Lora(A, B))
  {
    var m := Lora(A, B);
    SwappedConstructed(l, A, B);
    SwapShape(e, d);
    assert e.shape == LoraShape(m);
    forall u: Index, c: nat ensures DenseAt(e, m, u, c) {
      if |u| == 1 && InBounds(e.shape, u + [c]) {
        assert (u + [c])[0] == u[0] && (u + [c])[1] == c && u == [u[0]];
        TransposedCell(l, d, m, e, u[0], c);
      }
    }
  }

  lemma SwapPair(a: nat, b: nat)
    ensures Unpermute(SWAP, [a, b]) == [b, a]
  {
    assert SWAP[1..] == [0];
    assert PositionOf(SWAP, 0) == 1 && PositionOf(SWAP, 1) == 0;
  }

  lemma TorchPermuteIs(t: Tensor, dims: seq<int>, ds: seq<nat>)
    requires DimensionList(dims, |t.shape|) == Some(ds) && IsPermutation(ds, |t.shape|)
    ensures TorchPermute(t, dims).Some? && IsPermuted(TorchPermute(t, dims).value, t, ds)
  {
    PermuteIsPermuted(t, ds);
  }

  lemma LastDim(dims: seq<int>, n: nat, ds: seq<nat>)
    requires n > 0 && DimensionList(dims, n) == Some(ds) && |ds| == n
    ensures FromEnd(dims, n)[n - 1] == -1 <==> ds[n - 1] == n - 1
  {
    assert Dimension(dims[n - 1], n) == Some(ds[n - 1]);
  }

  lemma PermuteWithB(l: Lora, dims: seq<int>, back: seq<int>, ds: seq<nat>)
    requires UnitLead(l) && IsPermutation(ds, Dims(l)) && ds[Dims(l) - 1] == Dims(l) - 1
    requires DimensionList(dims, Dims(l)) == Some(ds) == DimensionList(back, Dims(l))
    ensures var r := WithPermutedB(l, back);
            r.Some? && UnitLead(r.value) && TorchPermute(Dense(l), dims) == Some(Dense(r.value))
  {
    TorchPermuteIs(l.B, back, ds);
    TorchPermuteIs(Dense(l), dims, ds);
    DenseIsDense(l);
    var B, e := TorchPermute(l.B, back).value, TorchPermute(Dense(l), dims).value;
    PermutedRows(l, Dense(l), B, e, ds);
    DenseIsUnique(e, Lora(l.A, B));
  }

  lemma SwappedFactorsAre(l: Lora, back: seq<int>) returns (m: Lora)
    requires Constructed(l) && Dims(l) == 2 && DimensionList(back, 2) == Some(SWAP)
    ensures WithSwappedFactors(l, back) == Some(m)
    ensures IsPermuted(m.A, l.B, SWAP) && IsPermuted(m.B, l.A, SWAP)
  {
    TorchPermuteIs(l.A, back, SWAP);
    TorchPermuteIs(l.B, back, SWAP);
    m := Lora(TorchPermute(l.B, back).value, TorchPermute(l.A, back).value);
    SwappedConstructed(l, m.A, m.B);
  }

  lemma PermuteWithBoth(l: Lora, dims: seq<int>, back: seq<int>)
    requires Constructed(l) && Dims(l) == 2
    requires DimensionList(dims, 2) == Some(SWAP) == DimensionList(back, 2)
    ensures var r := WithSwappedFactors(l, back);
            r.Some? && UnitLead(r.value) && TorchPermute(Dense(l), dims) == Some(Dense(r.value))
  {
    var m := SwappedFactorsAre(l, back);
    TorchPermuteIs(Dense(l), dims, SWAP);
    DenseIsDense(l);
    var e := TorchPermute(Dense(l), dims).value;
    TransposedMatrix(l, Dense(l), m.A, m.B, e);
    DenseIsUnique(e, m);
  }

  /** What permute does with dimensions that exist, `ds` being the ones meant. */
  lemma KindForExistingDims(dims: seq<int>, n: nat, ds: seq<nat>, unit: bool)
    requires n >= 2 && DimensionList(dims, n) == Some(ds) && IsPermutation(ds, n)
    ensures DimensionList(FromEnd(dims, n), n) == Some(ds)
    ensures KindOfPermute(FromEnd(dims, n), n, unit) ==
              if ds[n - 1] == n - 1 then (if unit then PermuteRows else NotSupported)
              else if n == 2 then SwapFactors
              else NotSupported
    ensures n == 2 && ds[1] != 1 ==> ds == SWAP
  {
    var back := FromEnd(dims, n);
    FromEndIsSame(dims, n);
    LastDim(dims, n, ds);
    assert Dimension(back[n - 1], n) == Some(ds[n - 1]) && Dimension(back[n - 2], n) == Some(ds[n - 2]);
  }

  /**
   * permute: where the product can be permuted (`ds` being the dimensions meant), the adapter can exactly if the last
   * dimension stays and A has unit leading dimensions, or there are only two dimensions; and then it permutes the
   * product.
   */
  lemma PermuteCommutes(l: Lora, dims: seq<int>, ds: seq<nat>)
    requires Constructed(l) && DimensionList(dims, Dims(l)) == Some(ds) && IsPermutation(ds, Dims(l))
    ensures LoraPermute(l, dims).Some? <==> Dims(l) == 2 || (UnitLead(l) && ds[Dims(l) - 1] == Dims(l) - 1)
    ensures LoraPermute(l, dims).Some? ==>
              var r := LoraPermute(l, dims).value;
              UnitLead(r) && TorchPermute(Dense(l), dims) == Some(Dense(r))
  {
    KindForExistingDims(dims, Dims(l), ds, UnitLead(l));
    if ds[Dims(l) - 1] == Dims(l) - 1 {
      if UnitLead(l) {
        PermuteWithB(l, dims, FromEnd(dims, Dims(l)), ds);
      }
    } else if Dims(l) == 2 {
      PermuteWithBoth(l, dims, FromEnd(dims, Dims(l)));
    }
  }

  function SwappedDims(n: nat, d0: int, d1: int): Option<seq<nat>> {
    var a, b := Dimension(d0, n), Dimension(d1, n);
    if a.None? || b.None? then None
    else Some(seq(n, i requires 0 <= i < n => if i == a.value then b.value else if i == b.value then a.value else i))
  }

  function TorchTranspose(t: Tensor, d0: int, d1: int): Option<Tensor> {
    match SwappedDims(|t.shape|, d0, d1)
    case None => None
    case Some(dims) => TorchPermute(t, dims)
  }

  function LoraTranspose(l: Lora, d0: int, d1: int): Option<Lora>
    requires Constructed(l)
  {
    match SwappedDims(Dims(l), d0, d1)
    case None => None
    case Some(dims) => LoraPermute(l, dims)
  }

  lemma SwapIsPermutation(n: nat, d0: int, d1: int)
    requires SwappedDims(n, d0, d1).Some?
    ensures var dims := SwappedDims(n, d0, d1).value; IsPermutation(dims, n) && DimensionList(dims, n) == Some(dims)
  {
    var dims := SwappedDims(n, d0, d1).value;
    assert DimensionList(dims, n).value == dims;
  }

  /** transpose: the same for exchanging two existing dimensions of the product. */
  lemma TransposeCommutes(l: Lora, d0: int, d1: int)
    requires Constructed(l) && SwappedDims(Dims(l), d0, d1).Some?
    ensures LoraTranspose(l, d0, d1).Some?
            <==> || Dims(l) == 2
                 || (UnitLead(l) && SwappedDims(Dims(l), d0, d1).value[Dims(l) - 1] == Dims(l) - 1)
    ensures LoraTranspose(l, d0, d1).Some? ==>
              var r := LoraTranspose(l, d0, d1).value;
              UnitLead(r) && TorchTranspose(Dense(l), d0, d1) == Some(Dense(r))
  {
    SwapIsPermutation(Dims(l), d0, d1);
    var dims := SwappedDims(Dims(l), d0, d1).value;
    PermuteCommutes(l, dims, dims);
  }
}
