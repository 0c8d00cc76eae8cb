/** Dense tensors: a shape and the entries in row-major order, with the few operations the converters use. */
module Tensors {
  import opened StringUtils

  type Shape = seq<nat>
  type Index = seq<nat>

  datatype RawTensor = Tensor(shape: Shape, data: seq<real>)

  type Tensor = t: RawTensor | |t.data| == Prod(t.shape) witness Tensor([0], [])

  // ----- row-major positions -----

  /** a * b by repeated addition, so that proofs that only carry sizes around meet no products of variables. */
  function Times(a: nat, b: nat): nat {
    if a == 0 then 0 else b + Times(a - 1, b)
  }

  lemma {:induction false} TimesIs(a: nat, b: nat)
    ensures Times(a, b) == a * b
  {
    if a > 0 {
      TimesIs(a - 1, b);
    }
  }

  function Prod(shape: Shape): nat {
    if shape == [] then 1 else Times(shape[0], Prod(shape[1..]))
  }

  predicate InBounds(shape: Shape, idx: Index) {
    |idx| == |shape| && forall i :: 0 <= i < |idx| ==> idx[i] < shape[i]
  }

  function Flat(shape: Shape, idx: Index): nat
    requires |idx| == |shape|
  {
    if shape == [] then 0 else Times(idx[0], Prod(shape[1..])) + Flat(shape[1..], idx[1..])
  }

  function Unflat(shape: Shape, n: nat): (idx: Index)
    requires n < Prod(shape)
    ensures InBounds(shape, idx)
  {
    if shape == [] then []
    else
      var rest := Prod(shape[1..]);
      DivModBounds(n, shape[0], rest);
      [n / rest] + Unflat(shape[1..], n % rest)
  }

  lemma DivModBounds(n: nat, q: nat, rest: nat)
    requires n < Times(q, rest)
    ensures rest > 0 && n / rest < q && n % rest < rest && n == Times(n / rest, rest) + n % rest
  {
    TimesIs(q, rest);
    DivModSplit(n, rest);
    TimesIs(n / rest, rest);
    if n / rest >= q {
      MulMonotone(q, n / rest, rest);
    }
  }

  lemma MulMonotone(a: nat, b: nat, c: nat)
    requires a <= b
    ensures a * c <= b * c
  {
  }

  lemma DivModSplit(n: nat, rest: nat)
    requires rest > 0
    ensures n == Times(n / rest, rest) + n % rest
  {
    TimesIs(n / rest, rest);
  }

  /** A number is a multiple and a smaller remainder in one way only. */
  lemma {:induction false} SplitUnique(p: nat, m: nat, q: nat, f: nat, rest: nat)
    requires m < rest && f < rest && Times(p, rest) + m == Times(q, rest) + f
    ensures p == q && m == f
    decreases p
  {
    if p > 0 && q > 0 {
      SplitUnique(p - 1, m, q - 1, f, rest);
    }
  }

  lemma DivModUnique(q: nat, rest: nat, f: nat)
    requires f < rest
    ensures (Times(q, rest) + f) / rest == q && (Times(q, rest) + f) % rest == f
  {
    var n := Times(q, rest) + f;
    DivModSplit(n, rest);
    SplitUnique(n / rest, n % rest, q, f, rest);
  }

  lemma {:induction false} FlatBound(shape: Shape, idx: Index)
    requires InBounds(shape, idx)
    ensures Flat(shape, idx) < Prod(shape)
  {
    if shape != [] {
      FlatBound(shape[1..], idx[1..]);
      RowBound(idx[0], shape[0], Prod(shape[1..]), Flat(shape[1..], idx[1..]));
    }
  }

  lemma RowBound(i: nat, rows: nat, size: nat, f: nat)
    requires i < rows && f < size
    ensures Times(i, size) + f < Times(rows, size)
  {
    TimesIs(i, size);
    TimesIs(rows, size);
    MulMonotone(i + 1, rows, size);
  }

  lemma {:induction false} UnflatFlat(shape: Shape, idx: Index)
    requires InBounds(shape, idx)
    ensures Flat(shape, idx) < Prod(shape) && Unflat(shape, Flat(shape, idx)) == idx
  {
    FlatBound(shape, idx);
    if shape != [] {
      var rest := shape[1..];
      FlatBound(rest, idx[1..]);
      DivModUnique(idx[0], Prod(rest), Flat(rest, idx[1..]));
      UnflatFlat(rest, idx[1..]);
    }
  }

  lemma {:induction false} FlatUnflat(shape: Shape, n: nat)
    requires n < Prod(shape)
    ensures Flat(shape, Unflat(shape, n)) == n
  {
    if shape != [] {
      var rest := Prod(shape[1..]);
      DivModBounds(n, shape[0], rest);
      FlatUnflat(shape[1..], n % rest);
      assert Unflat(shape, n)[1..] == Unflat(shape[1..], n % rest);
    }
  }

  /** The last coordinate moves fastest. */
  lemma {:induction false} FlatSnoc(shape: Shape, idx: Index, m: nat, x: nat)
    requires |idx| == |shape|
    ensures Prod(shape + [m]) == Times(Prod(shape), m)
    ensures Flat(shape + [m], idx + [x]) == Times(Flat(shape, idx), m) + x
  {
    if shape == [] {
      assert shape + [m] == [m] && idx + [x] == [x] && [m][1..] == [] && [x][1..] == [];
      TimesIs(m, 1);
      TimesIs(1, m);
      TimesIs(x, 1);
      TimesIs(0, m);
    } else {
      FlatSnoc(shape[1..], idx[1..], m, x);
      assert (shape + [m])[1..] == shape[1..] + [m] && (idx + [x])[1..] == idx[1..] + [x];
      Reassociate(shape[0], Prod(shape[1..]), 0, m);
      Reassociate(idx[0], Prod(shape[1..]), Flat(shape[1..], idx[1..]), m);
    }
  }

  lemma Reassociate(a: nat, b: nat, f: nat, c: nat)
    ensures Times(a, Times(b, c)) + Times(f, c) == Times(Times(a, b) + f, c)
  {
    TimesIs(b, c);
    TimesIs(a, Times(b, c));
    TimesIs(f, c);
    TimesIs(a, b);
    TimesIs(Times(a, b) + f, c);
    Distribute(a, b, f, c);
  }

  lemma Distribute(a: nat, b: nat, f: nat, c: nat)
    ensures a * (b * c) + f * c == (a * b + f) * c
  {
    assert a * (b * c) == a * b * c;
  }

  // ----- entries -----

  /** The entry at an index; zero outside, so that entries can be read in lambdas. */
  function At(t: Tensor, idx: Index): real {
    if InBounds(t.shape, idx) then
      FlatBound(t.shape, idx);
      t.data[Flat(t.shape, idx)]
    else 0.0
  }

  function Build(shape: Shape, f: Index -> real): (t: Tensor)
    ensures t.shape == shape
  {
    Tensor(shape, seq(Prod(shape), n requires 0 <= n < Prod(shape) => f(Unflat(shape, n))))
  }

  lemma BuildAt(shape: Shape, f: Index -> real, idx: Index)
    requires InBounds(shape, idx)
    ensures At(Build(shape, f), idx) == f(idx)
  {
    UnflatFlat(shape, idx);
  }

  lemma SameEntriesSameTensor(a: Tensor, b: Tensor)
    requires a.shape == b.shape
    requires forall idx :: InBounds(a.shape, idx) ==> At(a, idx) == At(b, idx)
    ensures a == b
  {
    forall n | 0 <= n < |a.data| ensures a.data[n] == b.data[n] {
      var idx := Unflat(a.shape, n);
      FlatUnflat(a.shape, n);
      assert At(a, idx) == At(b, idx);
    }
  }

  // ----- reshape -----

  /** Same entries in the same order under another shape; None if the sizes differ. */
  function Reshape(t: Tensor, shape: Shape): (r: Option<Tensor>)
    ensures r.Some? <==> Prod(shape) == Prod(t.shape)
    ensures r.Some? ==> r.value.shape == shape && r.value.data == t.data
  {
    if Prod(shape) == Prod(t.shape) then Some(Tensor(shape, t.data)) else None
  }

  // ----- permute -----

  predicate IsPermutation(dims: seq<nat>, n: nat) {
    && |dims| == n
    && (forall i :: 0 <= i < n ==> dims[i] < n)
    && (forall i, j :: 0 <= i < j < n ==> dims[i] != dims[j])
  }

  /** The position of `d` in `dims`, or |dims|. */
  function PositionOf(dims: seq<nat>, d: nat): (p: nat)
    ensures p <= |dims| && (p < |dims| ==> dims[p] == d)
    ensures forall i :: 0 <= i < p ==> dims[i] != d
  {
    if dims == [] then 0 else if dims[0] == d then 0 else 1 + PositionOf(dims[1..], d)
  }

  /** Moves coordinates back: coordinate d of the source is where `dims` put it. */
  function Unpermute(dims: seq<nat>, idx: Index): (r: Index)
    requires |idx| == |dims|
    ensures |r| == |dims|
  {
    seq(|dims|, d requires 0 <= d < |dims| =>
      var p := PositionOf(dims, d); if p < |idx| then idx[p] else 0)
  }

  function AtUnpermuted(t: Tensor, dims: seq<nat>, idx: Index): real {
    if |idx| == |dims| then At(t, Unpermute(dims, idx)) else 0.0
  }

  function Permute(t: Tensor, dims: seq<nat>): (r: Option<Tensor>)
    ensures r.Some? <==> IsPermutation(dims, |t.shape|)
    ensures r.Some? ==> r.value.shape == seq(|dims|, i requires 0 <= i < |dims| => t.shape[dims[i]])
  {
    if IsPermutation(dims, |t.shape|) then
      var shape := seq(|dims|, i requires 0 <= i < |dims| => t.shape[dims[i]]);
      Some(Build(shape, idx => AtUnpermuted(t, dims, idx)))
    else None
  }

  /** Every number below n occurs in a permutation of n. */
  lemma PermutationIsOnto(dims: seq<nat>, n: nat, d: nat)
    requires IsPermutation(dims, n) && d < n
    ensures PositionOf(dims, d) < n
  {
    var used := FirstEntries(dims, n);
    SubsetOfSameSize(used, UpTo(n));
    assert d in used;
  }

  function UpTo(n: nat): (r: set<nat>)
    ensures |r| == n && forall x: nat :: x in r <==> x < n
  {
    if n == 0 then {} else UpTo(n - 1) + {n - 1}
  }

  /** The entries of a sequence without repetition, as a set of the same size. */
  function FirstEntries(dims: seq<nat>, k: nat): (r: set<nat>)
    requires k <= |dims| && forall i, j :: 0 <= i < j < |dims| ==> dims[i] != dims[j]
    ensures |r| == k && forall x :: x in r <==> exists i :: 0 <= i < k && dims[i] == x
  {
    if k == 0 then {} else FirstEntries(dims, k - 1) + {dims[k - 1]}
  }

  lemma SubsetOfSameSize<T>(a: set<T>, b: set<T>)
    requires a <= b && |a| == |b|
    ensures a == b
  {
    assert b == a + (b - a);
  }

  // The facts about single entries are named, so that a proof says which of them it uses.

  ghost predicate PermutedAt(p: Tensor, t: Tensor, dims: seq<nat>, idx: Index)
    requires |p.shape| == |dims|
  {
    InBounds(p.shape, idx) ==> At(p, idx) == At(t, Unpermute(dims, idx))
  }

  /** `p` is `t` with its dimensions reordered, entry by entry. */
  ghost predicate IsPermuted(p: Tensor, t: Tensor, dims: seq<nat>) {
    && IsPermutation(dims, |t.shape|)
    && |p.shape| == |dims|
    && (forall i :: 0 <= i < |dims| ==> p.shape[i] == t.shape[dims[i]])
    && (forall idx :: PermutedAt(p, t, dims, idx))
  }

  lemma PermuteIsPermuted(t: Tensor, dims: seq<nat>)
    requires IsPermutation(dims, |t.shape|)
    ensures IsPermuted(Permute(t, dims).value, t, dims)
  {
    var p := Permute(t, dims).value;
    forall idx ensures PermutedAt(p, t, dims, idx) {
      if InBounds(p.shape, idx) {
        BuildAt(p.shape, i => AtUnpermuted(t, dims, i), idx);
      }
    }
  }

  lemma UnpermuteInBounds(p: Shape, t: Shape, dims: seq<nat>, idx: Index)
    requires IsPermutation(dims, |t|) && |p| == |dims|
    requires forall i :: 0 <= i < |dims| ==> p[i] == t[dims[i]]
    requires InBounds(p, idx)
    ensures InBounds(t, Unpermute(dims, idx))
  {
    forall d | 0 <= d < |dims| ensures Unpermute(dims, idx)[d] < t[d] {
      PermutationIsOnto(dims, |dims|, d);
    }
  }

  // ----- indexing -----

  /** What an index expression selects in one dimension: positions, and whether the dimension stays. */
  datatype Pick = Pick(keep: bool, positions: seq<nat>)

  predicate PickFits(pick: Pick, n: nat) {
    (!pick.keep ==> |pick.positions| == 1) && forall p :: p in pick.positions ==> p < n
  }

  predicate PicksFit(shape: Shape, picks: seq<Pick>)
    decreases |picks|
  {
    if picks == [] then shape == []
    else shape != [] && PickFits(picks[0], shape[0]) && PicksFit(shape[1..], picks[1..])
  }

  function PickedShape(picks: seq<Pick>): Shape {
    if picks == [] then []
    else (if picks[0].keep then [|picks[0].positions|] else []) + PickedShape(picks[1..])
  }

  /** The index in the source that an index into the selection stands for. */
  function Source(picks: seq<Pick>, idx: Index): (r: Index)
    ensures |r| == |picks|
    decreases |picks|
  {
    if picks == [] then []
    else if picks[0].keep then
      if idx == [] || idx[0] >= |picks[0].positions| then seq(|picks|, _ => 0)
      else [picks[0].positions[idx[0]]] + Source(picks[1..], idx[1..])
    else
      [if picks[0].positions == [] then 0 else picks[0].positions[0]] + Source(picks[1..], idx)
  }

  function AtSource(t: Tensor, picks: seq<Pick>, idx: Index): real {
    At(t, Source(picks, idx))
  }

  function Select(t: Tensor, picks: seq<Pick>): (r: Option<Tensor>)
    ensures r.Some? <==> PicksFit(t.shape, picks)
    ensures r.Some? ==> r.value.shape == PickedShape(picks)
  {
    if PicksFit(t.shape, picks) then Some(Build(PickedShape(picks), idx => AtSource(t, picks, idx))) else None
  }

  lemma {:induction false} SourceInBounds(shape: Shape, picks: seq<Pick>, idx: Index)
    requires PicksFit(shape, picks) && InBounds(PickedShape(picks), idx)
    ensures InBounds(shape, Source(picks, idx))
    decreases |picks|
  {
    if picks != [] {
      var rest := PickedShape(picks[1..]);
      if picks[0].keep {
        assert PickedShape(picks)[1..] == rest;
        SourceInBounds(shape[1..], picks[1..], idx[1..]);
        assert picks[0].positions[idx[0]] in picks[0].positions;
      } else {
        assert PickedShape(picks) == rest;
        SourceInBounds(shape[1..], picks[1..], idx);
        assert picks[0].positions[0] in picks[0].positions;
      }
    }
  }

  ghost predicate SelectedAt(s: Tensor, t: Tensor, picks: seq<Pick>, idx: Index) {
    InBounds(s.shape, idx) ==> At(s, idx) == At(t, Source(picks, idx))
  }

  /** `s` holds what the picks select from `t`. */
  ghost predicate IsSelected(s: Tensor, t: Tensor, picks: seq<Pick>) {
    && PicksFit(t.shape, picks)
    && s.shape == PickedShape(picks)
    && (forall idx :: SelectedAt(s, t, picks, idx))
  }

  lemma SelectIsSelected(t: Tensor, picks: seq<Pick>)
    requires PicksFit(t.shape, picks)
    ensures IsSelected(Select(t, picks).value, t, picks)
  {
    forall idx ensures SelectedAt(Select(t, picks).value, t, picks, idx) {
      if InBounds(PickedShape(picks), idx) {
        BuildAt(PickedShape(picks), i => AtSource(t, picks, i), idx);
      }
    }
  }

  // ----- stack and cat along the first dimension -----

  predicate SameShapes(ts: seq<Tensor>) {
    forall i :: 0 <= i < |ts| ==> ts[i].shape == ts[0].shape
  }

  function StackEntry(ts: seq<Tensor>, idx: Index): real {
    if idx == [] || idx[0] >= |ts| then 0.0 else At(ts[idx[0]], idx[1..])
  }

  function Stack(ts: seq<Tensor>): (r: Option<Tensor>)
    ensures r.Some? <==> ts != [] && SameShapes(ts)
    ensures r.Some? ==> r.value.shape == [|ts|] + ts[0].shape
  {
    if ts != [] && SameShapes(ts) then
      Some(Build([|ts|] + ts[0].shape, idx => StackEntry(ts, idx)))
    else None
  }

  ghost predicate StackedAt(s: Tensor, ts: seq<Tensor>, i: nat, idx: Index)
    requires i < |ts|
  {
    InBounds(ts[i].shape, idx) ==> At(s, [i] + idx) == At(ts[i], idx)
  }

  /** `s` holds the tensors one after the other along a new first dimension. */
  ghost predicate IsStacked(s: Tensor, ts: seq<Tensor>) {
    && ts != [] && SameShapes(ts)
    && s.shape == [|ts|] + ts[0].shape
    && (forall i: nat, idx: Index :: i < |ts| ==> StackedAt(s, ts, i, idx))
  }

  lemma StackIsStacked(ts: seq<Tensor>)
    requires ts != [] && SameShapes(ts)
    ensures IsStacked(Stack(ts).value, ts)
  {
    var s := Stack(ts).value;
    forall i: nat, idx: Index | i < |ts| ensures StackedAt(s, ts, i, idx) {
      if InBounds(ts[i].shape, idx) {
        assert ts[i].shape == ts[0].shape;
        assert InBounds(s.shape, [i] + idx) by {
          assert forall k :: 0 < k < |s.shape| ==> s.shape[k] == ts[0].shape[k - 1] && ([i] + idx)[k] == idx[k - 1];
        }
        BuildAt(s.shape, x => StackEntry(ts, x), [i] + idx);
        assert ([i] + idx)[1..] == idx;
      }
    }
  }

  predicate CatFits(ts: seq<Tensor>) {
    && ts != []
    && forall i :: 0 <= i < |ts| ==> ts[i].shape != [] && ts[0].shape != [] && ts[i].shape[1..] == ts[0].shape[1..]
  }

  function TotalRows(ts: seq<Tensor>): nat
    requires forall i :: 0 <= i < |ts| ==> ts[i].shape != []
  {
    if ts == [] then 0 else ts[0].shape[0] + TotalRows(ts[1..])
  }

  /** The entry of row `idx[0]` counted through all the tensors one after the other. */
  function CatAt(ts: seq<Tensor>, idx: Index): real
    requires forall i :: 0 <= i < |ts| ==> ts[i].shape != []
    decreases |ts|
  {
    if ts == [] || idx == [] then 0.0
    else if idx[0] < ts[0].shape[0] then At(ts[0], idx)
    else CatAt(ts[1..], [idx[0] - ts[0].shape[0]] + idx[1..])
  }

  function CatEntry(ts: seq<Tensor>, idx: Index): real {
    if forall i :: 0 <= i < |ts| ==> ts[i].shape != [] then CatAt(ts, idx) else 0.0
  }

  function Cat(ts: seq<Tensor>): (r: Option<Tensor>)
    ensures r.Some? <==> CatFits(ts)
    ensures r.Some? ==> r.value.shape == [TotalRows(ts)] + ts[0].shape[1..]
  {
    if CatFits(ts) then Some(Build([TotalRows(ts)] + ts[0].shape[1..], idx => CatEntry(ts, idx))) else None
  }

  /** The tensor that holds a row of the concatenation, and the row's number there. */
  function Locate(ts: seq<Tensor>, row: nat): (r: (nat, nat))
    requires forall i :: 0 <= i < |ts| ==> ts[i].shape != []
    requires row < TotalRows(ts)
    ensures r.0 < |ts| && r.1 < ts[r.0].shape[0]
  {
    if row < ts[0].shape[0] then (0, row)
    else
      var rest := Locate(ts[1..], row - ts[0].shape[0]);
      (rest.0 + 1, rest.1)
  }

  lemma {:induction false} CatAtIs(ts: seq<Tensor>, row: nat, rest: Index)
    requires forall i :: 0 <= i < |ts| ==> ts[i].shape != []
    requires row < TotalRows(ts)
    ensures var at := Locate(ts, row); CatAt(ts, [row] + rest) == At(ts[at.0], [at.1] + rest)
    decreases |ts|
  {
    assert ([row] + rest)[1..] == rest;
    if row >= ts[0].shape[0] {
      CatAtIs(ts[1..], row - ts[0].shape[0], rest);
    }
  }

  ghost predicate RowAt(s: Tensor, ts: seq<Tensor>, row: nat, rest: Index)
    requires CatFits(ts) && row < TotalRows(ts)
  {
    InBounds(ts[0].shape[1..], rest) ==>
      var at := Locate(ts, row); At(s, [row] + rest) == At(ts[at.0], [at.1] + rest)
  }

  /** `s` holds the rows of the tensors one after the other. */
  ghost predicate IsCat(s: Tensor, ts: seq<Tensor>) {
    && CatFits(ts)
    && s.shape == [TotalRows(ts)] + ts[0].shape[1..]
    && (forall row: nat, rest: Index :: row < TotalRows(ts) ==> RowAt(s, ts, row, rest))
  }

  lemma CatIsCat(ts: seq<Tensor>)
    requires CatFits(ts)
    ensures IsCat(Cat(ts).value, ts)
  {
    var s := Cat(ts).value;
    forall row: nat, rest: Index | row < TotalRows(ts) ensures RowAt(s, ts, row, rest) {
      if InBounds(ts[0].shape[1..], rest) {
        assert InBounds(s.shape, [row] + rest) by {
          assert forall k :: 0 < k < |s.shape| ==> s.shape[k] == ts[0].shape[1..][k - 1] && ([row] + rest)[k] == rest[k - 1];
        }
        BuildAt(s.shape, x => CatEntry(ts, x), [row] + rest);
        CatAtIs(ts, row, rest);
      }
    }
  }
}
