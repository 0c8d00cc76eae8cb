/** torch.stack and torch.cat of factored tensors along the first dimension. */
module LoraStacking {
  import opened StringUtils
  import opened Tensors
  import opened Lora
  import opened LoraIndexing

  function As(ls: seq<Lora>): (r: seq<Tensor>)
    ensures |r| == |ls| && forall i :: 0 <= i < |ls| ==> r[i] == ls[i].A
  {
    seq(|ls|, i requires 0 <= i < |ls| => ls[i].A)
  }

  function Bs(ls: seq<Lora>): (r: seq<Tensor>)
    ensures |r| == |ls| && forall i :: 0 <= i < |ls| ==> r[i] == ls[i].B
  {
    seq(|ls|, i requires 0 <= i < |ls| => ls[i].B)
  }

  /** The tensors the adapters stand for. */
  ghost predicate AreDense(ds: seq<Tensor>, ls: seq<Lora>) {
    |ds| == |ls| && forall i :: 0 <= i < |ls| ==> Constructed(ls[i]) && ds[i] == Dense(ls[i])
  }

  function LoraStack(ls: seq<Lora>): Option<Lora> {
    NewFrom(Stack(As(ls)), Stack(Bs(ls)))
  }

  function LoraCat(ls: seq<Lora>): Option<Lora>
    requires forall i :: 0 <= i < |ls| ==> Constructed(ls[i])
  {
    if ls == [] then None
    else if Dims(ls[0]) > 2 then NewFrom(Cat(As(ls)), Cat(Bs(ls)))
    else if forall i :: 0 < i < |ls| ==> ls[i].A == ls[0].A then NewFrom(Some(ls[0].A), Cat(Bs(ls)))
    else None
  }

  // ----- stack -----

  lemma StackedShape(ls: seq<Lora>, m: Lora, i: nat)
    requires i < |ls| && Meaningful(ls[i])
    requires IsStacked(m.A, As(ls)) && IsStacked(m.B, Bs(ls))
    ensures m.A.shape == [|ls|] + ls[i].A.shape && m.B.shape == [|ls|] + ls[i].B.shape
    ensures Meaningful(m) && LoraShape(m) == [|ls|] + LoraShape(ls[i]) && Rank(m) == Rank(ls[i])
  {
    assert As(ls)[i].shape == As(ls)[0].shape && Bs(ls)[i].shape == Bs(ls)[0].shape;
    forall j | 0 <= j < Dims(m) - 2 ensures m.A.shape[j] == 1 || m.A.shape[j] == m.B.shape[j] {
      assert j > 0 ==> m.A.shape[j] == ls[i].A.shape[j - 1] && m.B.shape[j] == ls[i].B.shape[j - 1];
    }
  }

  lemma LeadOfStack(shapeA: Shape, n: nat, i: nat, u: Index)
    requires |u| > 0 && |shapeA| == |u| + 1 && i < n
    ensures LeadInA([n] + shapeA, [i] + u) == [i] + LeadInA(shapeA, u)
  {
  }

  lemma LeadInBounds(l: Lora, u: Index, k: nat, c: nat)
    requires Meaningful(l) && InBounds(l.B.shape[..Dims(l) - 1], u) && k < Rank(l) && c < Cols(l)
    ensures InBounds(l.A.shape, LeadInA(l.A.shape, u) + [k, c]) && InBounds(l.B.shape, u + [k])
  {
    var v := LeadInA(l.A.shape, u);
    forall i | 0 <= i < Dims(l) ensures (v + [k, c])[i] < l.A.shape[i] {
      assert i < Dims(l) - 2 ==> u[i] < l.B.shape[..Dims(l) - 1][i];
    }
    RowsThenLast(l.B.shape, u, k);
  }

  lemma RowsThenLast(shape: Shape, u: Index, k: nat)
    requires shape != [] && InBounds(shape[..|shape| - 1], u) && k < shape[|shape| - 1]
    ensures InBounds(shape, u + [k])
  {
    SplitLast(shape, u + [k]);
    assert (u + [k])[..|u|] == u;
  }

  lemma EntryOfStack(s: Tensor, ts: seq<Tensor>, i: nat, v: Index, idx: Index)
    requires i < |ts| && IsStacked(s, ts) && InBounds(ts[i].shape, idx) && v == [i] + idx
    ensures At(s, v) == At(ts[i], idx)
  {
    assert StackedAt(s, ts, i, idx);
  }

  lemma StackedTerm(ls: seq<Lora>, m: Lora, i: nat, u: Index, c: nat, k: nat)
    requires i < |ls| && Meaningful(ls[i])
    requires IsStacked(m.A, As(ls)) && IsStacked(m.B, Bs(ls)) && Constructed(m) && Dims(m) == Dims(ls[i]) + 1
    requires m.A.shape == [|ls|] + ls[i].A.shape
    requires InBounds(ls[i].B.shape[..Dims(ls[i]) - 1], u) && c < Cols(ls[i]) && k < Rank(ls[i])
    ensures Term(m, [i] + u, c, k) == Term(ls[i], u, c, k)
  {
    var v := LeadInA(ls[i].A.shape, u);
    LeadOfStack(ls[i].A.shape, |ls|, i, u);
    LeadInBounds(ls[i], u, k, c);
    Assoc([i], v, [k, c]);
    Assoc([i], u, [k]);
    EntryOfStack(m.A, As(ls), i, [i] + v + [k, c], v + [k, c]);
    EntryOfStack(m.B, Bs(ls), i, [i] + u + [k], u + [k]);
  }

  lemma StackedCell(ls: seq<Lora>, m: Lora, i: nat, u: Index, c: nat)
    requires i < |ls| && Meaningful(ls[i])
    requires IsStacked(m.A, As(ls)) && IsStacked(m.B, Bs(ls))
    requires InBounds(ls[i].B.shape[..Dims(ls[i]) - 1], u) && c < Cols(ls[i])
    ensures Constructed(m) && Dims(m) == |u| + 2 && Cell(m, [i] + u, c) == Cell(ls[i], u, c)
  {
    StackedShape(ls, m, i);
    forall k: nat | k < Rank(m) ensures Term(m, [i] + u, c, k) == Term(ls[i], u, c, k) {
      StackedTerm(ls, m, i, u, c, k);
    }
    SameTermsSameCell(m, [i] + u, c, ls[i], u, c);
  }

  /** An index into the stack of the products, taken apart. */
  lemma StackIndex(shape: Shape, n: nat, u: Index, c: nat)
    requires shape != [] && |u| == |shape| && InBounds([n] + shape, u + [c])
    ensures u[0] < n && InBounds(shape[..|shape| - 1], u[1..]) && c < shape[|shape| - 1]
    ensures InBounds(shape, u[1..] + [c]) && u == [u[0]] + u[1..] && u + [c] == [u[0]] + (u[1..] + [c])
  {
    var idx := u[1..] + [c];
    forall j | 0 <= j < |shape| ensures idx[j] < shape[j] {
      assert (u + [c])[j + 1] == idx[j] && ([n] + shape)[j + 1] == shape[j];
    }
    assert u[0] == (u + [c])[0] && n == ([n] + shape)[0];
    SplitLast(shape, idx);
    assert idx[..|shape| - 1] == u[1..];
  }

  lemma StackedEntry(ls: seq<Lora>, ds: seq<Tensor>, m: Lora, e: Tensor, i: nat, v: Index, c: nat)
    requires AreDense(ds, ls) && i < |ls| && Meaningful(ls[i])
    requires IsStacked(m.A, As(ls)) && IsStacked(m.B, Bs(ls)) && IsStacked(e, ds)
    requires InBounds(ls[i].B.shape[..Dims(ls[i]) - 1], v) && c < Cols(ls[i])
    requires InBounds(LoraShape(ls[i]), v + [c])
    ensures Constructed(m) && Dims(m) == |v| + 2 && At(e, [i] + (v + [c])) == Cell(m, [i] + v, c)
  {
    DenseIsDense(ls[i]);
    assert StackedAt(e, ds, i, v + [c]) && DenseAt(ds[i], ls[i], v, c);
    StackedCell(ls, m, i, v, c);
  }

  lemma StackedDenseAt(ls: seq<Lora>, ds: seq<Tensor>, m: Lora, e: Tensor, u: Index, c: nat)
    requires ls != [] && AreDense(ds, ls) && forall i :: 0 <= i < |ls| ==> Meaningful(ls[i])
    requires IsStacked(m.A, As(ls)) && IsStacked(m.B, Bs(ls)) && IsStacked(e, ds)
    requires Constructed(m) && e.shape == [|ls|] + LoraShape(ls[0]) && |u| == Dims(ls[0]) && InBounds(e.shape, u + [c])
    ensures At(e, u + [c]) == Cell(m, u, c)
  {
    StackIndex(LoraShape(ls[0]), |ls|, u, c);
    StackedShape(ls, m, u[0]);
    StackedShape(ls, m, 0);
    assert LoraShape(ls[u[0]]) == LoraShape(m)[1..] == LoraShape(ls[0]);
    RowsOfShape(ls[u[0]]);
    StackedEntry(ls, ds, m, e, u[0], u[1..], c);
  }

  lemma StackedDense(ls: seq<Lora>, ds: seq<Tensor>, m: Lora, e: Tensor)
    requires ls != [] && AreDense(ds, ls) && forall i :: 0 <= i < |ls| ==> Meaningful(ls[i])
    requires IsStacked(m.A, As(ls)) && IsStacked(m.B, Bs(ls)) && IsStacked(e, ds)
    ensures IsDense(e, m)
  {
    StackedShape(ls, m, 0);
    forall u: Index, c: nat ensures DenseAt(e, m, u, c) {
      if |u| == Dims(m) - 1 && InBounds(e.shape, u + [c]) {
        StackedDenseAt(ls, ds, m, e, u, c);
      }
    }
  }

  lemma RowsOfShape(l: Lora)
    requires Constructed(l)
    ensures LoraShape(l)[..Dims(l) - 1] == l.B.shape[..Dims(l) - 1] && LoraShape(l)[Dims(l) - 1] == Cols(l)
  {
  }

  lemma StackSucceeds(ls: seq<Lora>)
    requires ls != [] && forall i :: 0 <= i < |ls| ==> Meaningful(ls[i])
    ensures LoraStack(ls).Some? <==> SameShapes(As(ls)) && SameShapes(Bs(ls))
    ensures LoraStack(ls).Some? ==>
              var m := LoraStack(ls).value;
              IsStacked(m.A, As(ls)) && IsStacked(m.B, Bs(ls)) && Meaningful(m)
  {
    if SameShapes(As(ls)) && SameShapes(Bs(ls)) {
      StackIsStacked(As(ls));
      StackIsStacked(Bs(ls));
      StackedShape(ls, Lora(Stack(As(ls)).value, Stack(Bs(ls)).value), 0);
    }
  }

  lemma DensesHaveOneShape(ls: seq<Lora>, ds: seq<Tensor>)
    requires ls != [] && AreDense(ds, ls) && SameShapes(As(ls)) && SameShapes(Bs(ls))
    ensures SameShapes(ds)
  {
    forall i | 0 <= i < |ds| ensures ds[i].shape == ds[0].shape {
      assert As(ls)[i].shape == As(ls)[0].shape && Bs(ls)[i].shape == Bs(ls)[0].shape;
    }
  }

  /** torch.stack of adapters, whatever their A, is the stack of their products; it needs equal shapes of the factors. */
  lemma StackCommutes(ls: seq<Lora>, ds: seq<Tensor>)
    requires ls != [] && AreDense(ds, ls) && forall i :: 0 <= i < |ls| ==> Meaningful(ls[i])
    ensures LoraStack(ls).Some? <==> SameShapes(As(ls)) && SameShapes(Bs(ls))
    ensures LoraStack(ls).Some? ==>
              Meaningful(LoraStack(ls).value) && Stack(ds) == Some(Dense(LoraStack(ls).value))
  {
    StackSucceeds(ls);
    if LoraStack(ls).Some? {
      DensesHaveOneShape(ls, ds);
      StackIsStacked(ds);
      StackedDense(ls, ds, LoraStack(ls).value, Stack(ds).value);
      DenseIsUnique(Stack(ds).value, LoraStack(ls).value);
    }
  }

  // ----- cat -----

  predicate SameRowCounts(ts: seq<Tensor>, ss: seq<Tensor>) {
    |ts| == |ss| && forall i :: 0 <= i < |ts| ==> ts[i].shape != [] && ss[i].shape != [] && ts[i].shape[0] == ss[i].shape[0]
  }

  /** Where a row is depends on the numbers of rows only. */
  lemma {:induction false} SameTotal(ts: seq<Tensor>, ss: seq<Tensor>)
    requires SameRowCounts(ts, ss)
    ensures TotalRows(ts) == TotalRows(ss)
  {
    if ts != [] {
      SameTotal(ts[1..], ss[1..]);
    }
  }

  lemma {:induction false} SameLocation(ts: seq<Tensor>, ss: seq<Tensor>, row: nat)
    requires SameRowCounts(ts, ss) && row < TotalRows(ts)
    ensures row < TotalRows(ss) && Locate(ts, row) == Locate(ss, row)
  {
    SameTotal(ts, ss);
    if row >= ts[0].shape[0] {
      SameLocation(ts[1..], ss[1..], row - ts[0].shape[0]);
    }
  }

  predicate SameA(ls: seq<Lora>) {
    forall i :: 0 <= i < |ls| ==> Constructed(ls[i]) && Dims(ls[i]) == 2 && ls[i].A == ls[0].A
  }

  lemma MatrixRow(ls: seq<Lora>, ds: seq<Tensor>, i: nat)
    requires SameA(ls) && AreDense(ds, ls) && i < |ls|
    ensures ds[i].shape == [ls[i].B.shape[0], Cols(ls[0])] && ls[i].B.shape == [ls[i].B.shape[0], Rank(ls[0])]
  {
  }

  lemma CatTails(ls: seq<Lora>, ds: seq<Tensor>)
    requires ls != [] && SameA(ls) && AreDense(ds, ls)
    ensures CatFits(Bs(ls)) && CatFits(ds) && SameRowCounts(Bs(ls), ds)
    ensures Bs(ls)[0].shape[1..] == [Rank(ls[0])] && ds[0].shape[1..] == [Cols(ls[0])]
  {
    forall i | 0 <= i < |ls|
      ensures Bs(ls)[i].shape[1..] == [Rank(ls[0])] && ds[i].shape[1..] == [Cols(ls[0])]
    {
      MatrixRow(ls, ds, i);
    }
  }

  lemma CatTerm(ls: seq<Lora>, m: Lora, row: nat, c: nat, k: nat)
    requires ls != [] && SameA(ls) && IsCat(m.B, Bs(ls)) && m.A == ls[0].A && Constructed(m) && Dims(m) == 2
    requires row < TotalRows(Bs(ls)) && Bs(ls)[0].shape[1..] == [Rank(ls[0])] && k < Rank(ls[0])
    ensures var at := Locate(Bs(ls), row); Term(m, [row], c, k) == Term(ls[at.0], [at.1], c, k)
  {
    var at := Locate(Bs(ls), row);
    assert RowAt(m.B, Bs(ls), row, [k]);
    MatrixTerm(m, row, c, k);
    MatrixTerm(ls[at.0], at.1, c, k);
  }

  lemma CatCell(ls: seq<Lora>, ds: seq<Tensor>, m: Lora, e: Tensor, row: nat, c: nat)
    requires ls != [] && SameA(ls) && AreDense(ds, ls) && IsCat(e, ds)
    requires IsCat(m.B, Bs(ls)) && m.A == ls[0].A && Constructed(m) && Dims(m) == 2 && Rank(m) == Rank(ls[0])
    requires row < TotalRows(ds) && c < Cols(ls[0])
    ensures At(e, [row] + [c]) == Cell(m, [row], c)
  {
    CatTails(ls, ds);
    SameLocation(ds, Bs(ls), row);
    var at := Locate(ds, row);
    assert RowAt(e, ds, row, [c]);
    DenseIsDense(ls[at.0]);
    MatrixRow(ls, ds, at.0);
    assert DenseAt(ds[at.0], ls[at.0], [at.1], c);
    SameCatCell(ls, m, row, c);
  }

  lemma SameCatCell(ls: seq<Lora>, m: Lora, row: nat, c: nat)
    requires ls != [] && SameA(ls) && IsCat(m.B, Bs(ls)) && m.A == ls[0].A && Constructed(m) && Dims(m) == 2
    requires row < TotalRows(Bs(ls)) && Bs(ls)[0].shape[1..] == [Rank(ls[0])] && Rank(m) == Rank(ls[0])
    ensures var at := Locate(Bs(ls), row); Cell(m, [row], c) == Cell(ls[at.0], [at.1], c)
  {
    var at := Locate(Bs(ls), row);
    forall k: nat | k < Rank(m) ensures Term(m, [row], c, k) == Term(ls[at.0], [at.1], c, k) {
      CatTerm(ls, m, row, c, k);
    }
    SameTermsSameCell(m, [row], c, ls[at.0], [at.1], c);
  }

  lemma CatDense(ls: seq<Lora>, ds: seq<Tensor>, m: Lora, e: Tensor)
    requires ls != [] && SameA(ls) && AreDense(ds, ls) && IsCat(e, ds) && IsCat(m.B, Bs(ls)) && m.A == ls[0].A
    ensures UnitLead(m) && IsDense(e, m)
  {
    CatTails(ls, ds);
    SameTotal(ds, Bs(ls));
    assert m.B.shape == [TotalRows(ds), Rank(ls[0])] && e.shape == [TotalRows(ds), Cols(ls[0])];
    assert LoraShape(m) == e.shape;
    forall u: Index, c: nat ensures DenseAt(e, m, u, c) {
      if |u| == 1 && InBounds(e.shape, u + [c]) {
        assert (u + [c])[0] == u[0] && (u + [c])[1] == c && u == [u[0]];
        CatCell(ls, ds, m, e, u[0], c);
      }
    }
  }

  /** torch.cat of matrix adapters works exactly when they share one A, and is then the cat of their products. */
  lemma CatCommutes(ls: seq<Lora>, ds: seq<Tensor>)
    requires ls != [] && AreDense(ds, ls) && Dims(ls[0]) == 2
    ensures LoraCat(ls).Some? <==> forall i :: 0 <= i < |ls| ==> ls[i].A == ls[0].A
    ensures LoraCat(ls).Some? ==>
              UnitLead(LoraCat(ls).value) && Cat(ds) == Some(Dense(LoraCat(ls).value))
  {
    if forall i :: 0 <= i < |ls| ==> ls[i].A == ls[0].A {
      CatTails(ls, ds);
      CatIsCat(Bs(ls));
      CatIsCat(ds);
      CatDense(ls, ds, Lora(ls[0].A, Cat(Bs(ls)).value), Cat(ds).value);
      DenseIsUnique(Cat(ds).value, Lora(ls[0].A, Cat(Bs(ls)).value));
    }
  }

  // ----- cat of more than two dimensions -----

  predicate OneRowEach(ts: seq<Tensor>) {
    forall i :: 0 <= i < |ts| ==> ts[i].shape != [] && ts[i].shape[0] == 1
  }

  predicate SomeRowEach(ts: seq<Tensor>) {
    forall i :: 0 <= i < |ts| ==> ts[i].shape != [] && ts[i].shape[0] > 0
  }

  lemma {:induction false} RowsOfOneEach(ts: seq<Tensor>)
    requires OneRowEach(ts)
    ensures TotalRows(ts) == |ts|
  {
    if ts != [] {
      RowsOfOneEach(ts[1..]);
    }
  }

  lemma {:induction false} LocateOneEach(ts: seq<Tensor>, row: nat)
    requires OneRowEach(ts) && row < |ts|
    ensures row < TotalRows(ts) && Locate(ts, row) == (row, 0)
  {
    RowsOfOneEach(ts);
    if row > 0 {
      LocateOneEach(ts[1..], row - 1);
    }
  }

  lemma {:induction false} AsManyRowsAsTensors(ts: seq<Tensor>)
    requires SomeRowEach(ts)
    ensures TotalRows(ts) >= |ts| && (TotalRows(ts) == |ts| ==> OneRowEach(ts))
  {
    if ts != [] {
      AsManyRowsAsTensors(ts[1..]);
      if TotalRows(ts) == |ts| {
        assert forall i :: 0 < i < |ts| ==> ts[i] == ts[1..][i - 1];
      }
    }
  }

  lemma CatOfOne(t: Tensor)
    requires t.shape != []
    ensures Cat([t]) == Some(t)
  {
    var c := Cat([t]).value;
    CatIsCat([t]);
    assert [t][1..] == [] && TotalRows([t]) == t.shape[0];
    assert c.shape == t.shape;
    forall idx | InBounds(t.shape, idx) ensures At(c, idx) == At(t, idx) {
      assert idx == [idx[0]] + idx[1..];
      assert InBounds(t.shape[1..], idx[1..]);
      assert RowAt(c, [t], idx[0], idx[1..]);
    }
    SameEntriesSameTensor(c, t);
  }

  /** Adapters with one row each in A and B: the rows of both factors stay together. */
  predicate OneRowAdapters(ls: seq<Lora>) {
    forall i :: 0 <= i < |ls| ==>
      && UnitLead(ls[i]) && Dims(ls[i]) == Dims(ls[0]) > 2 && ls[i].B.shape[0] == 1
      && Constructed(ls[0]) && Rank(ls[i]) == Rank(ls[0])
  }

  lemma OneRowCounts(ls: seq<Lora>, ds: seq<Tensor>, m: Lora, e: Tensor)
    requires ls != [] && OneRowAdapters(ls) && AreDense(ds, ls)
    requires IsCat(m.A, As(ls)) && IsCat(m.B, Bs(ls)) && IsCat(e, ds)
    ensures OneRowEach(As(ls)) && OneRowEach(Bs(ls)) && OneRowEach(ds)
    ensures m.A.shape == [|ls|] + ls[0].A.shape[1..] && m.B.shape == [|ls|] + ls[0].B.shape[1..]
    ensures e.shape == [|ls|] + LoraShape(ls[0])[1..]
  {
    assert forall i :: 0 <= i < |ls| ==> ds[i].shape[0] == 1;
    RowsOfOneEach(As(ls));
    RowsOfOneEach(Bs(ls));
    RowsOfOneEach(ds);
  }

  lemma WithFirst(l: Lora, m: Lora, n: nat)
    requires UnitLead(l) && Dims(l) > 2 && m.A.shape == [n] + l.A.shape[1..] && m.B.shape == [n] + l.B.shape[1..]
    ensures Meaningful(m) && LoraShape(m) == [n] + LoraShape(l)[1..] && Rank(m) == Rank(l) && Dims(m) == Dims(l)
  {
    assert forall j :: 0 < j < Dims(l) ==> m.A.shape[j] == l.A.shape[j] && m.B.shape[j] == l.B.shape[j];
  }

  lemma OneRowShapes(ls: seq<Lora>, ds: seq<Tensor>, m: Lora, e: Tensor)
    requires ls != [] && OneRowAdapters(ls) && AreDense(ds, ls)
    requires IsCat(m.A, As(ls)) && IsCat(m.B, Bs(ls)) && IsCat(e, ds)
    ensures OneRowEach(As(ls)) && OneRowEach(Bs(ls)) && OneRowEach(ds)
    ensures m.A.shape == [|ls|] + ls[0].A.shape[1..] && m.B.shape == [|ls|] + ls[0].B.shape[1..]
    ensures e.shape == [|ls|] + LoraShape(ls[0])[1..]
    ensures Meaningful(m) && LoraShape(m) == e.shape && Rank(m) == Rank(ls[0]) && Dims(m) == Dims(ls[0])
  {
    OneRowCounts(ls, ds, m, e);
    WithFirst(ls[0], m, |ls|);
  }

  lemma OneRowLead(shapeA: Shape, n: nat, i: nat, v: Index)
    requires |v| > 0 && |shapeA| == |v| + 2 && i < n && forall j :: 0 <= j < |v| ==> shapeA[j] == 1
    ensures LeadInA([n] + shapeA[1..], [i] + v) == [i] + Zeros(|v| - 1)
    ensures LeadInA(shapeA, [0] + v) == [0] + Zeros(|v| - 1)
  {
  }

  lemma OneRowTerm(ls: seq<Lora>, m: Lora, i: nat, v: Index, c: nat, k: nat)
    requires i < |ls| && OneRowAdapters(ls) && OneRowEach(As(ls)) && OneRowEach(Bs(ls))
    requires IsCat(m.A, As(ls)) && IsCat(m.B, Bs(ls)) && Constructed(m) && Dims(m) == Dims(ls[i])
    requires m.A.shape == [|ls|] + ls[i].A.shape[1..] && |v| == Dims(m) - 2
    requires InBounds(ls[0].B.shape[1..], v + [k]) && k < Rank(ls[i]) && c < Cols(ls[i]) == Cols(ls[0])
    ensures Term(m, [i] + v, c, k) == Term(ls[i], [0] + v, c, k)
  {
    var z := Zeros(|v| - 1);
    OneRowLead(ls[i].A.shape, |ls|, i, v);
    LocateOneEach(As(ls), i);
    LocateOneEach(Bs(ls), i);
    Assoc([i], v, [k]);
    Assoc([0], v, [k]);
    Assoc([i], z, [k, c]);
    Assoc([0], z, [k, c]);
    OneRowOfA(ls, z, k, c);
    assert RowAt(m.A, As(ls), i, z + [k, c]) && RowAt(m.B, Bs(ls), i, v + [k]);
  }

  lemma OneRowOfA(ls: seq<Lora>, z: Index, k: nat, c: nat)
    requires ls != [] && OneRowAdapters(ls) && z == Zeros(Dims(ls[0]) - 3) && k < Rank(ls[0]) && c < Cols(ls[0])
    ensures InBounds(As(ls)[0].shape[1..], z + [k, c])
  {
    assert forall j :: 0 < j < Dims(ls[0]) - 2 ==> ls[0].A.shape[j] == 1;
  }

  lemma OneRowCell(ls: seq<Lora>, ds: seq<Tensor>, m: Lora, e: Tensor, i: nat, v: Index, c: nat)
    requires OneRowAdapters(ls) && AreDense(ds, ls) && i < |ls|
    requires IsCat(m.A, As(ls)) && IsCat(m.B, Bs(ls)) && IsCat(e, ds)
    requires InBounds(LoraShape(ls[0])[1..], v + [c])
    ensures Constructed(m) && Dims(m) == |v| + 2 && At(e, [i] + (v + [c])) == Cell(m, [i] + v, c)
  {
    OneRowShapes(ls, ds, m, e);
    LocateOneEach(ds, i);
    assert ds[i].shape[1..] == ds[0].shape[1..] && As(ls)[i].shape[1..] == As(ls)[0].shape[1..];
    assert RowAt(e, ds, i, v + [c]);
    OneRowIndex(ls, ds, i, v, c);
    DenseIsDense(ls[i]);
    Assoc([0], v, [c]);
    assert DenseAt(ds[i], ls[i], [0] + v, c);
    forall k: nat | k < Rank(m) ensures Term(m, [i] + v, c, k) == Term(ls[i], [0] + v, c, k) {
      OneRowOfB(ls, v, c, k);
      OneRowTerm(ls, m, i, v, c, k);
    }
    SameTermsSameCell(m, [i] + v, c, ls[i], [0] + v, c);
  }

  lemma OneRowIndex(ls: seq<Lora>, ds: seq<Tensor>, i: nat, v: Index, c: nat)
    requires OneRowAdapters(ls) && AreDense(ds, ls) && i < |ls| && CatFits(ds)
    requires InBounds(LoraShape(ls[0])[1..], v + [c])
    ensures InBounds(ds[i].shape, [0] + (v + [c])) && c < Cols(ls[i]) == Cols(ls[0])
  {
    var n := Dims(ls[0]);
    assert ds[i].shape[1..] == ds[0].shape[1..] == LoraShape(ls[0])[1..];
    assert ds[i].shape[0] == 1;
    assert forall j :: 0 < j < n ==> ds[i].shape[j] == ds[i].shape[1..][j - 1] && ([0] + (v + [c]))[j] == (v + [c])[j - 1];
    assert (v + [c])[n - 2] == c && LoraShape(ls[0])[1..][n - 2] == Cols(ls[0]) && ds[i].shape[1..][n - 2] == Cols(ls[i]);
  }

  lemma OneRowOfB(ls: seq<Lora>, v: Index, c: nat, k: nat)
    requires ls != [] && OneRowAdapters(ls) && InBounds(LoraShape(ls[0])[1..], v + [c]) && k < Rank(ls[0])
    ensures InBounds(ls[0].B.shape[1..], v + [k])
  {
    var n := Dims(ls[0]);
    assert forall j :: 0 <= j < n - 2 ==> (v + [c])[j] == v[j] && LoraShape(ls[0])[1..][j] == ls[0].B.shape[1..][j];
  }

  lemma OneRowCatDense(ls: seq<Lora>, ds: seq<Tensor>, m: Lora, e: Tensor)
    requires ls != [] && OneRowAdapters(ls) && AreDense(ds, ls)
    requires IsCat(m.A, As(ls)) && IsCat(m.B, Bs(ls)) && IsCat(e, ds)
    ensures IsDense(e, m)
  {
    OneRowShapes(ls, ds, m, e);
    forall u: Index, c: nat ensures DenseAt(e, m, u, c) {
      if |u| == Dims(m) - 1 && InBounds(e.shape, u + [c]) {
        StackIndex(LoraShape(ls[0])[1..], |ls|, u, c);
        OneRowCell(ls, ds, m, e, u[0], u[1..], c);
      }
    }
  }

  predicate SameRanks(ls: seq<Lora>) {
    forall i :: 0 <= i < |ls| ==> Constructed(ls[i]) && Constructed(ls[0]) && Rank(ls[i]) == Rank(ls[0])
  }

  /** The adapters of a cat above two dimensions, as they come. */
  predicate UnitLeadRows(ls: seq<Lora>) {
    forall i :: 0 <= i < |ls| ==> UnitLead(ls[i]) && Dims(ls[i]) == Dims(ls[0]) > 2 && ls[i].B.shape[0] > 0
  }

  lemma CatAbove2Fits(ls: seq<Lora>, ds: seq<Tensor>)
    requires ls != [] && UnitLeadRows(ls) && AreDense(ds, ls) && CatFits(ds)
    ensures OneRowEach(As(ls)) && SomeRowEach(Bs(ls))
    ensures CatFits(As(ls)) && CatFits(Bs(ls)) <==> SameRanks(ls)
  {
    var n := Dims(ls[0]);
    forall i | 0 <= i < |ls|
      ensures Rank(ls[i]) == Rank(ls[0]) <==>
                As(ls)[i].shape[1..] == As(ls)[0].shape[1..] && Bs(ls)[i].shape[1..] == Bs(ls)[0].shape[1..]
    {
      SameTails(ls[i], ls[0], ds[i], ds[0]);
    }
  }

  lemma SameTails(l: Lora, m: Lora, d: Tensor, e: Tensor)
    requires UnitLead(l) && UnitLead(m) && Dims(l) == Dims(m) > 2 && d.shape == LoraShape(l) && e.shape == LoraShape(m)
    requires d.shape[1..] == e.shape[1..]
    ensures Rank(l) == Rank(m) <==> l.A.shape[1..] == m.A.shape[1..] && l.B.shape[1..] == m.B.shape[1..]
  {
    var n := Dims(l);
    assert d.shape[n - 1] == d.shape[1..][n - 2] && e.shape[n - 1] == e.shape[1..][n - 2];
    if Rank(l) == Rank(m) {
      forall j | 0 <= j < n - 1
        ensures l.A.shape[1..][j] == m.A.shape[1..][j] && l.B.shape[1..][j] == m.B.shape[1..][j]
      {
        assert d.shape[j + 1] == d.shape[1..][j] && e.shape[j + 1] == e.shape[1..][j];
      }
    } else {
      assert l.B.shape[1..][n - 2] == Rank(l) && m.B.shape[1..][n - 2] == Rank(m);
    }
  }

  lemma CatRowsMeaningful(ls: seq<Lora>, m: Lora)
    requires ls != [] && UnitLeadRows(ls) && IsCat(m.A, As(ls)) && IsCat(m.B, Bs(ls)) && Meaningful(m)
    requires OneRowEach(As(ls)) && SomeRowEach(Bs(ls))
    ensures |ls| == 1 || OneRowEach(Bs(ls))
  {
    RowsOfOneEach(As(ls));
    AsManyRowsAsTensors(Bs(ls));
    assert m.A.shape[0] == |ls| && m.B.shape[0] == TotalRows(Bs(ls));
  }

  /**
   * Above two dimensions torch.cat concatenates both factors. Where the products can be concatenated, that is right
   * exactly when the ranks agree and there is one adapter only, or each has a single row: A, with one leading position
   * each, is otherwise too short for B.
   */
  lemma CatAbove2ExactlyWhen(ls: seq<Lora>, ds: seq<Tensor>)
    requires ls != [] && UnitLeadRows(ls) && AreDense(ds, ls) && CatFits(ds)
    ensures (LoraCat(ls).Some? && Meaningful(LoraCat(ls).value) && Cat(ds) == Some(Dense(LoraCat(ls).value)))
            <==> SameRanks(ls) && (|ls| == 1 || forall i :: 0 <= i < |ls| ==> ls[i].B.shape[0] == 1)
  {
    CatAbove2Fits(ls, ds);
    if SameRanks(ls) {
      CatIsCat(As(ls));
      CatIsCat(Bs(ls));
      CatIsCat(ds);
      var m := Lora(Cat(As(ls)).value, Cat(Bs(ls)).value);
      if |ls| == 1 {
        SingleCat(ls, ds);
      } else if OneRowEach(Bs(ls)) {
        OneRowCat(ls, ds, m, Cat(ds).value);
      } else if Meaningful(m) {
        CatRowsMeaningful(ls, m);
      }
    }
  }

  lemma OneRowCat(ls: seq<Lora>, ds: seq<Tensor>, m: Lora, e: Tensor)
    requires ls != [] && UnitLeadRows(ls) && AreDense(ds, ls) && SameRanks(ls) && OneRowEach(Bs(ls))
    requires IsCat(m.A, As(ls)) && IsCat(m.B, Bs(ls)) && IsCat(e, ds)
    ensures Meaningful(m) && e == Dense(m)
  {
    assert OneRowAdapters(ls) by {
      assert forall i :: 0 <= i < |ls| ==> Bs(ls)[i].shape[0] == 1;
    }
    OneRowShapes(ls, ds, m, e);
    OneRowCatDense(ls, ds, m, e);
    DenseIsUnique(e, m);
  }

  lemma SingleCat(ls: seq<Lora>, ds: seq<Tensor>)
    requires |ls| == 1 && UnitLeadRows(ls) && AreDense(ds, ls)
    ensures LoraCat(ls) == Some(ls[0]) && Cat(ds) == Some(Dense(ls[0])) && Meaningful(ls[0])
  {
    assert As(ls) == [ls[0].A] && Bs(ls) == [ls[0].B] && ds == [Dense(ls[0])];
    CatOfOne(ls[0].A);
    CatOfOne(ls[0].B);
    CatOfOne(Dense(ls[0]));
  }
}
