/**
 * The ellipsis in an index of a factored tensor: what it selects from the product as the converter expands it, and exactly
 * when that is what it means.
 */
module LoraEllipsis {
  import opened StringUtils
  import opened Tensors
  import opened Lora
  import opened LoraIndexing

  // ----- the ellipsis -----

  /** How __getitem__ expands one ellipsis that is not last: to as many full slices as there are other elements. */
  function ExpandedEllipsis(before: seq<Ix>, after: seq<Ix>): seq<Ix> {
    before + Alls(|before| + |after|) + after
  }

  /** What an ellipsis means: as many full slices as are missing. */
  function MeantEllipsis(before: seq<Ix>, after: seq<Ix>, n: nat): seq<Ix>
    requires |before| + |after| <= n
  {
    before + Alls(n - |before| - |after|) + after
  }

  /**
   * The expansion, padded at the end like any short index, is the meant one exactly when the other elements are half
   * of all, or fewer and those after the ellipsis are full slices themselves.
   */
  lemma ExpansionIsMeantExactlyWhen(before: seq<Ix>, after: seq<Ix>, n: nat)
    requires |before| + |after| <= n
    ensures var given := |before| + |after|;
            Pad(ExpandedEllipsis(before, after), n) == MeantEllipsis(before, after, n)
            <==> 2 * given == n || (2 * given < n && forall x :: x in after ==> x == ALL)
  {
    var given := |before| + |after|;
    var e, m := Pad(ExpandedEllipsis(before, after), n), MeantEllipsis(before, after, n);
    if 2 * given < n {
      var missing := n - 2 * given;
      if forall x :: x in after ==> x == ALL {
        assert forall i :: 0 <= i < |after| ==> after[i] in after;
        assert e == m;
      } else if e == m {
        AllsToTheEnd(after, missing, e[|before| + given..]);
      }
    }
  }

  /** A list that stays the same when full slices move from its end to its front holds full slices only. */
  lemma AllsToTheEnd(after: seq<Ix>, missing: nat, all: seq<Ix>)
    requires missing > 0 && all == after + Alls(missing) && all == Alls(missing) + after
    ensures forall x :: x in after ==> x == ALL
  {
    forall i | 0 <= i < |after| ensures after[i] == ALL {
      AllsAt(after, missing, all, i);
    }
  }

  lemma {:induction false} AllsAt(after: seq<Ix>, missing: nat, all: seq<Ix>, i: nat)
    requires missing > 0 && all == after + Alls(missing) && all == Alls(missing) + after && i < |after|
    ensures after[i] == ALL
  {
    assert all[i] == after[i];
    if i >= missing {
      assert all[i] == after[i - missing];
      AllsAt(after, missing, all, i - missing);
    }
  }

  // ----- what is selected -----

  /** The index as the converter completes it selects from the factors what it means for the product. */
  ghost predicate IsRight(l: Lora, before: seq<Ix>, after: seq<Ix>)
    requires Constructed(l) && |before| + |after| <= Dims(l)
  {
    var r := LoraTuple(l, ExpandedEllipsis(before, after));
    r.Some? && Some(Dense(r.value)) == TorchIndex(Dense(l), MeantEllipsis(before, after, Dims(l)))
  }

  predicate NoInteger(ixs: seq<Ix>)
    requires |ixs| >= 2
  {
    !ixs[|ixs| - 2].Int? && !ixs[|ixs| - 1].Int?
  }

  /** Dropping the row but not the column leaves factors with different numbers of dimensions. */
  lemma RowDropped(picks: seq<Pick>, rank: nat)
    requires |picks| >= 2 && !picks[|picks| - 2].keep && picks[|picks| - 1].keep
    ensures |PickedShape(PicksA(picks, rank))| != |PickedShape(PicksB(picks, rank))|
  {
    var n := |picks|;
    var front, rows := picks[..n - 2], picks[..n - 1];
    assert rows == front + [picks[n - 2]];
    ShapeOfA(picks, rank);
    PickedSnoc(front, picks[n - 2]);
    PickedSnoc(rows, Full(rank));
  }

  lemma IntegerRowFails(l: Lora, ixs: seq<Ix>)
    requires UnitLead(l) && |ixs| == Dims(l) && Picks(LoraShape(l), ixs).Some?
    requires ixs[Dims(l) - 2].Int? && !ixs[Dims(l) - 1].Int?
    ensures LoraSelect(l, ixs).None?
  {
    var picks := Picks(LoraShape(l), ixs).value;
    KeptExactlyWhen(ixs, LoraShape(l), picks, Dims(l) - 2);
    KeptExactlyWhen(ixs, LoraShape(l), picks, Dims(l) - 1);
    var A, B := FactorSelections(l, ixs, picks);
    RowDropped(picks, Rank(l));
  }

  lemma TupleHere(l: Lora, given: seq<Ix>, wanted: Tensor, e: Tensor)
    requires UnitLead(l) && 0 < |given| <= Dims(l) && TorchIndex(Dense(l), given) == Some(e)
    requires !Pad(given, Dims(l))[Dims(l) - 1].Int? || e == wanted
    ensures (LoraTuple(l, given).Some? && Dense(LoraTuple(l, given).value) == wanted)
            <==> NoInteger(Pad(given, Dims(l))) && e == wanted
  {
    TupleCommutesExactlyWhen(l, given, e);
    if e != wanted && !NoInteger(Pad(given, Dims(l))) {
      IntegerRowFails(l, Pad(given, Dims(l)));
    }
  }

  /** An index without an integer for the column: right exactly if it has none for the row and selects what is wanted. */
  lemma TupleIsExactlyWhen(l: Lora, given: seq<Ix>, wanted: Tensor)
    requires UnitLead(l) && 0 < |given| <= Dims(l)
    requires !Pad(given, Dims(l))[Dims(l) - 1].Int? || TorchIndex(Dense(l), given) == Some(wanted)
    ensures (LoraTuple(l, given).Some? && Dense(LoraTuple(l, given).value) == wanted)
            <==> NoInteger(Pad(given, Dims(l))) && TorchIndex(Dense(l), given) == Some(wanted)
  {
    if TorchIndex(Dense(l), given).Some? {
      TupleHere(l, given, wanted, TorchIndex(Dense(l), given).value);
    } else if LoraTuple(l, given).Some? {
      TupleFailsWithProduct(l, given);
    }
  }

  /** An expansion that is too short ends in full slices; one that is not is the meant index. */
  lemma ExpansionEnds(before: seq<Ix>, after: seq<Ix>, n: nat)
    requires |before| + |after| > 0 && 2 * (|before| + |after|) <= n
    ensures var e := ExpandedEllipsis(before, after);
            0 < |e| <= n && (Pad(e, n)[n - 1] == ALL || e == MeantEllipsis(before, after, n))
  {
  }

  /**
   * For every adapter and every index with one ellipsis that is not last, where the product can be indexed so: the
   * converter selects from the factors what the index means for the product exactly if the other elements are at most
   * half of the dimensions, the completed index has no integer for the row or the column, and it selects the same tensor
   * from the product.
   */
  lemma EllipsisIsRightExactlyWhen(l: Lora, before: seq<Ix>, after: seq<Ix>)
    requires UnitLead(l) && after != [] && |before| + |after| <= Dims(l)
    requires TorchIndex(Dense(l), MeantEllipsis(before, after, Dims(l))).Some?
    ensures var given, e := |before| + |after|, ExpandedEllipsis(before, after);
            IsRight(l, before, after)
            <==> && 2 * given <= Dims(l) && NoInteger(Pad(e, Dims(l)))
                 && TorchIndex(Dense(l), e) == TorchIndex(Dense(l), MeantEllipsis(before, after, Dims(l)))
  {
    if 2 * (|before| + |after|) <= Dims(l) {
      var wanted := TorchIndex(Dense(l), MeantEllipsis(before, after, Dims(l))).value;
      ExpansionEnds(before, after, Dims(l));
      TupleIsExactlyWhen(l, ExpandedEllipsis(before, after), wanted);
    }
  }

  // ----- for all adapters of a shape -----

  /** Two selections take the same entries into the same shape, whatever the entries are. */
  ghost predicate SameSelection(p: seq<Pick>, q: seq<Pick>) {
    PickedShape(p) == PickedShape(q) && forall idx :: InBounds(PickedShape(p), idx) ==> Source(p, idx) == Source(q, idx)
  }

  lemma SameSelectionSameTensor(t: Tensor, ixs: seq<Ix>, jxs: seq<Ix>)
    requires |ixs| == |jxs| == |t.shape| && Picks(t.shape, ixs).Some? && Picks(t.shape, jxs).Some?
    requires SameSelection(Picks(t.shape, ixs).value, Picks(t.shape, jxs).value)
    ensures SelectBy(t, ixs) == SelectBy(t, jxs) && SelectBy(t, ixs).Some?
  {
    var p, q := Picks(t.shape, ixs).value, Picks(t.shape, jxs).value;
    SelectByIs(t, ixs, p);
    SelectByIs(t, jxs, q);
    var a, b := SelectBy(t, ixs).value, SelectBy(t, jxs).value;
    forall idx | InBounds(a.shape, idx) ensures At(a, idx) == At(b, idx) {
      assert SelectedAt(a, t, p, idx) && SelectedAt(b, t, q, idx);
    }
    SameEntriesSameTensor(a, b);
  }

  function Mark(point: Index, idx: Index): real {
    if idx == point then 1.0 else 0.0
  }

  /** An adapter whose product is 1 at one place and 0 elsewhere. */
  function Indicator(shape: Shape, rank: nat, v: Index): Lora
    requires |shape| == |v| >= 2
  {
    var n := |shape|;
    Lora(Build(Ones(n - 2) + [rank] + [shape[n - 1]], idx => Mark(Zeros(n - 2) + [0] + [v[n - 1]], idx)),
         Build(shape[..n - 1] + [rank], idx => Mark(v[..n - 1] + [0], idx)))
  }

  lemma IndicatorShape(shape: Shape, rank: nat, v: Index)
    requires |shape| == |v| >= 2
    ensures var l := Indicator(shape, rank, v); UnitLead(l) && LoraShape(l) == shape && Rank(l) == rank
  {
    var l, n := Indicator(shape, rank, v), |shape|;
    assert forall i :: 0 <= i < n - 2 ==> l.A.shape[i] == 1;
    assert shape == shape[..n - 1] + [shape[n - 1]];
  }

  lemma {:induction false} SumOfFirst(n: nat, f: nat -> real)
    requires n > 0 && forall k: nat :: 0 < k < n ==> f(k) == 0.0
    ensures Sum(n, f) == f(0)
    decreases n
  {
    if n > 1 {
      SumOfFirst(n - 1, f);
    }
  }

  lemma IndicatorRow(shape: Shape, rank: nat, v: Index, u: Index, k: nat)
    requires |shape| == |v| >= 2 && InBounds(shape[..|shape| - 1], u) && k < rank
    ensures At(Indicator(shape, rank, v).B, u + [k]) == if k == 0 && u == v[..|v| - 1] then 1.0 else 0.0
  {
    var n := |shape|;
    var point := v[..n - 1] + [0];
    assert InBounds(shape[..n - 1] + [rank], u + [k]);
    BuildAt(shape[..n - 1] + [rank], idx => Mark(point, idx), u + [k]);
    SnocSame(u, k, v[..n - 1], 0);
  }

  lemma IndicatorColumn(shape: Shape, rank: nat, v: Index, k: nat, c: nat)
    requires |shape| == |v| >= 2 && k < rank && c < shape[|shape| - 1]
    ensures At(Indicator(shape, rank, v).A, Zeros(|shape| - 2) + [k] + [c]) == if k == 0 && c == v[|v| - 1] then 1.0 else 0.0
  {
    var n := |shape|;
    var point, all := Zeros(n - 2) + [0] + [v[n - 1]], Ones(n - 2) + [rank] + [shape[n - 1]];
    assert InBounds(all, Zeros(n - 2) + [k] + [c]);
    BuildAt(all, idx => Mark(point, idx), Zeros(n - 2) + [k] + [c]);
    SnocSame(Zeros(n - 2) + [k], c, Zeros(n - 2) + [0], v[n - 1]);
    SnocSame(Zeros(n - 2), k, Zeros(n - 2), 0);
  }

  lemma SnocSame(a: Index, x: nat, b: Index, y: nat)
    requires |a| == |b|
    ensures a + [x] == b + [y] <==> a == b && x == y
  {
    if a + [x] == b + [y] {
      assert (a + [x])[..|a|] == a && (b + [y])[..|a|] == b && (a + [x])[|a|] == x && (b + [y])[|a|] == y;
    }
  }

  lemma IndicatorTerm(shape: Shape, rank: nat, v: Index, u: Index, c: nat, k: nat)
    requires |shape| == |v| >= 2 && InBounds(shape, u + [c]) && |u| == |shape| - 1 && k < rank
    ensures UnitLead(Indicator(shape, rank, v))
    ensures Term(Indicator(shape, rank, v), u, c, k) == if k == 0 && u + [c] == v then 1.0 else 0.0
  {
    var n := |shape|;
    IndicatorShape(shape, rank, v);
    SplitLast(shape, u + [c]);
    assert (u + [c])[..n - 1] == u && (u + [c])[n - 1] == c;
    IndicatorRow(shape, rank, v, u, k);
    IndicatorColumn(shape, rank, v, k, c);
    UnitTermIs(Indicator(shape, rank, v), u, c, k);
    SnocSame(u, c, v[..n - 1], v[n - 1]);
    assert v == v[..n - 1] + [v[n - 1]];
    MarkProduct(k == 0 && u == v[..n - 1], k == 0 && c == v[n - 1]);
  }

  lemma MarkProduct(p: bool, q: bool)
    ensures (if p then 1.0 else 0.0) * (if q then 1.0 else 0.0) == if p && q then 1.0 else 0.0
  {
  }

  lemma IndicatorEntry(shape: Shape, rank: nat, v: Index, idx: Index)
    requires |shape| == |v| >= 2 && rank > 0 && InBounds(shape, idx)
    ensures UnitLead(Indicator(shape, rank, v)) && LoraShape(Indicator(shape, rank, v)) == shape
    ensures At(Dense(Indicator(shape, rank, v)), idx) == Mark(v, idx)
  {
    var l, n := Indicator(shape, rank, v), |shape|;
    var u, c := idx[..n - 1], idx[n - 1];
    assert idx == u + [c];
    IndicatorShape(shape, rank, v);
    DenseIsDense(l);
    assert DenseAt(Dense(l), l, u, c);
    forall k: nat | k < rank ensures Term(l, u, c, k) == if k == 0 && idx == v then 1.0 else 0.0 {
      IndicatorTerm(shape, rank, v, u, c, k);
    }
    SumOfFirst(rank, (k: nat) => Term(l, u, c, k));
  }

  /** If two selections of that product agree, both take the marked place for the same index. */
  lemma IndicatorSeparates(shape: Shape, rank: nat, p: seq<Pick>, q: seq<Pick>, idx: Index, a: Tensor)
    requires |shape| == |p| == |q| >= 2 && rank > 0 && PicksFit(shape, p) && PicksFit(shape, q)
    requires PickedShape(p) == PickedShape(q) && InBounds(PickedShape(p), idx)
    requires UnitLead(Indicator(shape, rank, Source(q, idx)))
    requires IsSelected(a, Dense(Indicator(shape, rank, Source(q, idx))), p)
    requires IsSelected(a, Dense(Indicator(shape, rank, Source(q, idx))), q)
    ensures Source(p, idx) == Source(q, idx)
  {
    var v := Source(q, idx);
    var d := Dense(Indicator(shape, rank, v));
    SourceInBounds(shape, p, idx);
    SourceInBounds(shape, q, idx);
    IndicatorEntry(shape, rank, v, Source(p, idx));
    IndicatorEntry(shape, rank, v, v);
    assert SelectedAt(a, d, p, idx) && SelectedAt(a, d, q, idx);
  }

  /** An adapter of a shape and a rank, with one A for all leading coordinates. */
  predicate IsAdapter(l: Lora, shape: Shape, rank: nat)
    ensures IsAdapter(l, shape, rank) ==> Dims(l) == |shape|
  {
    UnitLead(l) && LoraShape(l) == shape && Rank(l) == rank
  }

  /** The condition on shape and index alone. */
  ghost predicate SelectsTheSame(shape: Shape, before: seq<Ix>, after: seq<Ix>)
    requires |shape| >= 2 && |before| + |after| <= |shape|
  {
    var given, ixs := |before| + |after|, Pad(ExpandedEllipsis(before, after), |shape|);
    var meant := Picks(shape, MeantEllipsis(before, after, |shape|));
    && 2 * given <= |shape| && NoInteger(ixs) && meant.Some? && Picks(shape, ixs).Some?
    && SameSelection(Picks(shape, ixs).value, meant.value)
  }

  lemma SufficesForAll(l: Lora, before: seq<Ix>, after: seq<Ix>)
    requires UnitLead(l) && after != [] && |before| + |after| <= Dims(l) && SelectsTheSame(LoraShape(l), before, after)
    ensures IsRight(l, before, after)
  {
    var e, m := ExpandedEllipsis(before, after), MeantEllipsis(before, after, Dims(l));
    SameSelectionSameTensor(Dense(l), Pad(e, Dims(l)), m);
    assert Pad(m, Dims(l)) == m;
    EllipsisIsRightExactlyWhen(l, before, after);
  }

  /** What an adapter for which the index is right says about the picks. */
  lemma RightSays(l: Lora, before: seq<Ix>, after: seq<Ix>) returns (p: seq<Pick>, q: seq<Pick>, a: Tensor)
    requires UnitLead(l) && after != [] && |before| + |after| <= Dims(l) && IsRight(l, before, after)
    requires Picks(LoraShape(l), MeantEllipsis(before, after, Dims(l))).Some?
    ensures 2 * (|before| + |after|) <= Dims(l) && NoInteger(Pad(ExpandedEllipsis(before, after), Dims(l)))
    ensures Picks(LoraShape(l), Pad(ExpandedEllipsis(before, after), Dims(l))) == Some(p)
    ensures Picks(LoraShape(l), MeantEllipsis(before, after, Dims(l))) == Some(q)
    ensures IsSelected(a, Dense(l), p) && IsSelected(a, Dense(l), q) && PickedShape(p) == PickedShape(q)
  {
    var e, m := ExpandedEllipsis(before, after), MeantEllipsis(before, after, Dims(l));
    assert Pad(m, Dims(l)) == m;
    q := Picks(LoraShape(l), m).value;
    SelectByIs(Dense(l), m, q);
    EllipsisIsRightExactlyWhen(l, before, after);
    p := Picks(LoraShape(l), Pad(e, Dims(l))).value;
    SelectByIs(Dense(l), Pad(e, Dims(l)), p);
    a := SelectBy(Dense(l), m).value;
  }

  lemma NecessaryAt(shape: Shape, rank: nat, before: seq<Ix>, after: seq<Ix>, p: seq<Pick>, q: seq<Pick>, idx: Index)
    requires |shape| >= 2 && 2 * (|before| + |after|) <= |shape| && rank > 0 && after != []
    requires Picks(shape, Pad(ExpandedEllipsis(before, after), |shape|)) == Some(p) && |p| == |shape|
    requires Picks(shape, MeantEllipsis(before, after, |shape|)) == Some(q) && |q| == |shape|
    requires PicksFit(shape, p) && PicksFit(shape, q)
    requires PickedShape(p) == PickedShape(q) && InBounds(PickedShape(p), idx)
    requires IsAdapter(Indicator(shape, rank, Source(q, idx)), shape, rank)
    requires IsRight(Indicator(shape, rank, Source(q, idx)), before, after)
    ensures Source(p, idx) == Source(q, idx)
  {
    var p', q', a := RightSays(Indicator(shape, rank, Source(q, idx)), before, after);
    IndicatorSeparates(shape, rank, p, q, idx, a);
  }

  lemma SomeAdapter(shape: Shape, rank: nat, v: Index)
    requires |shape| == |v| >= 2
    ensures IsAdapter(Indicator(shape, rank, v), shape, rank)
  {
    IndicatorShape(shape, rank, v);
  }

  lemma NecessarySources(shape: Shape, rank: nat, before: seq<Ix>, after: seq<Ix>, p: seq<Pick>, q: seq<Pick>)
    requires |shape| >= 2 && 2 * (|before| + |after|) <= |shape| && rank > 0 && after != []
    requires Picks(shape, Pad(ExpandedEllipsis(before, after), |shape|)) == Some(p) && |p| == |shape|
    requires Picks(shape, MeantEllipsis(before, after, |shape|)) == Some(q) && |q| == |shape|
    requires PicksFit(shape, p) && PicksFit(shape, q) && PickedShape(p) == PickedShape(q)
    requires forall l | IsAdapter(l, shape, rank) :: IsRight(l, before, after)
    ensures SameSelection(p, q)
  {
    forall idx | InBounds(PickedShape(p), idx) ensures Source(p, idx) == Source(q, idx) {
      SomeAdapter(shape, rank, Source(q, idx));
      NecessaryAt(shape, rank, before, after, p, q, idx);
    }
  }

  lemma NecessaryForAll(shape: Shape, rank: nat, before: seq<Ix>, after: seq<Ix>)
    requires |shape| >= 2 && |before| + |after| <= |shape| && rank > 0 && after != []
    requires Picks(shape, MeantEllipsis(before, after, |shape|)).Some?
    requires forall l | IsAdapter(l, shape, rank) :: IsRight(l, before, after)
    ensures SelectsTheSame(shape, before, after)
  {
    var first := Zeros(|shape|);
    SomeAdapter(shape, rank, first);
    var p, q, a := RightSays(Indicator(shape, rank, first), before, after);
    NecessarySources(shape, rank, before, after, p, q);
  }

  /**
   * For every shape that can be indexed so, and every rank: the converter is right for all adapters of that shape exactly
   * if the other elements are at most half of the dimensions, the completed index has no integer for the row or the column,
   * and its picks take the same entries of the shape as those of the index meant.
   */
  lemma EllipsisIsRightForAllExactlyWhen(shape: Shape, rank: nat, before: seq<Ix>, after: seq<Ix>)
    requires |shape| >= 2 && |before| + |after| <= |shape| && rank > 0 && after != []
    requires Picks(shape, MeantEllipsis(before, after, |shape|)).Some?
    ensures (forall l | IsAdapter(l, shape, rank) :: IsRight(l, before, after)) <==> SelectsTheSame(shape, before, after)
  {
    if forall l | IsAdapter(l, shape, rank) :: IsRight(l, before, after) {
      NecessaryForAll(shape, rank, before, after);
    }
    if SelectsTheSame(shape, before, after) {
      forall l | IsAdapter(l, shape, rank) ensures IsRight(l, before, after) {
        SufficesForAll(l, before, after);
      }
    }
  }
}
