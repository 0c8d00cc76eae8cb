/** Indexing, stacking and concatenating factored tensors. */
module LoraIndexing {
  import opened StringUtils
  import opened Tensors
  import opened Lora

  /** One element of an index expression. Slices have step 1; a list keeps its dimension, an integer drops it. */
  datatype Ix = Int(i: int) | Slice(start: Option<int>, stop: Option<int>) | List(indices: seq<int>)

  const ALL := Slice(None, None)

  function Clip(x: int, n: nat): nat {
    if x < 0 then (if x + n < 0 then 0 else x + n) else if x > n then n else x
  }

  function Range(lo: nat, hi: nat): seq<nat> {
    if lo < hi then seq(hi - lo, j requires 0 <= j => lo + j) else []
  }

  function Full(n: nat): Pick {
    Pick(true, Range(0, n))
  }

  function PickOf(ix: Ix, n: nat): Option<Pick> {
    match ix
    case Int(i) =>
      var d := Dimension(i, n);
      if d.Some? then Some(Pick(false, [d.value])) else None
    case Slice(start, stop) =>
      var lo := if start.Some? then Clip(start.value, n) else 0;
      var hi := if stop.Some? then Clip(stop.value, n) else n;
      Some(Pick(true, Range(lo, hi)))
    case List(indices) =>
      var ds := DimensionList(indices, n);
      if ds.Some? then Some(Pick(true, ds.value)) else None
  }

  function Pad(ixs: seq<Ix>, n: nat): (r: seq<Ix>)
    ensures |ixs| <= n ==> |r| == n
  {
    if |ixs| < n then ixs + seq(n - |ixs|, _ => ALL) else ixs
  }

  /** What a full list of index elements selects from a shape; None if some element does not fit. */
  function Picks(shape: Shape, ixs: seq<Ix>): (r: Option<seq<Pick>>)
    requires |ixs| == |shape|
    ensures r.Some? ==> |r.value| == |ixs|
  {
    if ixs == [] then Some([])
    else
      var first, rest := PickOf(ixs[0], shape[0]), Picks(shape[1..], ixs[1..]);
      if first.None? || rest.None? then None else Some([first.value] + rest.value)
  }

  lemma {:induction false} PicksAt(shape: Shape, ixs: seq<Ix>, i: nat)
    requires |ixs| == |shape| && Picks(shape, ixs).Some? && i < |ixs|
    ensures PickOf(ixs[i], shape[i]) == Some(Picks(shape, ixs).value[i])
  {
    if i > 0 {
      PicksAt(shape[1..], ixs[1..], i - 1);
    }
  }

  lemma {:induction false} PicksAre(shape: Shape, ixs: seq<Ix>, picks: seq<Pick>)
    requires |ixs| == |shape| == |picks|
    requires forall i :: 0 <= i < |ixs| ==> PickOf(ixs[i], shape[i]) == Some(picks[i])
    ensures Picks(shape, ixs) == Some(picks)
  {
    if ixs != [] {
      forall i | 0 <= i < |ixs| - 1 ensures PickOf(ixs[1..][i], shape[1..][i]) == Some(picks[1..][i]) {
        assert PickOf(ixs[i + 1], shape[i + 1]) == Some(picks[i + 1]);
      }
      PicksAre(shape[1..], ixs[1..], picks[1..]);
      assert picks == [picks[0]] + picks[1..];
    }
  }

  /** Indexing with one element per dimension. */
  function SelectBy(t: Tensor, ixs: seq<Ix>): Option<Tensor>
    requires |ixs| == |t.shape|
  {
    match Picks(t.shape, ixs)
    case None => None
    case Some(picks) => Select(t, picks)
  }

  /** Missing elements mean everything; too many are an error. Two lists in one index are outside this model. */
  function TorchIndex(t: Tensor, ixs: seq<Ix>): Option<Tensor> {
    if |ixs| > |t.shape| then None else SelectBy(t, Pad(ixs, |t.shape|))
  }

  lemma {:induction false} PicksFitShape(shape: Shape, ixs: seq<Ix>)
    requires |ixs| == |shape| && Picks(shape, ixs).Some?
    ensures PicksFit(shape, Picks(shape, ixs).value)
  {
    if ixs != [] {
      PicksFitShape(shape[1..], ixs[1..]);
      assert Picks(shape, ixs).value[1..] == Picks(shape[1..], ixs[1..]).value;
      PickOfFits(ixs[0], shape[0]);
    }
  }

  lemma PickOfFits(ix: Ix, n: nat)
    requires PickOf(ix, n).Some?
    ensures PickFits(PickOf(ix, n).value, n)
  {
    if ix.List? {
      var ds := DimensionList(ix.indices, n).value;
      forall p | p in ds ensures p < n {
        var i :| 0 <= i < |ds| && ds[i] == p;
        assert Dimension(ix.indices[i], n) == Some(ds[i]);
      }
    }
  }

  lemma SelectByIs(t: Tensor, ixs: seq<Ix>, picks: seq<Pick>)
    requires |ixs| == |t.shape| && Picks(t.shape, ixs) == Some(picks)
    ensures SelectBy(t, ixs).Some? && IsSelected(SelectBy(t, ixs).value, t, picks)
  {
    PicksFitShape(t.shape, ixs);
    SelectIsSelected(t, picks);
  }

  // ----- tuples of index elements -----

  /** Python's remainder, i % n, never negative; by repeated steps, so that no variable divisor enters the proofs. */
  function Wrap(i: int, n: nat): (r: nat)
    requires n > 0
    ensures r < n
    decreases if i < 0 then n - i else i
  {
    if i < 0 then Wrap(i + n, n) else if i < n then i else Wrap(i - n, n)
  }

  /** The elements A is indexed with: integers wrap around, other leading elements are ignored, the columns are chosen. */
  function IndicesA(shapeA: Shape, ixs: seq<Ix>): seq<Ix>
    requires |ixs| == |shapeA| >= 2
    requires forall i :: 0 <= i < |shapeA| - 2 ==> shapeA[i] > 0
  {
    seq(|ixs| - 2, i requires 0 <= i < |ixs| - 2 => if ixs[i].Int? then Int(Wrap(ixs[i].i, shapeA[i])) else ALL)
    + [ALL, ixs[|ixs| - 1]]
  }

  function NewFrom(A: Option<Tensor>, B: Option<Tensor>): Option<Lora> {
    if A.None? || B.None? then None else New(A.value, B.value)
  }

  /** __getitem__ with a tuple of one element per dimension; the last element of B's index is its own last dimension. */
  function LoraSelect(l: Lora, ixs: seq<Ix>): Option<Lora>
    requires Constructed(l) && |ixs| == Dims(l)
    requires forall i :: 0 <= i < Dims(l) - 2 ==> l.A.shape[i] > 0
  {
    NewFrom(SelectBy(l.A, IndicesA(l.A.shape, ixs)), SelectBy(l.B, ixs[..Dims(l) - 1] + [ALL]))
  }

  /** __getitem__ with a tuple. None stands for an exception, among them the remainder by an empty dimension of A. */
  function LoraTuple(l: Lora, given: seq<Ix>): Option<Lora>
    requires Constructed(l)
  {
    if given == [] || |given| > Dims(l) then None
    else if exists i :: 0 <= i < Dims(l) - 2 && l.A.shape[i] == 0 then None
    else LoraSelect(l, Pad(given, Dims(l)))
  }

  // what the picks mean for the factors

  function LeadPicksA(picks: seq<Pick>): seq<Pick> {
    seq(|picks|, i requires 0 <= i < |picks| => if picks[i].keep then Full(1) else Pick(false, [0]))
  }

  function PicksA(picks: seq<Pick>, rank: nat): seq<Pick>
    requires |picks| >= 2
  {
    LeadPicksA(picks[..|picks| - 2]) + [Full(rank)] + [picks[|picks| - 1]]
  }

  function PicksB(picks: seq<Pick>, rank: nat): seq<Pick>
    requires |picks| >= 2
  {
    picks[..|picks| - 1] + [Full(rank)]
  }

  lemma {:induction false} PickedSnoc(ps: seq<Pick>, q: Pick)
    ensures PickedShape(ps + [q]) == PickedShape(ps) + if q.keep then [|q.positions|] else []
  {
    if ps == [] {
      assert ps + [q] == [q] && [q][1..] == [];
    } else {
      assert (ps + [q])[1..] == ps[1..] + [q] && (ps + [q])[0] == ps[0];
      PickedSnoc(ps[1..], q);
      var head: Shape := if ps[0].keep then [|ps[0].positions|] else [];
      var tail: Shape := if q.keep then [|q.positions|] else [];
      Assoc(head, PickedShape(ps[1..]), tail);
    }
  }

  /** A kept last dimension is selected on its own. */
  lemma {:induction false} SourceSnoc(ps: seq<Pick>, q: Pick, u: Index, x: nat)
    requires q.keep && InBounds(PickedShape(ps), u) && x < |q.positions|
    ensures Source(ps + [q], u + [x]) == Source(ps, u) + [q.positions[x]]
    decreases |ps|
  {
    if ps == [] {
      assert ps + [q] == [q] && [q][1..] == [] && u + [x] == [x];
    } else {
      assert (ps + [q])[1..] == ps[1..] + [q];
      if ps[0].keep {
        assert PickedShape(ps)[1..] == PickedShape(ps[1..]);
        assert (u + [x])[1..] == u[1..] + [x] && (u + [x])[0] == u[0];
        SourceSnoc(ps[1..], q, u[1..], x);
      } else {
        SourceSnoc(ps[1..], q, u, x);
      }
    }
  }

  lemma LeadPicksCons(ps: seq<Pick>)
    requires ps != []
    ensures LeadPicksA(ps)[1..] == LeadPicksA(ps[1..])
    ensures LeadPicksA(ps)[0] == if ps[0].keep then Full(1) else Pick(false, [0])
  {
  }

  lemma OneMore(n: nat)
    ensures [1] + Ones(n) == Ones(n + 1) && [0] + Zeros(n) == Zeros(n + 1) && Zeros(n + 1)[1..] == Zeros(n)
  {
  }

  /** In a unit-lead A every leading pick selects position 0. */
  lemma {:induction false} LeadOfA(ps: seq<Pick>)
    ensures var kept := |PickedShape(ps)|;
            && PickedShape(LeadPicksA(ps)) == Ones(kept)
            && Source(LeadPicksA(ps), Zeros(kept)) == Zeros(|ps|)
  {
    if ps != [] {
      var lead, kept := LeadPicksA(ps), |PickedShape(ps[1..])|;
      LeadOfA(ps[1..]);
      LeadPicksCons(ps);
      OneMore(kept);
      OneMore(|ps| - 1);
      if ps[0].keep {
        assert Range(0, 1) == [0];
        assert Source(lead, Zeros(kept + 1)) == [0] + Source(lead[1..], Zeros(kept));
      } else {
        assert Source(lead, Zeros(kept)) == [0] + Source(lead[1..], Zeros(kept));
      }
    }
  }

  lemma ShapeOfA(picks: seq<Pick>, rank: nat)
    requires |picks| >= 2 && picks[|picks| - 1].keep
    ensures PickedShape(PicksA(picks, rank))
         == Ones(|PickedShape(picks[..|picks| - 2])|) + [rank] + [|picks[|picks| - 1].positions|]
  {
    var lead := LeadPicksA(picks[..|picks| - 2]);
    LeadOfA(picks[..|picks| - 2]);
    PickedSnoc(lead, Full(rank));
    PickedSnoc(lead + [Full(rank)], picks[|picks| - 1]);
  }

  /** The entry of the selected A for rank k and column c. */
  lemma EntryOfA(a: Tensor, t: Tensor, picks: seq<Pick>, rank: nat, k: nat, c: nat)
    requires |picks| >= 2 && picks[|picks| - 1].keep && IsSelected(a, t, PicksA(picks, rank))
    requires k < rank && c < |picks[|picks| - 1].positions|
    ensures At(a, Zeros(|PickedShape(picks[..|picks| - 2])|) + [k] + [c])
         == At(t, Zeros(|picks| - 2) + [k] + [picks[|picks| - 1].positions[c]])
  {
    var front, last := picks[..|picks| - 2], picks[|picks| - 1];
    var kept := |PickedShape(front)|;
    var lead := LeadPicksA(front);
    LeadOfA(front);
    ShapeOfA(picks, rank);
    PickedSnoc(lead, Full(rank));
    SourceSnoc(lead, Full(rank), Zeros(kept), k);
    assert InBounds(PickedShape(lead + [Full(rank)]), Zeros(kept) + [k]);
    SourceSnoc(lead + [Full(rank)], last, Zeros(kept) + [k], c);
    assert InBounds(a.shape, Zeros(kept) + [k] + [c]);
    assert SelectedAt(a, t, PicksA(picks, rank), Zeros(kept) + [k] + [c]);
  }

  lemma EntryOfB(b: Tensor, t: Tensor, picks: seq<Pick>, rank: nat, u: Index, k: nat)
    requires |picks| >= 2 && IsSelected(b, t, PicksB(picks, rank))
    requires InBounds(PickedShape(picks[..|picks| - 1]), u) && k < rank
    ensures At(b, u + [k]) == At(t, Source(picks[..|picks| - 1], u) + [k])
  {
    PickedSnoc(picks[..|picks| - 1], Full(rank));
    SourceSnoc(picks[..|picks| - 1], Full(rank), u, k);
    assert InBounds(b.shape, u + [k]);
    assert SelectedAt(b, t, PicksB(picks, rank), u + [k]);
  }

  lemma EntryOfProduct(e: Tensor, d: Tensor, picks: seq<Pick>, u: Index, c: nat)
    requires |picks| >= 2 && picks[|picks| - 1].keep && IsSelected(e, d, picks)
    requires InBounds(PickedShape(picks[..|picks| - 1]), u) && c < |picks[|picks| - 1].positions|
    ensures var v, x := Source(picks[..|picks| - 1], u), picks[|picks| - 1].positions[c];
            InBounds(d.shape, v + [x]) && At(e, u + [c]) == At(d, v + [x])
  {
    var rows, last := picks[..|picks| - 1], picks[|picks| - 1];
    assert picks == rows + [last];
    PickedSnoc(rows, last);
    SourceSnoc(rows, last, u, c);
    assert InBounds(e.shape, u + [c]);
    assert SelectedAt(e, d, picks, u + [c]);
    SourceInBounds(d.shape, picks, u + [c]);
  }

  /** Selecting the factors as __getitem__ does, when rows and columns stay, selects from the product. */
  lemma SelectedFactors(l: Lora, d: Tensor, A: Tensor, B: Tensor, e: Tensor, picks: seq<Pick>)
    requires UnitLead(l) && IsDense(d, l) && |picks| == Dims(l)
    requires picks[Dims(l) - 2].keep && picks[Dims(l) - 1].keep
    requires IsSelected(A, l.A, PicksA(picks, Rank(l))) && IsSelected(B, l.B, PicksB(picks, Rank(l)))
    requires IsSelected(e, d, picks)
    ensures UnitLead(Lora(A, B)) && IsDense(e, Lora(A, B))
  {
    var m := Lora(A, B);
    SelectedShapes(l, A, B, e, picks);
    forall u: Index, c: nat ensures DenseAt(e, m, u, c) {
      if |u| == Dims(m) - 1 && InBounds(e.shape, u + [c]) {
        SelectedBounds(picks, u, c);
        SelectedCell(l, d, m, e, picks, u, c);
      }
    }
  }

  lemma ShapeOfB(picks: seq<Pick>, rank: nat)
    requires |picks| >= 2 && picks[|picks| - 2].keep && picks[|picks| - 1].keep
    ensures var front, r, c := PickedShape(picks[..|picks| - 2]), |picks[|picks| - 2].positions|, |picks[|picks| - 1].positions|;
            && PickedShape(PicksB(picks, rank)) == front + [r] + [rank]
            && PickedShape(picks) == front + [r] + [c]
  {
    var n := |picks|;
    var front, rows := picks[..n - 2], picks[..n - 1];
    assert rows == front + [picks[n - 2]] && picks == rows + [picks[n - 1]];
    PickedSnoc(front, picks[n - 2]);
    PickedSnoc(rows, Full(rank));
    PickedSnoc(rows, picks[n - 1]);
  }

  lemma SelectedShapes(l: Lora, A: Tensor, B: Tensor, e: Tensor, picks: seq<Pick>)
    requires UnitLead(l) && |picks| == Dims(l)
    requires picks[Dims(l) - 2].keep && picks[Dims(l) - 1].keep
    requires A.shape == PickedShape(PicksA(picks, Rank(l))) && B.shape == PickedShape(PicksB(picks, Rank(l)))
    requires e.shape == PickedShape(picks)
    ensures UnitLead(Lora(A, B)) && Rank(Lora(A, B)) == Rank(l) && e.shape == LoraShape(Lora(A, B))
    ensures Dims(Lora(A, B)) == |PickedShape(picks[..Dims(l) - 2])| + 2
    ensures A.shape == Ones(Dims(Lora(A, B)) - 2) + [Rank(l)] + [|picks[Dims(l) - 1].positions|]
  {
    ShapeOfA(picks, Rank(l));
    ShapeOfB(picks, Rank(l));
    ShapesFit(Lora(A, B), PickedShape(picks[..Dims(l) - 2]), |picks[Dims(l) - 2].positions|, Rank(l),
              |picks[Dims(l) - 1].positions|);
  }

  lemma ShapesFit(m: Lora, front: Shape, r: nat, rank: nat, c: nat)
    requires m.A.shape == Ones(|front|) + [rank] + [c] && m.B.shape == front + [r] + [rank]
    ensures UnitLead(m) && Rank(m) == rank && LoraShape(m) == front + [r] + [c]
  {
  }

  lemma SelectedBounds(picks: seq<Pick>, u: Index, c: nat)
    requires |picks| >= 2 && picks[|picks| - 1].keep && InBounds(PickedShape(picks), u + [c])
    ensures InBounds(PickedShape(picks[..|picks| - 1]), u) && c < |picks[|picks| - 1].positions|
  {
    var rows, last := picks[..|picks| - 1], picks[|picks| - 1];
    assert picks == rows + [last];
    PickedSnoc(rows, last);
    SplitLast(PickedShape(picks), u + [c]);
    assert (u + [c])[..|u|] == u;
  }

  lemma SelectedCell(l: Lora, d: Tensor, m: Lora, e: Tensor, picks: seq<Pick>, u: Index, c: nat)
    requires UnitLead(l) && IsDense(d, l) && |picks| == Dims(l)
    requires picks[Dims(l) - 2].keep && picks[Dims(l) - 1].keep
    requires IsSelected(m.A, l.A, PicksA(picks, Rank(l))) && IsSelected(m.B, l.B, PicksB(picks, Rank(l)))
    requires IsSelected(e, d, picks)
    requires UnitLead(m) && Rank(m) == Rank(l) && Dims(m) == |PickedShape(picks[..Dims(l) - 2])| + 2
    requires |u| == Dims(m) - 1 && InBounds(PickedShape(picks[..Dims(l) - 1]), u) && c < |picks[Dims(l) - 1].positions|
    ensures At(e, u + [c]) == Cell(m, u, c)
  {
    var v, x := Source(picks[..Dims(l) - 1], u), picks[Dims(l) - 1].positions[c];
    EntryOfProduct(e, d, picks, u, c);
    assert DenseAt(d, l, v, x);
    forall k: nat | k < Rank(l) ensures Term(m, u, c, k) == Term(l, v, x, k) {
      EntryOfA(m.A, l.A, picks, Rank(l), k, c);
      EntryOfB(m.B, l.B, picks, Rank(l), u, k);
      SelectedTerm(l, m, u, v, c, x, k);
    }
    SameTermsSameCell(m, u, c, l, v, x);
  }

  lemma SelectedTerm(l: Lora, m: Lora, u: Index, v: Index, c: nat, x: nat, k: nat)
    requires UnitLead(l) && UnitLead(m) && |u| == Dims(m) - 1 && |v| == Dims(l) - 1
    requires At(m.B, u + [k]) == At(l.B, v + [k])
    requires At(m.A, Zeros(Dims(m) - 2) + [k] + [c]) == At(l.A, Zeros(Dims(l) - 2) + [k] + [x])
    ensures Term(m, u, c, k) == Term(l, v, x, k)
  {
    UnitTermIs(m, u, c, k);
    UnitTermIs(l, v, x, k);
  }

  lemma UnitTermIs(l: Lora, u: Index, c: nat, k: nat)
    requires UnitLead(l) && |u| == Dims(l) - 1
    ensures Term(l, u, c, k) == At(l.B, u + [k]) * At(l.A, Zeros(Dims(l) - 2) + [k] + [c])
  {
    assert LeadInA(l.A.shape, u) == Zeros(Dims(l) - 2);
    assert Zeros(Dims(l) - 2) + [k, c] == Zeros(Dims(l) - 2) + [k] + [c];
  }

  // from index elements to picks

  lemma FullIsAll(n: nat)
    ensures PickOf(ALL, n) == Some(Full(n))
  {
  }

  lemma FactorPickA(l: Lora, ixs: seq<Ix>, picks: seq<Pick>, i: nat)
    requires UnitLead(l) && |ixs| == |picks| == Dims(l) && i < Dims(l)
    requires PickOf(ixs[i], LoraShape(l)[i]) == Some(picks[i])
    ensures PickOf(IndicesA(l.A.shape, ixs)[i], l.A.shape[i]) == Some(PicksA(picks, Rank(l))[i])
  {
    FullIsAll(l.A.shape[i]);
  }

  lemma FactorPickB(l: Lora, ixs: seq<Ix>, picks: seq<Pick>, i: nat)
    requires UnitLead(l) && |ixs| == |picks| == Dims(l) && i < Dims(l)
    requires PickOf(ixs[i], LoraShape(l)[i]) == Some(picks[i])
    ensures PickOf((ixs[..Dims(l) - 1] + [ALL])[i], l.B.shape[i]) == Some(PicksB(picks, Rank(l))[i])
  {
    FullIsAll(l.B.shape[i]);
  }

  /** The elements A and B are indexed with select what the picks say. */
  lemma FactorPicks(l: Lora, ixs: seq<Ix>, picks: seq<Pick>)
    requires UnitLead(l) && |ixs| == Dims(l) && Picks(LoraShape(l), ixs) == Some(picks)
    ensures Picks(l.A.shape, IndicesA(l.A.shape, ixs)) == Some(PicksA(picks, Rank(l)))
    ensures Picks(l.B.shape, ixs[..Dims(l) - 1] + [ALL]) == Some(PicksB(picks, Rank(l)))
  {
    var a, b := IndicesA(l.A.shape, ixs), ixs[..Dims(l) - 1] + [ALL];
    var pa, pb := PicksA(picks, Rank(l)), PicksB(picks, Rank(l));
    forall i: nat | i < Dims(l)
      ensures PickOf(a[i], l.A.shape[i]) == Some(pa[i]) && PickOf(b[i], l.B.shape[i]) == Some(pb[i])
    {
      PicksAt(LoraShape(l), ixs, i);
      FactorPickA(l, ixs, picks, i);
      FactorPickB(l, ixs, picks, i);
    }
    PicksAre(l.A.shape, a, pa);
    PicksAre(l.B.shape, b, pb);
  }

  lemma FactorSelections(l: Lora, ixs: seq<Ix>, picks: seq<Pick>) returns (A: Tensor, B: Tensor)
    requires UnitLead(l) && |ixs| == Dims(l) && Picks(LoraShape(l), ixs) == Some(picks)
    ensures SelectBy(l.A, IndicesA(l.A.shape, ixs)) == Some(A) && SelectBy(l.B, ixs[..Dims(l) - 1] + [ALL]) == Some(B)
    ensures IsSelected(A, l.A, PicksA(picks, Rank(l))) && IsSelected(B, l.B, PicksB(picks, Rank(l)))
  {
    FactorPicks(l, ixs, picks);
    SelectByIs(l.A, IndicesA(l.A.shape, ixs), PicksA(picks, Rank(l)));
    SelectByIs(l.B, ixs[..Dims(l) - 1] + [ALL], PicksB(picks, Rank(l)));
    A := SelectBy(l.A, IndicesA(l.A.shape, ixs)).value;
    B := SelectBy(l.B, ixs[..Dims(l) - 1] + [ALL]).value;
  }

  lemma KeptExactlyWhen(ixs: seq<Ix>, shape: Shape, picks: seq<Pick>, i: nat)
    requires |ixs| == |shape| && Picks(shape, ixs) == Some(picks) && i < |ixs|
    ensures picks[i].keep <==> !ixs[i].Int?
  {
    PicksAt(shape, ixs, i);
  }

  lemma SelectCommutesWhenKept(l: Lora, ixs: seq<Ix>, e: Tensor)
    requires UnitLead(l) && |ixs| == Dims(l) && SelectBy(Dense(l), ixs) == Some(e)
    requires !ixs[Dims(l) - 2].Int? && !ixs[Dims(l) - 1].Int?
    ensures var r := LoraSelect(l, ixs); r.Some? && UnitLead(r.value) && e == Dense(r.value)
  {
    var picks := Picks(LoraShape(l), ixs).value;
    KeptExactlyWhen(ixs, LoraShape(l), picks, Dims(l) - 2);
    KeptExactlyWhen(ixs, LoraShape(l), picks, Dims(l) - 1);
    SelectByIs(Dense(l), ixs, picks);
    var A, B := FactorSelections(l, ixs, picks);
    DenseIsDense(l);
    SelectedFactors(l, Dense(l), A, B, e, picks);
    DenseIsUnique(e, Lora(A, B));
  }

  lemma SelectFailsWhenDropped(l: Lora, ixs: seq<Ix>, e: Tensor)
    requires UnitLead(l) && |ixs| == Dims(l) && SelectBy(Dense(l), ixs) == Some(e)
    requires ixs[Dims(l) - 2].Int? || ixs[Dims(l) - 1].Int?
    ensures LoraSelect(l, ixs).Some? ==> |LoraShape(LoraSelect(l, ixs).value)| != |e.shape|
  {
    var picks := Picks(LoraShape(l), ixs).value;
    KeptExactlyWhen(ixs, LoraShape(l), picks, Dims(l) - 2);
    KeptExactlyWhen(ixs, LoraShape(l), picks, Dims(l) - 1);
    SelectByIs(Dense(l), ixs, picks);
    var A, B := FactorSelections(l, ixs, picks);
    DroppedLengths(picks, Rank(l));
  }

  /** Dropping the row or the column dimension leaves factors that are refused, or whose product has another shape. */
  lemma DroppedLengths(picks: seq<Pick>, rank: nat)
    requires |picks| >= 2 && !(picks[|picks| - 2].keep && picks[|picks| - 1].keep)
    ensures var a, b := |PickedShape(PicksA(picks, rank))|, |PickedShape(PicksB(picks, rank))|;
            a == b ==> b != |PickedShape(picks)|
  {
    var n := |picks|;
    var front, rows := picks[..n - 2], picks[..n - 1];
    var lead := LeadPicksA(front);
    assert rows == front + [picks[n - 2]] && picks == rows + [picks[n - 1]];
    LeadOfA(front);
    PickedSnoc(lead, Full(rank));
    PickedSnoc(lead + [Full(rank)], picks[n - 1]);
    PickedSnoc(front, picks[n - 2]);
    PickedSnoc(rows, Full(rank));
    PickedSnoc(rows, picks[n - 1]);
  }

  /**
   * __getitem__ with a tuple: where the product can be indexed, indexing the factors gives the same selection of the
   * product exactly if neither the row nor the column index is an integer.
   */
  lemma TupleCommutesExactlyWhen(l: Lora, given: seq<Ix>, e: Tensor)
    requires UnitLead(l) && 0 < |given| <= Dims(l) && TorchIndex(Dense(l), given) == Some(e)
    ensures var r, ixs := LoraTuple(l, given), Pad(given, Dims(l));
            (r.Some? && Dense(r.value) == e) <==> !ixs[Dims(l) - 2].Int? && !ixs[Dims(l) - 1].Int?
    ensures var r := LoraTuple(l, given);
            r.Some? && Dense(r.value) == e ==> UnitLead(r.value)
  {
    var ixs := Pad(given, Dims(l));
    if !ixs[Dims(l) - 2].Int? && !ixs[Dims(l) - 1].Int? {
      SelectCommutesWhenKept(l, ixs, e);
    } else {
      SelectFailsWhenDropped(l, ixs, e);
    }
  }

  /** What cannot be selected from the product cannot be selected from the factors. */
  lemma SelectFailsWithProduct(l: Lora, ixs: seq<Ix>)
    requires UnitLead(l) && |ixs| == Dims(l) && LoraSelect(l, ixs).Some?
    ensures Picks(LoraShape(l), ixs).Some?
  {
    var n, shape := Dims(l), LoraShape(l);
    var a, b := IndicesA(l.A.shape, ixs), ixs[..n - 1] + [ALL];
    forall i: nat | i < n ensures PickOf(ixs[i], shape[i]).Some? {
      if i < n - 1 {
        PicksAt(l.B.shape, b, i);
        assert b[i] == ixs[i];
      } else {
        PicksAt(l.A.shape, a, i);
        assert a[i] == ixs[i];
      }
    }
    AllPicksFit(shape, ixs);
  }

  lemma {:induction false} AllPicksFit(shape: Shape, ixs: seq<Ix>)
    requires |ixs| == |shape| && forall i :: 0 <= i < |ixs| ==> PickOf(ixs[i], shape[i]).Some?
    ensures Picks(shape, ixs).Some?
    decreases |shape|
  {
    if ixs != [] {
      assert PickOf(ixs[0], shape[0]).Some?;
      forall i | 0 <= i < |ixs| - 1 ensures PickOf(ixs[1..][i], shape[1..][i]).Some? {
        assert PickOf(ixs[i + 1], shape[i + 1]).Some?;
      }
      AllPicksFit(shape[1..], ixs[1..]);
    }
  }

  lemma TupleFailsWithProduct(l: Lora, given: seq<Ix>)
    requires UnitLead(l) && |given| <= Dims(l) && LoraTuple(l, given).Some?
    ensures TorchIndex(Dense(l), given).Some?
  {
    SelectFailsWithProduct(l, Pad(given, Dims(l)));
    PicksFitShape(LoraShape(l), Pad(given, Dims(l)));
  }

  // ----- a single slice or integer -----

  function Alls(n: nat): seq<Ix> {
    seq(n, _ => ALL)
  }

  /** __getitem__ with a slice: of a matrix it takes rows of B, else it slices the first dimension of both factors. */
  function LoraSlice(l: Lora, s: Ix): Option<Lora>
    requires Constructed(l)
  {
    if Dims(l) > 2 then NewFrom(TorchIndex(l.A, [s]), TorchIndex(l.B, [s]))
    else NewFrom(Some(l.A), TorchIndex(l.B, [s]))
  }

  /** __getitem__ with an integer: not supported for a matrix, else it indexes the first dimension of both factors. */
  function LoraInt(l: Lora, i: int): Option<Lora>
    requires Constructed(l)
  {
    if Dims(l) > 2 then NewFrom(TorchIndex(l.A, [Int(i)]), TorchIndex(l.B, [Int(i)])) else None
  }

  /** Selecting everything gives the same tensor. */
  lemma {:induction false} SourceOfFull(shape: Shape, picks: seq<Pick>, idx: Index)
    requires |picks| == |shape| == |idx|
    requires forall i :: 0 <= i < |shape| ==> picks[i] == Full(shape[i])
    requires forall i :: 0 <= i < |shape| ==> idx[i] < shape[i]
    ensures PickedShape(picks) == shape && Source(picks, idx) == idx
    decreases |picks|
  {
    if picks != [] {
      SourceOfFull(shape[1..], picks[1..], idx[1..]);
      assert Range(0, shape[0])[idx[0]] == idx[0];
    }
  }

  lemma {:induction false} ShapeOfFull(shape: Shape, picks: seq<Pick>)
    requires |picks| == |shape|
    requires forall i :: 0 <= i < |shape| ==> picks[i] == Full(shape[i])
    ensures PickedShape(picks) == shape
    decreases |picks|
  {
    if picks != [] {
      ShapeOfFull(shape[1..], picks[1..]);
    }
  }

  lemma SelectEverything(t: Tensor, ixs: seq<Ix>)
    requires |ixs| == |t.shape| && forall i :: 0 <= i < |ixs| ==> PickOf(ixs[i], t.shape[i]) == Some(Full(t.shape[i]))
    ensures SelectBy(t, ixs) == Some(t)
  {
    var picks := seq(|ixs|, i requires 0 <= i < |ixs| => Full(t.shape[i]));
    PicksAre(t.shape, ixs, picks);
    SelectByIs(t, ixs, picks);
    var s := SelectBy(t, ixs).value;
    ShapeOfFull(t.shape, picks);
    forall idx | InBounds(t.shape, idx) ensures At(s, idx) == At(t, idx) {
      assert SelectedAt(s, t, picks, idx);
      SourceOfFull(t.shape, picks, idx);
    }
    SameEntriesSameTensor(s, t);
  }

  lemma PadSlice(s: Ix, n: nat)
    requires n >= 2
    ensures Pad([s], n) == [s] + Alls(n - 1)
    ensures Pad([s], n)[..n - 1] + [ALL] == Pad([s], n)
  {
  }

  /** With a first element that keeps position 0, a unit-lead A is indexed with everything. */
  lemma EverythingOfA(l: Lora, s: Ix)
    requires UnitLead(l) && s.Slice? && Dims(l) >= 2
    ensures SelectBy(l.A, IndicesA(l.A.shape, Pad([s], Dims(l)))) == Some(l.A)
    ensures Dims(l) > 2 && PickOf(s, 1).value.positions == [0] ==> SelectBy(l.A, Pad([s], Dims(l))) == Some(l.A)
  {
    var n, ixs := Dims(l), Pad([s], Dims(l));
    var a := IndicesA(l.A.shape, ixs);
    PadSlice(s, n);
    forall i | 0 <= i < n ensures PickOf(a[i], l.A.shape[i]) == Some(Full(l.A.shape[i])) {
      FullIsAll(l.A.shape[i]);
    }
    SelectEverything(l.A, a);
    if n > 2 && PickOf(s, 1).value.positions == [0] {
      assert Range(0, 1) == [0];
      forall i | 0 <= i < n ensures PickOf(ixs[i], l.A.shape[i]) == Some(Full(l.A.shape[i])) {
        FullIsAll(l.A.shape[i]);
      }
      SelectEverything(l.A, ixs);
    }
  }

  /** When the slice keeps the one leading position of A, slicing both factors is the tuple index with that slice. */
  lemma SliceIsTuple(l: Lora, s: Ix)
    requires UnitLead(l) && s.Slice? && (Dims(l) == 2 || PickOf(s, 1).value.positions == [0])
    ensures LoraSlice(l, s) == LoraTuple(l, [s])
  {
    PadSlice(s, Dims(l));
    EverythingOfA(l, s);
  }

  lemma SlicePicks(s: Ix, n: nat)
    requires s.Slice?
    ensures PickOf(s, n).Some? && PickOf(s, n).value.keep
    ensures PickOf(s, 1).value.positions == [] || PickOf(s, 1).value.positions == [0]
  {
    assert Range(0, 1) == [0];
  }

  function Fulls(shape: Shape): seq<Pick> {
    if shape == [] then [] else [Full(shape[0])] + Fulls(shape[1..])
  }

  lemma {:induction false} AllsAreFull(shape: Shape)
    ensures Picks(shape, Alls(|shape|)) == Some(Fulls(shape)) && PickedShape(Fulls(shape)) == shape
  {
    if shape != [] {
      AllsAreFull(shape[1..]);
      assert Alls(|shape|)[1..] == Alls(|shape| - 1);
      assert Fulls(shape)[1..] == Fulls(shape[1..]);
    }
  }

  lemma FirstPick(shape: Shape, ix: Ix)
    requires shape != [] && PickOf(ix, shape[0]).Some? && PickOf(ix, shape[0]).value.keep
    ensures var p, picks := PickOf(ix, shape[0]).value, Picks(shape, Pad([ix], |shape|));
            picks.Some? && PickedShape(picks.value) == [|p.positions|] + shape[1..]
  {
    var p, ixs := PickOf(ix, shape[0]).value, Pad([ix], |shape|);
    assert ixs[0] == ix && ixs[1..] == Alls(|shape| - 1);
    AllsAreFull(shape[1..]);
    assert ([p] + Fulls(shape[1..]))[1..] == Fulls(shape[1..]);
  }

  /** Indexing with one slice or list changes the first dimension only. */
  lemma TorchIndexFirst(t: Tensor, ix: Ix)
    requires t.shape != [] && PickOf(ix, t.shape[0]).Some? && PickOf(ix, t.shape[0]).value.keep
    ensures var r := TorchIndex(t, [ix]);
            r.Some? && r.value.shape == [|PickOf(ix, t.shape[0]).value.positions|] + t.shape[1..]
  {
    FirstPick(t.shape, ix);
    SelectByIs(t, Pad([ix], |t.shape|), Picks(t.shape, Pad([ix], |t.shape|)).value);
  }

  /**
   * __getitem__ with a slice commutes with the product for a matrix always, and for more dimensions exactly when the
   * slice keeps the one leading position of A, or selects nothing from B.
   */
  lemma SliceCommutesExactlyWhen(l: Lora, s: Ix)
    requires UnitLead(l) && s.Slice?
    ensures (LoraSlice(l, s).Some? && Meaningful(LoraSlice(l, s).value)
             && Some(Dense(LoraSlice(l, s).value)) == TorchIndex(Dense(l), [s]))
            <==> || Dims(l) == 2
                 || PickOf(s, 1).value.positions != []
                 || PickOf(s, l.B.shape[0]).value.positions == []
  {
    SlicePicks(s, l.B.shape[0]);
    TorchIndexFirst(Dense(l), s);
    if Dims(l) == 2 || PickOf(s, 1).value.positions != [] {
      SliceIsTuple(l, s);
      TupleCommutesExactlyWhen(l, [s], TorchIndex(Dense(l), [s]).value);
    } else {
      EmptySliceOfA(l, s);
    }
  }

  lemma FirstInBounds(shape: Shape, idx: Index)
    ensures shape != [] && InBounds(shape, idx) ==> idx[0] < shape[0]
  {
  }

  lemma EmptyProduct(e: Tensor, m: Lora)
    requires Constructed(m) && e.shape == LoraShape(m) && e.shape[0] == 0
    ensures e == Dense(m)
  {
    forall u: Index, c: nat ensures DenseAt(e, m, u, c) {
      FirstInBounds(e.shape, u + [c]);
    }
    DenseIsUnique(e, m);
  }

  lemma CutFirst(l: Lora, m: Lora, b: nat)
    requires UnitLead(l) && Dims(l) > 2
    requires m.A.shape == [0] + l.A.shape[1..] && m.B.shape == [b] + l.B.shape[1..]
    ensures Constructed(m) && LoraShape(m) == [b] + LoraShape(l)[1..]
    ensures Meaningful(m) <==> b == 0
  {
    var n := Dims(l);
    assert forall i :: 0 < i < n ==> m.A.shape[i] == l.A.shape[i] && m.B.shape[i] == l.B.shape[i];
    assert m.A.shape[0] == 0 && m.B.shape[0] == b;
  }

  lemma EmptySliceOfA(l: Lora, s: Ix)
    requires UnitLead(l) && s.Slice? && Dims(l) > 2 && PickOf(s, 1).value.positions == []
    ensures (LoraSlice(l, s).Some? && Meaningful(LoraSlice(l, s).value)
             && Some(Dense(LoraSlice(l, s).value)) == TorchIndex(Dense(l), [s]))
            <==> PickOf(s, l.B.shape[0]).value.positions == []
  {
    var b := PickOf(s, l.B.shape[0]).value.positions;
    SlicePicks(s, l.B.shape[0]);
    TorchIndexFirst(l.A, s);
    TorchIndexFirst(l.B, s);
    TorchIndexFirst(Dense(l), s);
    var m := Lora(TorchIndex(l.A, [s]).value, TorchIndex(l.B, [s]).value);
    CutFirst(l, m, |b|);
    if b == [] {
      EmptyProduct(TorchIndex(Dense(l), [s]).value, m);
    }
  }

  /** __getitem__ with an integer: above two dimensions it works for the one position of A, and is then right. */
  lemma IntCommutes(l: Lora, i: int)
    requires UnitLead(l) && TorchIndex(Dense(l), [Int(i)]).Some?
    ensures LoraInt(l, i).Some? <==> Dims(l) > 2 && (i == 0 || i == -1)
    ensures LoraInt(l, i).Some? ==>
              UnitLead(LoraInt(l, i).value) && Some(Dense(LoraInt(l, i).value)) == TorchIndex(Dense(l), [Int(i)])
  {
    if Dims(l) > 2 {
      var n := Dims(l);
      var ixs := Pad([Int(i)], n);
      assert ixs == [Int(i)] + seq(n - 1, _ => ALL);
      var w := Wrap(i, 1);
      var a := IndicesA(l.A.shape, ixs);
      if i == 0 || i == -1 {
        assert w == 0;
        assert PickOf(Int(0), 1) == PickOf(Int(i), 1);
        forall k | 0 <= k < n ensures PickOf(a[k], l.A.shape[k]) == PickOf(ixs[k], l.A.shape[k]) {
          if k > 0 {
            assert a[k] == ALL && ixs[k] == ALL;
          }
        }
        SamePicksSameSelection(l.A, a, ixs);
        assert ixs[..n - 1] + [ALL] == ixs;
        TupleCommutesExactlyWhen(l, [Int(i)], TorchIndex(Dense(l), [Int(i)]).value);
      } else {
        assert PickOf(ixs[0], l.A.shape[0]).None?;
      }
    }
  }

  lemma {:induction false} SamePicksSameList(shape: Shape, a: seq<Ix>, b: seq<Ix>)
    requires |a| == |b| == |shape| && forall k :: 0 <= k < |a| ==> PickOf(a[k], shape[k]) == PickOf(b[k], shape[k])
    ensures Picks(shape, a) == Picks(shape, b)
    decreases |shape|
  {
    if shape != [] {
      assert PickOf(a[0], shape[0]) == PickOf(b[0], shape[0]);
      forall k | 0 <= k < |a| - 1 ensures PickOf(a[1..][k], shape[1..][k]) == PickOf(b[1..][k], shape[1..][k]) {
        assert PickOf(a[k + 1], shape[k + 1]) == PickOf(b[k + 1], shape[k + 1]);
      }
      SamePicksSameList(shape[1..], a[1..], b[1..]);
    }
  }

  lemma SamePicksSameSelection(t: Tensor, a: seq<Ix>, b: seq<Ix>)
    requires |a| == |b| == |t.shape| && forall k :: 0 <= k < |a| ==> PickOf(a[k], t.shape[k]) == PickOf(b[k], t.shape[k])
    ensures SelectBy(t, a) == SelectBy(t, b)
  {
    SamePicksSameList(t.shape, a, b);
  }
}
