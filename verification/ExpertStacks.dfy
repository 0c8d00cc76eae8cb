/** What stands in the stacks of the experts of a block, entry by entry, and how the tensors are named. */
module ExpertStacks {
  import opened StringUtils
  import opened Tensors
  import opened Experts

  // ----- names -----

  predicate IsDigit(c: char) {
    '0' <= c <= '9'
  }

  /** The number that decimal digits stand for. */
  function NumberOf(s: string): nat
    requires forall k :: 0 <= k < |s| ==> IsDigit(s[k])
    decreases |s|
  {
    if s == "" then 0
    else
      var k := |s| - 1;
      assert IsDigit(s[k]);
      10 * NumberOf(s[..k]) + (s[k] as int - '0' as int)
  }

  lemma {:induction false} DecimalIsNumber(n: nat)
    ensures var s := Decimal(n);
            (forall k :: 0 <= k < |s| ==> IsDigit(s[k])) && NumberOf(s) == n && (s[0] == '0' ==> n == 0 && |s| == 1)
  {
    if n >= 10 {
      DecimalIsNumber(n / 10);
      var s, k := Decimal(n), |Decimal(n)| - 1;
      assert s[..k] == Decimal(n / 10) && s[k] == Digit(n % 10);
    } else {
      assert NumberOf([Digit(n)][..0]) == 0;
    }
  }

  /** The number of an expert and of its block, written without zeros in front. */
  ghost predicate IsNumeral(s: string, n: nat) {
    (forall k :: 0 <= k < |s| ==> IsDigit(s[k])) && s != "" && NumberOf(s) == n && (s[0] == '0' ==> s == "0")
  }

  lemma ExpertIsNamed(bid: nat, x: nat, w: string) returns (b: string, e: string)
    ensures IsNumeral(b, bid) && IsNumeral(e, x)
    ensures ExpertName(bid, x, w) == "model.layers." + b + ".mlp.experts." + e + "." + w + ".weight"
    ensures MergedName(bid, w) == "model.layers." + b + ".mlp.experts." + w + ".weight"
  {
    DecimalIsNumber(bid);
    DecimalIsNumber(x);
    b, e := Decimal(bid), Decimal(x);
  }

  /** The tensors kept back are those with "experts" in their names, anywhere. */
  lemma ExpertsAreNamed(name: string)
    ensures IsExpert(name) <==> exists before, behind :: name == before + "experts" + behind
  {
    if IsExpert(name) {
      var i := Find(name, "experts", 0).value;
      assert name == name[..i] + "experts" + name[i + 7..] by {
        assert name[i..i + 7] == "experts";
      }
    } else if before, behind :| name == before + "experts" + behind {
      assert OccursAt(name, "experts", |before|);
    }
  }

  // ----- entries -----

  lemma NameIs(bid: nat, w: string, n: nat, x: nat)
    ensures ExpertNames(bid, w)(x) == ExpertName(bid, x, w)
    ensures x < n ==> ExpertName(bid, x, w) in FirstNames(ExpertNames(bid, w), n)
  {
    assert ExpertNames(bid, w)(x) == ExpertName(bid, x, w);
  }

  lemma {:induction false} NamesHold(n: nat, bid: nat, ws: seq<string>, i: nat, name: string)
    requires i < |ws| && name in FirstNames(ExpertNames(bid, ws[i]), n)
    ensures name in NamesFor(n, bid, ws)
    decreases |ws|
  {
    if i > 0 {
      NamesHold(n, bid, ws[1..], i - 1, name);
    }
  }

  lemma StackEntryIs(m: Block, names: nat -> string, n: nat, x: nat, name: string, idx: Index)
    requires Stack(Datas(m, names, n)).Some? && x < n && name == names(x) && name in m
    ensures var part, whole := m[name], Stack(Datas(m, names, n)).value;
            whole.shape == [n] + part.shape && (InBounds(part.shape, idx) ==> At(whole, [x] + idx) == At(part, idx))
  {
    var ts := Datas(m, names, n);
    StackIsStacked(ts);
    assert StackedAt(Stack(ts).value, ts, x, idx);
    assert ts[x].shape == ts[0].shape;
  }

  lemma {:induction false} StackIsOf(n: nat, bid: nat, m: Block, ws: seq<string>, i: nat)
    requires AllStackFor(n, bid, m, ws) && i < |ws|
    ensures var stack := Stack(Datas(m, ExpertNames(bid, ws[i]), n));
            stack.Some? && StacksFor(n, bid, m, ws)[i] == Output(MergedName(bid, ws[i]), stack.value)
    decreases |ws|
  {
    if i > 0 {
      StackIsOf(n, bid, m, ws[1..], i - 1);
    } else {
      assert StackOf(m, bid, ws[0], n).Some?;
    }
  }

  /**
   * In a complete block, entry `idx` of expert x is entry `[x] + idx` of the stack of its weight; the weights are in the order of
   * the list.
   */
  lemma StackForHoldsExpert(n: nat, bid: nat, m: Block, ws: seq<string>, i: nat, x: nat, idx: Index)
    requires AllStackFor(n, bid, m, ws) && NamesFor(n, bid, ws) <= m.Keys && i < |ws| && x < n
    ensures |StacksFor(n, bid, m, ws)| == |ws| && StacksFor(n, bid, m, ws)[i].name == MergedName(bid, ws[i])
    ensures ExpertName(bid, x, ws[i]) in m
    ensures var part, whole := m[ExpertName(bid, x, ws[i])], StacksFor(n, bid, m, ws)[i].data;
            whole.shape == [n] + part.shape && (InBounds(part.shape, idx) ==> At(whole, [x] + idx) == At(part, idx))
  {
    var w, whole := ws[i], StacksFor(n, bid, m, ws)[i];
    NameIs(bid, w, n, x);
    NamesHold(n, bid, ws, i, ExpertName(bid, x, w));
    StackIsOf(n, bid, m, ws, i);
    StackEntryIs(m, ExpertNames(bid, w), n, x, ExpertName(bid, x, w), idx);
  }

  /** The three weights of a block. */
  lemma StackHoldsExpert(n: nat, bid: nat, m: Block, i: nat, x: nat, idx: Index)
    requires AllStack(n, bid, m) && Names(n, bid) <= m.Keys && i < 3 && x < n
    ensures var w := ["down_proj", "gate_proj", "up_proj"][i];
            && |Stacks(n, bid, m)| == 3 && Stacks(n, bid, m)[i].name == MergedName(bid, w)
            && ExpertName(bid, x, w) in m
            && var part, whole := m[ExpertName(bid, x, w)], Stacks(n, bid, m)[i].data;
               whole.shape == [n] + part.shape && (InBounds(part.shape, idx) ==> At(whole, [x] + idx) == At(part, idx))
  {
    StackForHoldsExpert(n, bid, m, WEIGHTS, i, x, idx);
  }
}
