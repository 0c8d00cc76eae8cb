/**
 * Qwen2-MoE conversion: the tensors of the experts of a block arrive in any order, are kept until the block is complete,
 * and leave as three stacks.
 */
module Experts {
  import opened StringUtils
  import opened Tensors

  datatype Arrival = Arrival(name: string, bid: Option<nat>, data: Tensor)

  datatype Output = Output(name: string, data: Tensor)

  type Block = map<string, Tensor>

  // ----- names -----

  function Digit(d: nat): char
    requires d < 10
  {
    '0' + d as char
  }

  function Decimal(n: nat): (s: string)
    ensures s != []
  {
    if n < 10 then [Digit(n)] else Decimal(n / 10) + [Digit(n % 10)]
  }

  function ExpertName(bid: nat, xid: nat, w: string): string {
    "model.layers." + Decimal(bid) + ".mlp.experts." + Decimal(xid) + "." + w + ".weight"
  }

  /** The name of a stack, before it is mapped to the name in the output file. */
  function MergedName(bid: nat, w: string): string {
    "model.layers." + Decimal(bid) + ".mlp.experts." + w + ".weight"
  }

  const WEIGHTS: seq<string> := ["down_proj", "gate_proj", "up_proj"]

  predicate IsExpert(name: string) {
    Find(name, "experts", 0).Some?
  }

  // ----- one arrival -----

  /** The names of one weight of all experts of a block. */
  function ExpertNames(bid: nat, w: string): nat -> string {
    (x: nat) => ExpertName(bid, x, w)
  }

  predicate HasAll(m: Block, names: nat -> string, n: nat) {
    forall x: nat :: x < n ==> names(x) in m
  }

  function DataOf(m: Block, name: string): Tensor {
    if name in m then m[name] else Tensor([0], [])
  }

  /** The tensors with the first n names, in order. */
  function Datas(m: Block, names: nat -> string, n: nat): (r: seq<Tensor>)
    ensures |r| == n && forall x: nat :: x < n ==> r[x] == DataOf(m, names(x))
  {
    if n == 0 then [] else Datas(m, names, n - 1) + [DataOf(m, names(n - 1))]
  }

  function FirstNames(names: nat -> string, n: nat): (r: set<string>)
    ensures forall name :: name in r <==> exists x: nat :: x < n && name == names(x)
  {
    if n == 0 then {} else FirstNames(names, n - 1) + {names(n - 1)}
  }

  /** Takes the tensors with the first n names out of a block and stacks them. */
  function Stacked(m: Block, names: nat -> string, n: nat): Result<(Block, Tensor)> {
    if !HasAll(m, names, n) then Err("KeyError")
    else
      match Stack(Datas(m, names, n))
      case None => Err("stack")
      case Some(t) => Ok((m - FirstNames(names, n), t))
  }

  /** Outputs made before, put in front of the outputs of the rest. */
  function After(first: seq<Output>, rest: Result<(Block, seq<Output>)>): Result<(Block, seq<Output>)> {
    match rest
    case Err(e) => Err(e)
    case Ok(r) => Ok((r.0, first + r.1))
  }

  /** All weights of a block. */
  function Gather(m: Block, bid: nat, n: nat, ws: seq<string>): Result<(Block, seq<Output>)> {
    if ws == [] then Ok((m, []))
    else
      var stacked :- Stacked(m, ExpertNames(bid, ws[0]), n);
      After([Output(MergedName(bid, ws[0]), stacked.1)], Gather(stacked.0, bid, n, ws[1..]))
  }

  /** modify_tensors: the new contents of the blocks, and the tensors to write. */
  function Arrive(n: nat, experts: seq<Block>, a: Arrival): Result<(seq<Block>, seq<Output>)> {
    if !IsExpert(a.name) then Ok((experts, [Output(a.name, a.data)]))
    else if a.bid.None? then Err("AssertionError")
    else if a.bid.value >= |experts| then Err("IndexError")
    else
      var b := a.bid.value;
      var m: Block := experts[b][a.name := a.data];
      if |m| < n * 3 then Ok((experts[b := m], []))
      else
        var gathered :- Gather(m, b, n, WEIGHTS);
        Ok((experts[b := gathered.0], gathered.1))
  }

  function NoExperts(blocks: nat): (r: seq<Block>)
    ensures |r| == blocks && forall b :: 0 <= b < blocks ==> r[b] == map[]
  {
    seq(blocks, _ => map[])
  }

  /** All arrivals in order: what is left in the blocks, and what each arrival wrote. */
  function Run(n: nat, blocks: nat, arrivals: seq<Arrival>): Result<(seq<Block>, seq<seq<Output>>)> {
    if arrivals == [] then Ok((NoExperts(blocks), []))
    else
      var k := |arrivals| - 1;
      var before :- Run(n, blocks, arrivals[..k]);
      var last :- Arrive(n, before.0, arrivals[k]);
      Ok((last.0, before.1 + [last.1]))
  }

  predicate NothingLeft(experts: seq<Block>) {
    forall b :: 0 <= b < |experts| ==> experts[b] == map[]
  }

  /** prepare_tensors: every arrival, then an error if some expert is still in its block. */
  function Convert(n: nat, blocks: nat, arrivals: seq<Arrival>): Result<seq<seq<Output>>> {
    var r :- Run(n, blocks, arrivals);
    if NothingLeft(r.0) then Ok(r.1) else Err("Unprocessed experts")
  }

  class Qwen2MoeModel {
    const numExperts: nat
    const blockCount: nat
    var experts: Option<seq<Block>>

    ghost predicate Valid()
      reads this
    {
      experts.Some? ==> |experts.value| == blockCount
    }

    ghost function Blocks(): (r: seq<Block>)
      requires Valid()
      reads this
      ensures |r| == blockCount
    {
      if experts.Some? then experts.value else NoExperts(blockCount)
    }

    constructor (n: nat, blocks: nat)
      ensures Valid() && numExperts == n && blockCount == blocks && Blocks() == NoExperts(blocks)
    {
      numExperts, blockCount, experts := n, blocks, None;
    }

    /** Takes the tensors of one weight out of a block, expert by expert. */
    method StackWeight(block: Block, names: nat -> string) returns (r: Result<(Block, Tensor)>)
      requires forall x: nat, y: nat :: names(x) == names(y) ==> x == y
      ensures r == Stacked(block, names, numExperts)
    {
      var left := block;
      var datas: seq<Tensor> := [];
      assert block - {} == block;
      for xid := 0 to numExperts
        invariant HasAll(block, names, xid)
        invariant datas == Datas(block, names, xid)
        invariant left == block - FirstNames(names, xid)
      {
        var ename := names(xid);
        if ename !in left {
          return Err("KeyError");
        }
        datas := datas + [left[ename]];
        left := left - {ename};
      }
      var stacked := Stack(datas);
      r := if stacked.None? then Err("stack") else Ok((left, stacked.value));
    }

    method GatherBlock(block: Block, bid: nat, ws: seq<string>) returns (r: Result<(Block, seq<Output>)>)
      ensures r == Gather(block, bid, numExperts, ws)
    {
      var left := block;
      var tensors: seq<Output> := [];
      AfterNothing(Gather(block, bid, numExperts, ws));
      for i := 0 to |ws|
        invariant Gather(block, bid, numExperts, ws) == After(tensors, Gather(left, bid, numExperts, ws[i..]))
      {
        NamesAreInjective(bid, ws[i]);
        GatherStep(left, bid, numExperts, ws, i);
        var stacked := StackWeight(left, ExpertNames(bid, ws[i]));
        if stacked.Err? {
          return Err(stacked.error);
        }
        var output := Output(MergedName(bid, ws[i]), stacked.value.1);
        AfterAfter(tensors, output, Gather(stacked.value.0, bid, numExperts, ws[i + 1..]));
        left, tensors := stacked.value.0, tensors + [output];
      }
      assert ws[|ws|..] == [] && tensors + [] == tensors;
      return Ok((left, tensors));
    }

    method ModifyTensors(a: Arrival) returns (r: Result<seq<Output>>)
      requires Valid()
      modifies this`experts
      ensures Valid()
      ensures match Arrive(numExperts, old(Blocks()), a)
              case Ok(after) => r == Ok(after.1) && Blocks() == after.0
              case Err(e) => r == Err(e)
    {
      if !IsExpert(a.name) {
        return Ok([Output(a.name, a.data)]);
      }
      if a.bid.None? {
        return Err("AssertionError");
      }
      if experts.None? {
        experts := Some(NoExperts(blockCount));
      }
      var bid := a.bid.value;
      if bid >= |experts.value| {
        return Err("IndexError");
      }
      var block: Block := experts.value[bid][a.name := a.data];
      if |block| < numExperts * 3 {
        experts := Some(experts.value[bid := block]);
        return Ok([]);
      }
      var gathered := GatherBlock(block, bid, WEIGHTS);
      if gathered.Err? {
        return Err(gathered.error);
      }
      experts := Some(experts.value[bid := gathered.value.0]);
      return Ok(gathered.value.1);
    }

    /** The tensors of the model one after the other, then the check for experts that were never written. */
    method PrepareTensors(arrivals: seq<Arrival>) returns (r: Result<seq<seq<Output>>>)
      requires Valid() && Blocks() == NoExperts(blockCount)
      modifies this`experts
      ensures r == Convert(numExperts, blockCount, arrivals)
    {
      var written: seq<seq<Output>> := [];
      for i := 0 to |arrivals|
        invariant Valid() && Run(numExperts, blockCount, arrivals[..i]) == Ok((Blocks(), written))
      {
        RunStep(numExperts, blockCount, arrivals, i);
        var tensors := ModifyTensors(arrivals[i]);
        if tensors.Err? {
          RunStaysFailed(numExperts, blockCount, arrivals, i + 1);
          return Err(tensors.error);
        }
        written := written + [tensors.value];
      }
      assert arrivals[..|arrivals|] == arrivals;
      var clean := CheckProcessed();
      r := if clean then Ok(written) else Err("Unprocessed experts");
    }

    method CheckProcessed() returns (clean: bool)
      requires Valid()
      ensures clean == NothingLeft(Blocks())
    {
      if experts.Some? {
        for b := 0 to |experts.value|
          invariant forall c :: 0 <= c < b ==> experts.value[c] == map[]
        {
          if experts.value[b] != map[] {
            return false;
          }
        }
      }
      return true;
    }
  }

  lemma RunStep(n: nat, blocks: nat, arrivals: seq<Arrival>, i: nat)
    requires i < |arrivals| && Run(n, blocks, arrivals[..i]).Ok?
    ensures var before := Run(n, blocks, arrivals[..i]).value;
            Run(n, blocks, arrivals[..i + 1]) ==
              match Arrive(n, before.0, arrivals[i])
              case Err(e) => Err(e)
              case Ok(last) => Ok((last.0, before.1 + [last.1]))
  {
    assert arrivals[..i + 1][..i] == arrivals[..i];
  }

  lemma {:induction false} RunStaysFailed(n: nat, blocks: nat, arrivals: seq<Arrival>, k: nat)
    requires k <= |arrivals| && Run(n, blocks, arrivals[..k]).Err?
    ensures Run(n, blocks, arrivals) == Run(n, blocks, arrivals[..k])
    decreases |arrivals|
  {
    if k < |arrivals| {
      var most := arrivals[..|arrivals| - 1];
      assert most[..k] == arrivals[..k];
      RunStaysFailed(n, blocks, most, k);
    } else {
      assert arrivals[..k] == arrivals;
    }
  }

  lemma GatherStep(m: Block, bid: nat, n: nat, ws: seq<string>, i: nat)
    requires i < |ws|
    ensures Gather(m, bid, n, ws[i..]) ==
              match Stacked(m, ExpertNames(bid, ws[i]), n)
              case Err(e) => Err(e)
              case Ok(s) => After([Output(MergedName(bid, ws[i]), s.1)], Gather(s.0, bid, n, ws[i + 1..]))
  {
    assert ws[i..][0] == ws[i] && ws[i..][1..] == ws[i + 1..];
  }

  lemma AfterNothing(rest: Result<(Block, seq<Output>)>)
    ensures After([], rest) == rest
  {
    if rest.Ok? {
      assert [] + rest.value.1 == rest.value.1;
    }
  }

  lemma AfterAfter(first: seq<Output>, next: Output, rest: Result<(Block, seq<Output>)>)
    ensures After(first, After([next], rest)) == After(first + [next], rest)
  {
    if rest.Ok? {
      Assoc(first, [next], rest.value.1);
    }
  }

  // ----- names determine the expert -----

  lemma {:induction false} DecimalDigits(n: nat)
    ensures forall i :: 0 <= i < |Decimal(n)| ==> '0' <= Decimal(n)[i] <= '9'
  {
    if n >= 10 {
      DecimalDigits(n / 10);
    }
  }

  lemma {:induction false} DecimalInjective(m: nat, n: nat)
    requires Decimal(m) == Decimal(n)
    ensures m == n
  {
    var s := Decimal(m);
    assert s[|s| - 1] == Digit(m % 10) == Digit(n % 10);
    if m >= 10 && n >= 10 {
      assert Decimal(m / 10) == s[..|s| - 1] == Decimal(n / 10);
      DecimalInjective(m / 10, n / 10);
    }
  }

  function UntilDot(s: string): nat {
    if s == "" || s[0] == '.' then 0 else 1 + UntilDot(s[1..])
  }

  lemma {:induction false} UntilDotIs(d: string, r: string)
    requires forall i :: 0 <= i < |d| ==> d[i] != '.'
    ensures UntilDot(d + "." + r) == |d|
  {
    if d != "" {
      assert (d + "." + r)[0] == d[0] && (d + "." + r)[1..] == d[1..] + "." + r;
      UntilDotIs(d[1..], r);
    }
  }

  /** Digits end where the first dot stands. */
  lemma DigitsBeforeDot(d: string, r: string, e: string, q: string)
    requires d + "." + r == e + "." + q
    requires (forall i :: 0 <= i < |d| ==> d[i] != '.') && (forall i :: 0 <= i < |e| ==> e[i] != '.')
    ensures d == e && r == q
  {
    var s := d + "." + r;
    UntilDotIs(d, r);
    UntilDotIs(e, q);
    assert d == s[..|d|] && e == s[..|e|] && r == s[|d| + 1..] && q == s[|e| + 1..];
  }

  lemma NameDeterminesExpert(bid: nat, x: nat, w: string, y: nat, v: string)
    requires ExpertName(bid, x, w) == ExpertName(bid, y, v)
    ensures x == y && w == v
  {
    var front := "model.layers." + Decimal(bid) + ".mlp.experts.";
    var r, q := w + ".weight", v + ".weight";
    assert ExpertName(bid, x, w) == front + (Decimal(x) + "." + r);
    assert ExpertName(bid, y, v) == front + (Decimal(y) + "." + q);
    assert Decimal(x) + "." + r == ExpertName(bid, x, w)[|front|..];
    assert Decimal(y) + "." + q == ExpertName(bid, y, v)[|front|..];
    DecimalDigits(x);
    DecimalDigits(y);
    DigitsBeforeDot(Decimal(x), r, Decimal(y), q);
    DecimalInjective(x, y);
    assert w == r[..|r| - 7] && v == q[..|q| - 7];
  }

  lemma NamesAreInjective(bid: nat, w: string)
    ensures forall x: nat, y: nat :: ExpertNames(bid, w)(x) == ExpertNames(bid, w)(y) ==> x == y
  {
    forall x: nat, y: nat | ExpertNames(bid, w)(x) == ExpertNames(bid, w)(y) ensures x == y {
      NameDeterminesExpert(bid, x, w, y, w);
    }
  }

  // ----- gathering a whole block -----

  /** The names of all tensors of the experts of a block, for some weights. */
  function NamesFor(n: nat, bid: nat, ws: seq<string>): set<string> {
    if ws == [] then {} else FirstNames(ExpertNames(bid, ws[0]), n) + NamesFor(n, bid, ws[1..])
  }

  function StackOf(m: Block, bid: nat, w: string, n: nat): Option<Tensor> {
    Stack(Datas(m, ExpertNames(bid, w), n))
  }

  predicate AllStackFor(n: nat, bid: nat, m: Block, ws: seq<string>) {
    ws == [] || (StackOf(m, bid, ws[0], n).Some? && AllStackFor(n, bid, m, ws[1..]))
  }

  /** One stack for each weight, each in expert order. */
  function StacksFor(n: nat, bid: nat, m: Block, ws: seq<string>): (r: seq<Output>)
    requires AllStackFor(n, bid, m, ws)
    ensures |r| == |ws|
    ensures forall i :: 0 <= i < |ws| ==>
              StackOf(m, bid, ws[i], n).Some? && r[i] == Output(MergedName(bid, ws[i]), StackOf(m, bid, ws[i], n).value)
  {
    if ws == [] then []
    else [Output(MergedName(bid, ws[0]), StackOf(m, bid, ws[0], n).value)] + StacksFor(n, bid, m, ws[1..])
  }

  /** The names of all tensors of the experts of a block. */
  function Names(n: nat, bid: nat): set<string> {
    NamesFor(n, bid, WEIGHTS)
  }

  /** For each weight the tensors of all experts can be stacked: there are some, of one shape. */
  predicate AllStack(n: nat, bid: nat, m: Block) {
    AllStackFor(n, bid, m, WEIGHTS)
  }

  /** The three stacks of a block. */
  function Stacks(n: nat, bid: nat, m: Block): seq<Output>
    requires AllStack(n, bid, m)
  {
    StacksFor(n, bid, m, WEIGHTS)
  }

  predicate Injective(names: nat -> string, n: nat) {
    forall x: nat, y: nat :: x < n && y < n && names(x) == names(y) ==> x == y
  }

  lemma NextNameIsNew(names: nat -> string, k: nat)
    requires Injective(names, k + 1)
    ensures names(k) !in FirstNames(names, k)
  {
  }

  lemma OneMoreName(names: set<string>, name: string)
    requires name !in names
    ensures |names + {name}| == |names| + 1
  {
  }

  lemma {:induction false} CountFirstNames(names: nat -> string, n: nat)
    requires Injective(names, n)
    ensures |FirstNames(names, n)| == n
  {
    if n > 0 {
      var k := n - 1;
      CountFirstNames(names, k);
      NextNameIsNew(names, k);
      OneMoreName(FirstNames(names, k), names(k));
    }
  }

  lemma OtherWeightOtherNames(bid: nat, w: string, v: string, n: nat)
    requires w != v
    ensures FirstNames(ExpertNames(bid, w), n) !! FirstNames(ExpertNames(bid, v), n)
  {
    forall x: nat, y: nat ensures ExpertName(bid, x, w) != ExpertName(bid, y, v) {
      if ExpertName(bid, x, w) == ExpertName(bid, y, v) {
        NameDeterminesExpert(bid, x, w, y, v);
      }
    }
  }

  predicate AllDiffer(ws: seq<string>) {
    forall i, j :: 0 <= i < j < |ws| ==> ws[i] != ws[j]
  }

  lemma WeightsDiffer()
    ensures |WEIGHTS| == 3 && AllDiffer(WEIGHTS)
  {
    assert WEIGHTS[0][0] == 'd' && WEIGHTS[1][0] == 'g' && WEIGHTS[2][0] == 'u';
  }

  lemma {:induction false} LaterNames(n: nat, bid: nat, w: string, ws: seq<string>)
    requires w !in ws
    ensures FirstNames(ExpertNames(bid, w), n) !! NamesFor(n, bid, ws)
  {
    if ws != [] {
      OtherWeightOtherNames(bid, w, ws[0], n);
      LaterNames(n, bid, w, ws[1..]);
    }
  }

  lemma CountBoth(a: set<string>, b: set<string>)
    requires a !! b
    ensures |a + b| == |a| + |b|
  {
  }

  lemma {:induction false} CountNamesFor(n: nat, bid: nat, ws: seq<string>)
    requires AllDiffer(ws)
    ensures |NamesFor(n, bid, ws)| == Times(|ws|, n)
    decreases |ws|
  {
    if ws != [] {
      var w, rest := ws[0], ws[1..];
      CountWeight(n, bid, w);
      LaterNames(n, bid, w, rest);
      CountNamesFor(n, bid, rest);
      CountBoth(FirstNames(ExpertNames(bid, w), n), NamesFor(n, bid, rest));
    }
  }

  lemma CountWeight(n: nat, bid: nat, w: string)
    ensures |FirstNames(ExpertNames(bid, w), n)| == n
  {
    NamesAreInjective(bid, w);
    CountFirstNames(ExpertNames(bid, w), n);
  }

  lemma CountNames(n: nat, bid: nat)
    ensures |Names(n, bid)| == 3 * n
  {
    WeightsDiffer();
    CountNamesFor(n, bid, WEIGHTS);
    TimesIs(3, n);
  }

  lemma HasAllIs(m: Block, names: nat -> string, n: nat)
    ensures HasAll(m, names, n) <==> FirstNames(names, n) <= m.Keys
  {
    if FirstNames(names, n) <= m.Keys {
      forall x: nat | x < n ensures names(x) in m {
        assert names(x) in FirstNames(names, n);
      }
    }
  }

  /** Data under names that both blocks agree on. */
  lemma {:induction false} SameDatas(m: Block, k: Block, names: nat -> string, n: nat)
    requires forall name :: name in FirstNames(names, n) ==> DataOf(m, name) == DataOf(k, name)
    ensures Datas(m, names, n) == Datas(k, names, n)
  {
    if n > 0 {
      SameDatas(m, k, names, n - 1);
    }
  }

  lemma WithoutOthers(m: Block, gone: set<string>, names: nat -> string, n: nat)
    requires FirstNames(names, n) !! gone
    ensures var s := Stacked(m - gone, names, n);
            && (s.Ok? <==> FirstNames(names, n) <= m.Keys && Stack(Datas(m, names, n)).Some?)
            && (s.Ok? ==> s.value == (m - (gone + FirstNames(names, n)), Stack(Datas(m, names, n)).value))
  {
    HasAllIs(m - gone, names, n);
    SameDatas(m, m - gone, names, n);
    assert m - gone - FirstNames(names, n) == m - (gone + FirstNames(names, n));
  }

  lemma {:induction false} GatherIsFor(m: Block, gone: set<string>, bid: nat, n: nat, ws: seq<string>)
    requires AllDiffer(ws) && NamesFor(n, bid, ws) !! gone
    ensures var g := Gather(m - gone, bid, n, ws);
            && (g.Ok? <==> NamesFor(n, bid, ws) <= m.Keys && AllStackFor(n, bid, m, ws))
            && (g.Ok? ==> g == Ok((m - (gone + NamesFor(n, bid, ws)), StacksFor(n, bid, m, ws))))
    decreases |ws|
  {
    if ws == [] {
      assert gone + {} == gone;
    } else {
      var first := FirstNames(ExpertNames(bid, ws[0]), n);
      WithoutOthers(m, gone, ExpertNames(bid, ws[0]), n);
      LaterNames(n, bid, ws[0], ws[1..]);
      GatherIsFor(m, gone + first, bid, n, ws[1..]);
      assert gone + first + NamesFor(n, bid, ws[1..]) == gone + NamesFor(n, bid, ws);
    }
  }

  /** Gathering succeeds exactly when all tensors of the block are there and stack; it leaves the others. */
  lemma GatherIs(m: Block, bid: nat, n: nat)
    ensures Gather(m, bid, n, WEIGHTS).Ok? <==> Names(n, bid) <= m.Keys && AllStack(n, bid, m)
    ensures Gather(m, bid, n, WEIGHTS).Ok? ==> Gather(m, bid, n, WEIGHTS) == Ok((m - Names(n, bid), Stacks(n, bid, m)))
  {
    WeightsDiffer();
    assert m - {} == m && {} + Names(n, bid) == Names(n, bid);
    GatherIsFor(m, {}, bid, n, WEIGHTS);
  }

  // ----- whole runs -----

  /** What has arrived for a block. */
  function TableOf(arrivals: seq<Arrival>, b: nat): Block {
    if arrivals == [] then map[]
    else
      var k := |arrivals| - 1;
      var before := TableOf(arrivals[..k], b);
      if Joins(arrivals[k], b) then before[arrivals[k].name := arrivals[k].data] else before
  }

  /** The tensor of an expert of block b. */
  predicate Joins(a: Arrival, b: nat) {
    IsExpert(a.name) && a.bid == Some(b)
  }

  /** The tensors of a model have different names. */
  predicate Distinct(arrivals: seq<Arrival>) {
    forall i, j :: 0 <= i < j < |arrivals| ==> arrivals[i].name != arrivals[j].name
  }

  lemma {:induction false} InTable(arrivals: seq<Arrival>, b: nat, name: string) returns (i: nat)
    requires name in TableOf(arrivals, b)
    ensures i < |arrivals| && Joins(arrivals[i], b) && arrivals[i].name == name
    ensures TableOf(arrivals, b)[name] == arrivals[i].data
  {
    var k := |arrivals| - 1;
    if Joins(arrivals[k], b) && arrivals[k].name == name {
      i := k;
    } else {
      i := InTable(arrivals[..k], b, name);
    }
  }

  lemma {:induction false} TableHas(arrivals: seq<Arrival>, b: nat, i: nat)
    requires Distinct(arrivals) && i < |arrivals| && Joins(arrivals[i], b)
    ensures arrivals[i].name in TableOf(arrivals, b) && TableOf(arrivals, b)[arrivals[i].name] == arrivals[i].data
  {
    var k := |arrivals| - 1;
    if i < k {
      TableHas(arrivals[..k], b, i);
    }
  }

  lemma {:induction false} NotInTable(arrivals: seq<Arrival>, b: nat, name: string)
    requires forall i :: 0 <= i < |arrivals| ==> arrivals[i].name != name
    ensures name !in TableOf(arrivals, b)
  {
    if arrivals != [] {
      NotInTable(arrivals[..|arrivals| - 1], b, name);
    }
  }

  lemma NewName(arrivals: seq<Arrival>, b: nat)
    requires Distinct(arrivals) && arrivals != []
    ensures arrivals[|arrivals| - 1].name !in TableOf(arrivals[..|arrivals| - 1], b)
  {
    NotInTable(arrivals[..|arrivals| - 1], b, arrivals[|arrivals| - 1].name);
  }

  predicate Complete(n: nat, arrivals: seq<Arrival>, b: nat) {
    Names(n, b) <= TableOf(arrivals, b).Keys
  }

  // what any run that meets no error keeps

  /** The block still holds all that arrived for it, too few to gather; or it was gathered once and holds the rest. */
  predicate Accounted(n: nat, b: nat, table: Block, kept: Block) {
    || (kept == table && |table| < 3 * n)
    || (Names(n, b) <= table.Keys && AllStack(n, b, table) && kept == table - Names(n, b))
  }

  lemma {:induction false} SameAllStack(n: nat, b: nat, m: Block, k: Block, ws: seq<string>)
    requires forall name :: name in NamesFor(n, b, ws) ==> DataOf(m, name) == DataOf(k, name)
    ensures AllStackFor(n, b, m, ws) == AllStackFor(n, b, k, ws)
    ensures AllStackFor(n, b, m, ws) ==> StacksFor(n, b, m, ws) == StacksFor(n, b, k, ws)
  {
    if ws != [] {
      SameDatas(m, k, ExpertNames(b, ws[0]), n);
      SameAllStack(n, b, m, k, ws[1..]);
    }
  }

  lemma AddedBesideNames(names: set<string>, some: string, table: Block, kept: Block, name: string, data: Tensor)
    requires some in names && names <= table.Keys && kept == table - names && name !in table
    ensures var m: Block := kept[name := data];
            var after: Block := table[name := data];
            && some !in m && m == after - names && names <= after.Keys
            && forall x :: x in names ==> DataOf(table, x) == DataOf(after, x)
  {
  }

  /** What one more tensor does to its block. */
  function Settled(n: nat, b: nat, m: Block): Result<Block> {
    if |m| < n * 3 then Ok(m)
    else
      var gathered :- Gather(m, b, n, WEIGHTS);
      Ok(gathered.0)
  }

  lemma SettledIs(n: nat, b: nat, m: Block)
    ensures Settled(n, b, m).Ok? ==>
              || (|m| < 3 * n && Settled(n, b, m).value == m)
              || (Names(n, b) <= m.Keys && AllStack(n, b, m) && Settled(n, b, m).value == m - Names(n, b))
    ensures Names(n, b) <= m.Keys && AllStack(n, b, m) && |m| >= 3 * n ==> Settled(n, b, m) == Ok(m - Names(n, b))
  {
    GatherIs(m, b, n);
  }

  lemma SomeName(n: nat, b: nat) returns (name: string)
    requires n > 0
    ensures name in Names(n, b)
  {
    CountNames(n, b);
    name :| name in Names(n, b);
  }

  lemma AccountedStep(n: nat, b: nat, table: Block, kept: Block, name: string, data: Tensor)
    requires n > 0 && name !in table && Accounted(n, b, table, kept)
    ensures Settled(n, b, kept[name := data]).Ok? ==>
              Accounted(n, b, table[name := data], Settled(n, b, kept[name := data]).value)
  {
    SettledIs(n, b, kept[name := data]);
    if !(kept == table && |table| < 3 * n) {
      var some := SomeName(n, b);
      AddedBesideNames(Names(n, b), some, table, kept, name, data);
      SameAllStack(n, b, table, table[name := data], WEIGHTS);
    }
  }

  lemma ArriveSettles(n: nat, experts: seq<Block>, a: Arrival)
    requires IsExpert(a.name) && a.bid.Some? && a.bid.value < |experts|
    ensures var b := a.bid.value;
            var m: Block := experts[b][a.name := a.data];
            var r := Arrive(n, experts, a);
            && (r.Ok? <==> Settled(n, b, m).Ok?)
            && (r.Ok? ==> r.value.0 == experts[b := Settled(n, b, m).value])
  {
  }

  predicate AllAccounted(n: nat, blocks: nat, arrivals: seq<Arrival>, kept: seq<Block>) {
    |kept| == blocks && forall b: nat :: b < blocks ==> Accounted(n, b, TableOf(arrivals, b), kept[b])
  }

  lemma {:induction false} LastAccounts(n: nat, blocks: nat, arrivals: seq<Arrival>, before: seq<Block>)
    requires n > 0 && Distinct(arrivals) && arrivals != [] && AllAccounted(n, blocks, arrivals[..|arrivals| - 1], before)
    requires Arrive(n, before, arrivals[|arrivals| - 1]).Ok?
    ensures AllAccounted(n, blocks, arrivals, Arrive(n, before, arrivals[|arrivals| - 1]).value.0)
  {
    var k := |arrivals| - 1;
    var a, most := arrivals[k], arrivals[..k];
    if IsExpert(a.name) {
      var b := a.bid.value;
      NewName(arrivals, b);
      AccountedStep(n, b, TableOf(most, b), before[b], a.name, a.data);
      ArriveSettles(n, before, a);
    }
  }

  lemma RunLast(n: nat, blocks: nat, arrivals: seq<Arrival>) returns (before: seq<Block>)
    requires arrivals != [] && Run(n, blocks, arrivals).Ok?
    ensures var r, k := Run(n, blocks, arrivals[..|arrivals| - 1]), |arrivals| - 1;
            && r.Ok? && r.value.0 == before && Arrive(n, before, arrivals[k]).Ok?
            && Run(n, blocks, arrivals).value.0 == Arrive(n, before, arrivals[k]).value.0
  {
    before := Run(n, blocks, arrivals[..|arrivals| - 1]).value.0;
  }

  /** Any run without an error on different names accounts for every expert tensor. */
  lemma {:induction false} RunAccounts(n: nat, blocks: nat, arrivals: seq<Arrival>)
    requires n > 0 && Distinct(arrivals) && Run(n, blocks, arrivals).Ok?
    ensures AllAccounted(n, blocks, arrivals, Run(n, blocks, arrivals).value.0)
  {
    if arrivals != [] {
      var before := RunLast(n, blocks, arrivals);
      RunAccounts(n, blocks, arrivals[..|arrivals| - 1]);
      LastAccounts(n, blocks, arrivals, before);
    }
  }

  lemma {:induction false} RunBlocksExist(n: nat, blocks: nat, arrivals: seq<Arrival>)
    requires Run(n, blocks, arrivals).Ok?
    ensures |Run(n, blocks, arrivals).value.0| == blocks && BlocksExist(blocks, arrivals)
  {
    if arrivals != [] {
      var before := RunLast(n, blocks, arrivals);
      RunBlocksExist(n, blocks, arrivals[..|arrivals| - 1]);
    }
  }

  predicate BlocksExist(blocks: nat, arrivals: seq<Arrival>) {
    forall i :: 0 <= i < |arrivals| && IsExpert(arrivals[i].name) ==> arrivals[i].bid.Some? && arrivals[i].bid.value < blocks
  }

  // runs of well-named tensors

  predicate WellNamed(n: nat, blocks: nat, a: Arrival) {
    IsExpert(a.name) ==> a.bid.Some? && a.bid.value < blocks && a.name in Names(n, a.bid.value)
  }

  predicate AllWellNamed(n: nat, blocks: nat, arrivals: seq<Arrival>) {
    forall i :: 0 <= i < |arrivals| ==> WellNamed(n, blocks, arrivals[i])
  }

  lemma TableNames(n: nat, blocks: nat, arrivals: seq<Arrival>, b: nat)
    requires AllWellNamed(n, blocks, arrivals)
    ensures TableOf(arrivals, b).Keys <= Names(n, b)
  {
    forall name | name in TableOf(arrivals, b) ensures name in Names(n, b) {
      var i := InTable(arrivals, b, name);
      assert WellNamed(n, blocks, arrivals[i]);
    }
  }

  /** A block is complete exactly when three tensors for each expert have arrived. */
  lemma CompleteByCount(n: nat, blocks: nat, arrivals: seq<Arrival>, b: nat)
    requires AllWellNamed(n, blocks, arrivals)
    ensures |TableOf(arrivals, b)| <= 3 * n
    ensures Complete(n, arrivals, b) <==> TableOf(arrivals, b).Keys == Names(n, b)
    ensures Complete(n, arrivals, b) <==> |TableOf(arrivals, b)| >= 3 * n
  {
    TableNames(n, blocks, arrivals, b);
    CountNames(n, b);
    FullByCount(TableOf(arrivals, b), Names(n, b), 3 * n);
  }

  lemma FullByCount(m: Block, names: set<string>, size: nat)
    requires m.Keys <= names && |names| == size
    ensures |m| <= size
    ensures names <= m.Keys <==> m.Keys == names
    ensures names <= m.Keys <==> |m| >= size
  {
    assert |m.Keys| == |m|;
    SubsetIsSmaller(m.Keys, names);
    if |m| >= size {
      SubsetOfSameSize(m.Keys, names);
    }
  }

  lemma SubsetIsSmaller<T>(a: set<T>, b: set<T>)
    requires a <= b
    ensures |a| <= |b|
  {
    assert b == a + (b - a);
  }

  /** Nothing is added to a complete block. */
  lemma CompleteStays(n: nat, blocks: nat, arrivals: seq<Arrival>, b: nat)
    requires Distinct(arrivals) && AllWellNamed(n, blocks, arrivals) && arrivals != []
    requires Complete(n, arrivals[..|arrivals| - 1], b)
    ensures TableOf(arrivals, b) == TableOf(arrivals[..|arrivals| - 1], b)
  {
    NewName(arrivals, b);
    assert WellNamed(n, blocks, arrivals[|arrivals| - 1]);
  }

  lemma {:induction false} CompleteStaysLong(n: nat, blocks: nat, arrivals: seq<Arrival>, b: nat, k: nat)
    requires Distinct(arrivals) && AllWellNamed(n, blocks, arrivals) && k <= |arrivals| && Complete(n, arrivals[..k], b)
    ensures TableOf(arrivals, b) == TableOf(arrivals[..k], b)
    decreases |arrivals|
  {
    if k < |arrivals| {
      var most := arrivals[..|arrivals| - 1];
      assert most[..k] == arrivals[..k];
      CompleteStaysLong(n, blocks, most, b, k);
      CompleteStays(n, blocks, arrivals, b);
    } else {
      assert arrivals[..k] == arrivals;
    }
  }

  /** Arrival i is the one that completes its block. */
  predicate Completes(n: nat, arrivals: seq<Arrival>, i: nat, b: nat)
    requires i < |arrivals|
  {
    Complete(n, arrivals[..i + 1], b) && !Complete(n, arrivals[..i], b)
  }

  predicate CompleteBlocksStack(n: nat, blocks: nat, arrivals: seq<Arrival>) {
    forall b: nat :: b < blocks && Complete(n, arrivals, b) ==> AllStack(n, b, TableOf(arrivals, b))
  }

  /** What arrival i makes the converter write. */
  predicate WritesAsExpected(n: nat, arrivals: seq<Arrival>, i: nat, written: seq<Output>)
    requires i < |arrivals|
  {
    var a := arrivals[i];
    if !IsExpert(a.name) then written == [Output(a.name, a.data)]
    else if a.bid.None? then false
    else
      var b, table := a.bid.value, TableOf(arrivals, a.bid.value);
      if Completes(n, arrivals, i, b) then AllStack(n, b, table) && written == Stacks(n, b, table) else written == []
  }

  ghost predicate RunsAsExpected(n: nat, blocks: nat, arrivals: seq<Arrival>) {
    && Run(n, blocks, arrivals).Ok?
    && var (kept, written) := Run(n, blocks, arrivals).value;
       && |kept| == blocks && |written| == |arrivals|
       && (forall b: nat :: b < blocks ==> kept[b] == Kept(n, arrivals, b))
       && (forall i: nat :: i < |arrivals| ==> WritesAsExpected(n, arrivals, i, written[i]))
  }

  lemma EarlierAsExpected(n: nat, blocks: nat, arrivals: seq<Arrival>, i: nat, written: seq<Output>)
    requires Distinct(arrivals) && AllWellNamed(n, blocks, arrivals) && i + 1 < |arrivals|
    requires WritesAsExpected(n, arrivals[..|arrivals| - 1], i, written)
    ensures WritesAsExpected(n, arrivals, i, written)
  {
    var most := arrivals[..|arrivals| - 1];
    assert most[..i + 1] == arrivals[..i + 1] && most[..i] == arrivals[..i] && most[i] == arrivals[i];
    if IsExpert(most[i].name) && most[i].bid.Some? && Completes(n, most, i, most[i].bid.value) {
      var b := most[i].bid.value;
      assert AllWellNamed(n, blocks, most) && Distinct(most);
      CompleteStaysLong(n, blocks, most, b, i + 1);
      CompleteStays(n, blocks, arrivals, b);
    }
  }

  lemma StillStack(n: nat, blocks: nat, arrivals: seq<Arrival>)
    requires Distinct(arrivals) && AllWellNamed(n, blocks, arrivals) && CompleteBlocksStack(n, blocks, arrivals)
    requires arrivals != []
    ensures CompleteBlocksStack(n, blocks, arrivals[..|arrivals| - 1])
  {
    var most := arrivals[..|arrivals| - 1];
    forall b: nat | b < blocks && Complete(n, most, b) ensures AllStack(n, b, TableOf(most, b)) {
      CompleteStays(n, blocks, arrivals, b);
      assert Complete(n, arrivals, b);
    }
  }

  lemma ArriveWrites(n: nat, experts: seq<Block>, a: Arrival, m: Block)
    requires IsExpert(a.name) && a.bid.Some? && a.bid.value < |experts| && m == experts[a.bid.value][a.name := a.data]
    ensures |m| < 3 * n ==> Arrive(n, experts, a) == Ok((experts[a.bid.value := m], []))
    ensures |m| >= 3 * n && m.Keys == Names(n, a.bid.value) && AllStack(n, a.bid.value, m) ==>
              Arrive(n, experts, a) == Ok((experts[a.bid.value := map[]], Stacks(n, a.bid.value, m)))
  {
    GatherIs(m, a.bid.value, n);
    if m.Keys == Names(n, a.bid.value) {
      assert m - Names(n, a.bid.value) == map[];
    }
  }

  /** What is kept of a block of well-named tensors. */
  function Kept(n: nat, arrivals: seq<Arrival>, b: nat): Block {
    if Complete(n, arrivals, b) then map[] else TableOf(arrivals, b)
  }

  /** One more expert tensor: the block completes and is written, or waits. */
  lemma LastExpert(n: nat, blocks: nat, arrivals: seq<Arrival>, kept: seq<Block>, b: nat)
    requires n > 0 && Distinct(arrivals) && AllWellNamed(n, blocks, arrivals) && CompleteBlocksStack(n, blocks, arrivals)
    requires arrivals != [] && |kept| == blocks && Joins(arrivals[|arrivals| - 1], b) && b < blocks
    requires kept[b] == Kept(n, arrivals[..|arrivals| - 1], b)
    ensures var r := Arrive(n, kept, arrivals[|arrivals| - 1]);
            && r.Ok? && r.value.0 == kept[b := Kept(n, arrivals, b)]
            && WritesAsExpected(n, arrivals, |arrivals| - 1, r.value.1)
  {
    var k := |arrivals| - 1;
    assert arrivals[..k + 1] == arrivals && WellNamed(n, blocks, arrivals[k]);
    NewName(arrivals, b);
    CompleteByCount(n, blocks, arrivals, b);
    ArriveWrites(n, kept, arrivals[k], TableOf(arrivals, b));
  }

  lemma {:induction false} LastArrival(n: nat, blocks: nat, arrivals: seq<Arrival>, kept: seq<Block>)
    requires n > 0 && Distinct(arrivals) && AllWellNamed(n, blocks, arrivals) && CompleteBlocksStack(n, blocks, arrivals)
    requires arrivals != [] && |kept| == blocks
    requires forall b: nat :: b < blocks ==> kept[b] == Kept(n, arrivals[..|arrivals| - 1], b)
    ensures var r := Arrive(n, kept, arrivals[|arrivals| - 1]);
            && r.Ok? && |r.value.0| == blocks && WritesAsExpected(n, arrivals, |arrivals| - 1, r.value.1)
            && forall b: nat :: b < blocks ==> r.value.0[b] == Kept(n, arrivals, b)
  {
    var a := arrivals[|arrivals| - 1];
    assert WellNamed(n, blocks, a);
    if IsExpert(a.name) {
      LastExpert(n, blocks, arrivals, kept, a.bid.value);
    }
  }

  /**
   * However the tensors of the blocks are interleaved: the arrival that completes a block writes its three stacks in
   * expert order, the other expert tensors write nothing, every other tensor is passed on, and the blocks hold exactly
   * what has arrived for the blocks not yet complete.
   */
  lemma {:induction false} RunIsGathering(n: nat, blocks: nat, arrivals: seq<Arrival>)
    requires n > 0 && Distinct(arrivals) && AllWellNamed(n, blocks, arrivals) && CompleteBlocksStack(n, blocks, arrivals)
    ensures RunsAsExpected(n, blocks, arrivals)
  {
    if arrivals == [] {
      CountNamesOfAll(n, blocks);
    } else {
      var k := |arrivals| - 1;
      var most := arrivals[..k];
      StillStack(n, blocks, arrivals);
      RunIsGathering(n, blocks, most);
      var (kept, written) := Run(n, blocks, most).value;
      LastArrival(n, blocks, arrivals, kept);
      forall i: nat | i < k ensures WritesAsExpected(n, arrivals, i, written[i]) {
        EarlierAsExpected(n, blocks, arrivals, i, written[i]);
      }
    }
  }

  lemma CountNamesOfAll(n: nat, blocks: nat)
    requires n > 0
    ensures forall b: nat :: b < blocks ==> !Complete(n, [], b)
  {
    forall b: nat | b < blocks ensures !Complete(n, [], b) {
      CountNames(n, b);
      assert TableOf([], b).Keys == {};
    }
  }

  /** The block got no expert tensors, or all of its own and no others, and they stack. */
  predicate NoneOrAll(n: nat, arrivals: seq<Arrival>, b: nat) {
    || TableOf(arrivals, b) == map[]
    || (TableOf(arrivals, b).Keys == Names(n, b) && AllStack(n, b, TableOf(arrivals, b)))
  }

  lemma NoneOrAllIsWellNamed(n: nat, blocks: nat, arrivals: seq<Arrival>)
    requires Distinct(arrivals) && BlocksExist(blocks, arrivals)
    requires forall b: nat :: b < blocks ==> NoneOrAll(n, arrivals, b)
    ensures AllWellNamed(n, blocks, arrivals) && (n > 0 ==> CompleteBlocksStack(n, blocks, arrivals))
  {
    forall i | 0 <= i < |arrivals| ensures WellNamed(n, blocks, arrivals[i]) {
      if IsExpert(arrivals[i].name) {
        TableHas(arrivals, arrivals[i].bid.value, i);
        assert NoneOrAll(n, arrivals, arrivals[i].bid.value);
      }
    }
    if n > 0 {
      forall b: nat | b < blocks && Complete(n, arrivals, b) ensures AllStack(n, b, TableOf(arrivals, b)) {
        CountNames(n, b);
        assert NoneOrAll(n, arrivals, b);
      }
    }
  }

  /**
   * prepare_tensors ends without an error exactly when every expert tensor belongs to a block of the model and every
   * block got none, or exactly its experts' tensors in shapes that stack.
   */
  lemma ConvertsExactlyWhen(n: nat, blocks: nat, arrivals: seq<Arrival>)
    requires n > 0 && Distinct(arrivals)
    ensures Convert(n, blocks, arrivals).Ok?
            <==> BlocksExist(blocks, arrivals) && forall b: nat :: b < blocks ==> NoneOrAll(n, arrivals, b)
  {
    if Convert(n, blocks, arrivals).Ok? {
      RunAccounts(n, blocks, arrivals);
      RunBlocksExist(n, blocks, arrivals);
      var kept := Run(n, blocks, arrivals).value.0;
      forall b: nat | b < blocks ensures NoneOrAll(n, arrivals, b) {
        assert Accounted(n, b, TableOf(arrivals, b), kept[b]) && kept[b] == map[];
        NothingBeside(TableOf(arrivals, b), Names(n, b));
      }
    }
    if BlocksExist(blocks, arrivals) && forall b: nat :: b < blocks ==> NoneOrAll(n, arrivals, b) {
      NoneOrAllIsWellNamed(n, blocks, arrivals);
      RunIsGathering(n, blocks, arrivals);
      forall b: nat | b < blocks ensures Run(n, blocks, arrivals).value.0[b] == map[] {
        assert NoneOrAll(n, arrivals, b);
      }
    }
  }

  lemma NothingBeside(m: Block, names: set<string>)
    ensures m - names == map[] ==> m.Keys <= names
  {
    if m - names == map[] {
      forall name | name in m ensures name in names {
        assert name !in m - names;
      }
    }
  }

  lemma {:induction false} CompleteLater(n: nat, arrivals: seq<Arrival>, b: nat, k: nat)
    requires k <= |arrivals| && Complete(n, arrivals[..k], b)
    ensures Complete(n, arrivals, b)
    decreases |arrivals|
  {
    if k < |arrivals| {
      var most := arrivals[..|arrivals| - 1];
      assert most[..k] == arrivals[..k];
      CompleteLater(n, most, b, k);
    } else {
      assert arrivals[..k] == arrivals;
    }
  }

  lemma CompleteInBetween(n: nat, arrivals: seq<Arrival>, b: nat, k: nat, m: nat)
    requires k <= m <= |arrivals| && Complete(n, arrivals[..k], b)
    ensures Complete(n, arrivals[..m], b)
  {
    assert arrivals[..m][..k] == arrivals[..k];
    CompleteLater(n, arrivals[..m], b, k);
  }

  lemma CompleteIsNotEmpty(n: nat, arrivals: seq<Arrival>, b: nat)
    requires n > 0 && Complete(n, arrivals, b)
    ensures arrivals != []
  {
    CountNames(n, b);
    SubsetIsSmaller(Names(n, b), TableOf(arrivals, b).Keys);
  }

  lemma {:induction false} SomeCompletes(n: nat, arrivals: seq<Arrival>, b: nat) returns (i: nat)
    requires n > 0 && Complete(n, arrivals, b)
    ensures i < |arrivals| && Joins(arrivals[i], b) && Completes(n, arrivals, i, b)
  {
    CompleteIsNotEmpty(n, arrivals, b);
    var k := |arrivals| - 1;
    var most := arrivals[..k];
    assert arrivals[..k + 1] == arrivals;
    if Complete(n, most, b) {
      i := SomeCompletes(n, most, b);
      assert most[..i + 1] == arrivals[..i + 1] && most[..i] == arrivals[..i];
    } else {
      i := k;
    }
  }

  /** A complete block is completed by one arrival, so its stacks are written once. */
  lemma WrittenOnce(n: nat, arrivals: seq<Arrival>, b: nat) returns (i: nat)
    requires n > 0 && Complete(n, arrivals, b)
    ensures i < |arrivals| && Joins(arrivals[i], b) && Completes(n, arrivals, i, b)
    ensures forall j: nat :: j < |arrivals| && Completes(n, arrivals, j, b) ==> j == i
  {
    i := SomeCompletes(n, arrivals, b);
    forall j: nat | j < |arrivals| && Completes(n, arrivals, j, b) ensures j == i {
      if j < i {
        CompleteInBetween(n, arrivals, b, j + 1, i);
      } else if i < j {
        CompleteInBetween(n, arrivals, b, i + 1, j);
      }
    }
  }

  /** The same tensors in another order. */
  predicate Reordered(arrivals: seq<Arrival>, others: seq<Arrival>) {
    Distinct(arrivals) && Distinct(others) && (forall a :: a in arrivals ==> a in others) && (forall a :: a in others ==> a in arrivals)
  }

  lemma TableInOtherOrder(arrivals: seq<Arrival>, others: seq<Arrival>, b: nat, name: string)
    requires Reordered(arrivals, others) && name in TableOf(arrivals, b)
    ensures name in TableOf(others, b) && TableOf(others, b)[name] == TableOf(arrivals, b)[name]
  {
    var i := InTable(arrivals, b, name);
    assert arrivals[i] in others;
    var j :| 0 <= j < |others| && others[j] == arrivals[i];
    TableHas(others, b, j);
  }

  lemma TablesInOtherOrder(arrivals: seq<Arrival>, others: seq<Arrival>, b: nat)
    requires Reordered(arrivals, others)
    ensures TableOf(arrivals, b) == TableOf(others, b)
  {
    forall name | name in TableOf(arrivals, b)
      ensures name in TableOf(others, b) && TableOf(others, b)[name] == TableOf(arrivals, b)[name]
    {
      TableInOtherOrder(arrivals, others, b, name);
    }
    forall name | name in TableOf(others, b) ensures name in TableOf(arrivals, b) {
      TableInOtherOrder(others, arrivals, b, name);
    }
  }

  // all that is written

  function Flatten(written: seq<seq<Output>>): seq<Output> {
    if written == [] then [] else Flatten(written[..|written| - 1]) + written[|written| - 1]
  }

  /** The tensors that are no experts, passed on. */
  function Passed(arrivals: seq<Arrival>): multiset<Output> {
    if arrivals == [] then multiset{}
    else
      var k := |arrivals| - 1;
      Passed(arrivals[..k]) + PassedOne(arrivals[k])
  }

  function PassedOne(a: Arrival): multiset<Output> {
    if IsExpert(a.name) then multiset{} else multiset{Output(a.name, a.data)}
  }

  function StacksOf(n: nat, b: nat, table: Block): multiset<Output> {
    if Names(n, b) <= table.Keys && AllStack(n, b, table) then multiset(Stacks(n, b, table)) else multiset{}
  }

  function StacksFrom(n: nat, arrivals: seq<Arrival>, b: nat): multiset<Output> {
    StacksOf(n, b, TableOf(arrivals, b))
  }

  function SumOf(parts: seq<multiset<Output>>): multiset<Output> {
    if parts == [] then multiset{} else SumOf(parts[..|parts| - 1]) + parts[|parts| - 1]
  }

  lemma {:induction false} SumGrows(p: seq<multiset<Output>>, q: seq<multiset<Output>>, c: nat, added: multiset<Output>)
    requires |p| == |q| && c < |p| && p[c] == q[c] + added && forall b :: 0 <= b < |p| && b != c ==> p[b] == q[b]
    ensures SumOf(p) == SumOf(q) + added
    decreases |p|
  {
    var k := |p| - 1;
    if c == k {
      assert p[..k] == q[..k];
    } else {
      SumGrows(p[..k], q[..k], c, added);
    }
  }

  /** The stacks of the complete ones of the blocks, block by block. */
  function StackParts(n: nat, arrivals: seq<Arrival>, blocks: nat): seq<multiset<Output>> {
    seq(blocks, b requires 0 <= b => StacksFrom(n, arrivals, b))
  }

  function AllStacks(n: nat, arrivals: seq<Arrival>, blocks: nat): multiset<Output> {
    SumOf(StackParts(n, arrivals, blocks))
  }

  lemma SameParts(n: nat, arrivals: seq<Arrival>, others: seq<Arrival>, blocks: nat)
    requires forall b: nat :: b < blocks ==> StacksFrom(n, arrivals, b) == StacksFrom(n, others, b)
    ensures AllStacks(n, arrivals, blocks) == AllStacks(n, others, blocks)
  {
    assert StackParts(n, arrivals, blocks) == StackParts(n, others, blocks);
  }

  lemma OnePartGrows(n: nat, arrivals: seq<Arrival>, others: seq<Arrival>, blocks: nat, c: nat, added: multiset<Output>)
    requires c < blocks && StacksFrom(n, arrivals, c) == StacksFrom(n, others, c) + added
    requires forall b: nat :: b < blocks && b != c ==> StacksFrom(n, arrivals, b) == StacksFrom(n, others, b)
    ensures AllStacks(n, arrivals, blocks) == AllStacks(n, others, blocks) + added
  {
    SumGrows(StackParts(n, arrivals, blocks), StackParts(n, others, blocks), c, added);
  }

  /** An arrival changes the stacks of its own block only. */
  lemma OtherBlocksStay(n: nat, arrivals: seq<Arrival>, b: nat)
    requires arrivals != [] && !Joins(arrivals[|arrivals| - 1], b)
    ensures StacksFrom(n, arrivals, b) == StacksFrom(n, arrivals[..|arrivals| - 1], b)
  {
  }

  lemma CompletedStacks(n: nat, arrivals: seq<Arrival>, b: nat)
    requires Complete(n, arrivals, b) && AllStack(n, b, TableOf(arrivals, b))
    ensures StacksFrom(n, arrivals, b) == multiset(Stacks(n, b, TableOf(arrivals, b)))
  {
  }

  lemma IncompleteStacks(n: nat, arrivals: seq<Arrival>, b: nat)
    requires !Complete(n, arrivals, b)
    ensures StacksFrom(n, arrivals, b) == multiset{}
  {
  }

  /** What the last arrival adds to the stacks: those of its block if it completes it. */
  lemma {:induction false} LastStacks(n: nat, blocks: nat, arrivals: seq<Arrival>, written: seq<Output>)
    requires n > 0 && Distinct(arrivals) && AllWellNamed(n, blocks, arrivals) && arrivals != []
    requires WritesAsExpected(n, arrivals, |arrivals| - 1, written) && IsExpert(arrivals[|arrivals| - 1].name)
    ensures AllStacks(n, arrivals, blocks) == AllStacks(n, arrivals[..|arrivals| - 1], blocks) + multiset(written)
  {
    var k := |arrivals| - 1;
    var most, a := arrivals[..k], arrivals[k];
    assert WellNamed(n, blocks, a) && arrivals[..k + 1] == arrivals;
    var c := a.bid.value;
    forall b: nat | b < blocks && b != c ensures StacksFrom(n, arrivals, b) == StacksFrom(n, most, b) {
      OtherBlocksStay(n, arrivals, b);
    }
    if Completes(n, arrivals, k, c) {
      CompletedStacks(n, arrivals, c);
      IncompleteStacks(n, most, c);
    } else {
      SameStacksOf(n, blocks, arrivals, c);
    }
    OnePartGrows(n, arrivals, most, blocks, c, multiset(written));
  }

  /** What the last arrival adds to what is written. */
  lemma {:induction false} LastAdds(n: nat, blocks: nat, arrivals: seq<Arrival>, written: seq<Output>)
    requires n > 0 && Distinct(arrivals) && AllWellNamed(n, blocks, arrivals) && arrivals != []
    requires WritesAsExpected(n, arrivals, |arrivals| - 1, written)
    ensures Passed(arrivals) + AllStacks(n, arrivals, blocks)
         == Passed(arrivals[..|arrivals| - 1]) + AllStacks(n, arrivals[..|arrivals| - 1], blocks) + multiset(written)
  {
    var most, a := arrivals[..|arrivals| - 1], arrivals[|arrivals| - 1];
    if IsExpert(a.name) {
      LastStacks(n, blocks, arrivals, written);
    } else {
      forall b: nat | b < blocks ensures StacksFrom(n, arrivals, b) == StacksFrom(n, most, b) {
        OtherBlocksStay(n, arrivals, b);
      }
      SameParts(n, arrivals, most, blocks);
    }
  }

  lemma SameStacksOf(n: nat, blocks: nat, arrivals: seq<Arrival>, b: nat)
    requires n > 0 && Distinct(arrivals) && AllWellNamed(n, blocks, arrivals) && arrivals != []
    requires Complete(n, arrivals, b) ==> Complete(n, arrivals[..|arrivals| - 1], b)
    ensures StacksFrom(n, arrivals, b) == StacksFrom(n, arrivals[..|arrivals| - 1], b)
  {
    var most := arrivals[..|arrivals| - 1];
    if Complete(n, most, b) {
      CompleteStays(n, blocks, arrivals, b);
    } else {
      IncompleteStacks(n, arrivals, b);
      IncompleteStacks(n, most, b);
    }
  }

  /** Written altogether: every other tensor as it came, and the stacks of the complete blocks. */
  lemma {:induction false} WrittenAltogether(n: nat, blocks: nat, arrivals: seq<Arrival>)
    requires n > 0 && Distinct(arrivals) && AllWellNamed(n, blocks, arrivals) && CompleteBlocksStack(n, blocks, arrivals)
    ensures Run(n, blocks, arrivals).Ok?
    ensures multiset(Flatten(Run(n, blocks, arrivals).value.1)) == Passed(arrivals) + AllStacks(n, arrivals, blocks)
  {
    RunIsGathering(n, blocks, arrivals);
    if arrivals == [] {
      NothingStacked(n, blocks);
    } else {
      var k := |arrivals| - 1;
      var most, written := arrivals[..k], Run(n, blocks, arrivals).value.1;
      StillStack(n, blocks, arrivals);
      WrittenAltogether(n, blocks, most);
      assert written[..k] == Run(n, blocks, most).value.1;
      LastAdds(n, blocks, arrivals, written[k]);
    }
  }

  lemma {:induction false} SumOfNothing(p: seq<multiset<Output>>)
    requires forall b :: 0 <= b < |p| ==> p[b] == multiset{}
    ensures SumOf(p) == multiset{}
    decreases |p|
  {
    if p != [] {
      SumOfNothing(p[..|p| - 1]);
    }
  }

  lemma NothingStacked(n: nat, blocks: nat)
    requires n > 0
    ensures AllStacks(n, [], blocks) == multiset{}
  {
    CountNamesOfAll(n, blocks);
    forall b: nat | b < blocks ensures StacksFrom(n, [], b) == multiset{} {
      IncompleteStacks(n, [], b);
    }
    SumOfNothing(StackParts(n, [], blocks));
  }

  predicate IsPassed(arrivals: seq<Arrival>, o: Output) {
    exists i :: 0 <= i < |arrivals| && !IsExpert(arrivals[i].name) && Output(arrivals[i].name, arrivals[i].data) == o
  }

  lemma {:induction false} PassedCount(arrivals: seq<Arrival>, o: Output)
    requires Distinct(arrivals)
    ensures Passed(arrivals)[o] == if IsPassed(arrivals, o) then 1 else 0
  {
    if arrivals != [] {
      var k := |arrivals| - 1;
      var most := arrivals[..k];
      PassedCount(most, o);
      if o in PassedOne(arrivals[k]) {
        assert !IsPassed(most, o);
      } else if IsPassed(arrivals, o) {
        var i :| 0 <= i < |arrivals| && !IsExpert(arrivals[i].name) && Output(arrivals[i].name, arrivals[i].data) == o;
        assert most[i] == arrivals[i];
      }
    }
  }

  lemma PassedEqually(arrivals: seq<Arrival>, others: seq<Arrival>, o: Output)
    requires Reordered(arrivals, others)
    ensures Passed(arrivals)[o] == Passed(others)[o]
  {
    PassedCount(arrivals, o);
    PassedCount(others, o);
    if IsPassed(arrivals, o) {
      IsPassedToo(arrivals, others, o);
    } else if IsPassed(others, o) {
      IsPassedToo(others, arrivals, o);
    }
  }

  lemma PassedInOtherOrder(arrivals: seq<Arrival>, others: seq<Arrival>)
    requires Reordered(arrivals, others)
    ensures Passed(arrivals) == Passed(others)
  {
    forall o: Output ensures Passed(arrivals)[o] == Passed(others)[o] {
      PassedEqually(arrivals, others, o);
    }
  }

  lemma IsPassedToo(arrivals: seq<Arrival>, others: seq<Arrival>, o: Output)
    requires Reordered(arrivals, others) && IsPassed(arrivals, o)
    ensures IsPassed(others, o)
  {
    var i :| 0 <= i < |arrivals| && !IsExpert(arrivals[i].name) && Output(arrivals[i].name, arrivals[i].data) == o;
    assert arrivals[i] in others;
    var j :| 0 <= j < |others| && others[j] == arrivals[i];
  }

  lemma StacksInOtherOrder(n: nat, arrivals: seq<Arrival>, others: seq<Arrival>, blocks: nat)
    requires Reordered(arrivals, others)
    ensures AllStacks(n, arrivals, blocks) == AllStacks(n, others, blocks)
  {
    forall b: nat | b < blocks ensures StacksFrom(n, arrivals, b) == StacksFrom(n, others, b) {
      TablesInOtherOrder(arrivals, others, b);
    }
    SameParts(n, arrivals, others, blocks);
  }

  lemma SuccessInOtherOrder(n: nat, blocks: nat, arrivals: seq<Arrival>, others: seq<Arrival>)
    requires n > 0 && Reordered(arrivals, others) && Convert(n, blocks, arrivals).Ok?
    ensures Convert(n, blocks, others).Ok?
  {
    ConvertsExactlyWhen(n, blocks, arrivals);
    ConvertsExactlyWhen(n, blocks, others);
    SameBlocksExist(blocks, arrivals, others);
    forall b: nat | b < blocks ensures NoneOrAll(n, others, b) {
      TablesInOtherOrder(arrivals, others, b);
      assert NoneOrAll(n, arrivals, b);
    }
  }

  lemma ConvertedAltogether(n: nat, blocks: nat, arrivals: seq<Arrival>)
    requires n > 0 && Distinct(arrivals) && Convert(n, blocks, arrivals).Ok?
    ensures multiset(Flatten(Convert(n, blocks, arrivals).value)) == Passed(arrivals) + AllStacks(n, arrivals, blocks)
  {
    ConvertsExactlyWhen(n, blocks, arrivals);
    NoneOrAllIsWellNamed(n, blocks, arrivals);
    WrittenAltogether(n, blocks, arrivals);
  }

  /**
   * The order of arrival decides neither whether the conversion succeeds nor what it writes: in any two orders the same
   * tensors are written, equally often.
   */
  lemma OrderDoesNotMatter(n: nat, blocks: nat, arrivals: seq<Arrival>, others: seq<Arrival>)
    requires n > 0 && Reordered(arrivals, others)
    ensures Convert(n, blocks, arrivals).Ok? <==> Convert(n, blocks, others).Ok?
    ensures Convert(n, blocks, arrivals).Ok? ==>
              multiset(Flatten(Convert(n, blocks, arrivals).value)) == multiset(Flatten(Convert(n, blocks, others).value))
  {
    if Convert(n, blocks, arrivals).Ok? {
      SuccessInOtherOrder(n, blocks, arrivals, others);
      ConvertedAltogether(n, blocks, arrivals);
      ConvertedAltogether(n, blocks, others);
      PassedInOtherOrder(arrivals, others);
      StacksInOtherOrder(n, arrivals, others, blocks);
    } else if Convert(n, blocks, others).Ok? {
      SuccessInOtherOrder(n, blocks, others, arrivals);
    }
  }

  lemma SameBlocksExist(blocks: nat, arrivals: seq<Arrival>, others: seq<Arrival>)
    requires Reordered(arrivals, others)
    ensures BlocksExist(blocks, arrivals) ==> BlocksExist(blocks, others)
  {
    forall i | 0 <= i < |others| && BlocksExist(blocks, arrivals) && IsExpert(others[i].name)
      ensures others[i].bid.Some? && others[i].bid.value < blocks
    {
      assert others[i] in arrivals;
    }
  }
}
