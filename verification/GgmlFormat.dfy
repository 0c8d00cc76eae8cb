/**
 * The legacy GGML file formats: what the converter's reader makes of the bytes, as functions. Offsets are integers of 64
 * bits with a sign, and the loop over the tensor records can go back or run forever; see GgmlLoop.
 */
module GgmlFormat {
  import opened StringUtils
  import opened Tensors

  type Byte = b: int | 0 <= b < 256

  type Bytes = seq<Byte>

  datatype Format = GGML | GGMF | GGJT

  datatype Header = Header(format: Format, version: nat, size: nat)

  datatype Hyper = Hyper(nVocab: nat, nEmbd: nat, nMult: nat, nHead: nat, nLayer: nat, nRot: nat, ftype: nat)

  /** A vocabulary item; the score is kept as the four bytes of its float. */
  datatype Item = Item(text: Bytes, score: Bytes)

  datatype TensorInfo = TensorInfo(name: Bytes, dims: seq<nat>, dtype: nat, start: int, size: int)

  /** What is known of a run after a number of rounds of its loop: the result, an exception, or that it still runs. */
  datatype Outcome<T> = Done(value: T) | Exception | Running {
    predicate IsFailure() {
      !Done?
    }

    function PropagateFailure<U>(): Outcome<U>
      requires IsFailure()
    {
      if Running? then Running else Exception
    }

    function Extract(): T
      requires Done?
    {
      value
    }
  }

  // ----- reading numbers -----

  /** The bound of a slice of n elements: counted from the end if negative, and cut to the range. */
  function Clamp(i: int, n: nat): (r: nat)
    ensures r <= n
  {
    if i + n < 0 then 0 else if i < 0 then i + n else if i > n then n else i
  }

  /** data[o:o + n], which can be shorter, and empty if it crosses from negative bounds to others. */
  function Slice(data: Bytes, o: int, n: nat): (b: Bytes)
    ensures |b| <= |data|
  {
    var low, high := Clamp(o, |data|), Clamp(o + n, |data|);
    if low <= high then data[low..high] else []
  }

  /** Four bytes, the lowest first. */
  function Number(a: int, b: int, c: int, d: int): int {
    a + 0x100 * b + 0x1_0000 * c + 0x100_0000 * d
  }

  function U32At(data: Bytes, o: nat): nat
    requires o + 4 <= |data|
  {
    Number(data[o], data[o + 1], data[o + 2], data[o + 3])
  }

  function ReadU32(data: Bytes, o: nat): Option<nat> {
    if o + 4 > |data| then None else Some(U32At(data, o))
  }

  function U32s(data: Bytes, o: nat, n: nat): (r: seq<nat>)
    requires o + 4 * n <= |data|
    ensures |r| == n
    decreases n
  {
    if n == 0 then [] else [U32At(data, o)] + U32s(data, o + 4, n - 1)
  }

  /** struct.unpack of n numbers at once: all of them or an error. */
  function ReadU32s(data: Bytes, o: int, n: nat): (r: Option<seq<nat>>)
    ensures r.Some? ==> |r.value| == n
  {
    var b := Slice(data, o, 4 * n);
    if |b| < 4 * n then None else Some(U32s(b, 0, n))
  }

  /** A successful read of a value, up to the next offset. */
  predicate Gives<T(==)>(r: Option<(T, int)>, value: T, next: int) {
    r.Some? && r.value.0 == value && r.value.1 == next
  }

  // ----- header and hyperparameters -----

  const MAGIC_GGUF: Bytes := [0x47, 0x47, 0x55, 0x46]
  const MAGIC_GGML: Bytes := [0x6c, 0x6d, 0x67, 0x67]
  const MAGIC_GGMF: Bytes := [0x66, 0x6d, 0x67, 0x67]
  const MAGIC_GGJT: Bytes := [0x74, 0x6a, 0x67, 0x67]

  function ReadHeader(data: Bytes, o: nat): Option<Header> {
    var magic := Slice(data, o, 4);
    if magic == MAGIC_GGUF then None
    else if magic == MAGIC_GGML then Some(Header(GGML, 1, 4))
    else
      var version :- ReadU32(data, o + 4);
      if magic == MAGIC_GGMF then
        if version != 1 then None else Some(Header(GGMF, version, 8))
      else if magic == MAGIC_GGJT then
        if version < 1 || version > 3 then None else Some(Header(GGJT, version, 8))
      else None
  }

  predicate ValidFtype(ftype: nat) {
    ftype <= 4 || 7 <= ftype <= 18
  }

  function ReadHyper(data: Bytes, o: nat): Option<Hyper> {
    if o + 28 > |data| then None
    else
      var h := Hyper(U32At(data, o), U32At(data, o + 4), U32At(data, o + 8), U32At(data, o + 12), U32At(data, o + 16),
                     U32At(data, o + 20), U32At(data, o + 24));
      if ValidFtype(h.ftype) then Some(h) else None
  }

  /** validate_conversion: the quantizations changed in versions 2 and 3. */
  predicate Convertible(h: Header, ftype: nat) {
    if h.format != GGJT || h.version < 2 then ftype == 0 || ftype == 1
    else if h.version == 2 then ftype != 2 && ftype != 3 && ftype != 4 && ftype != 7
    else true
  }

  // ----- vocabulary -----

  const ZERO_SCORE: Bytes := [0, 0, 0, 0]

  function ReadItem(data: Bytes, o: nat, scores: bool): Option<(Item, nat)> {
    var itemlen :- ReadU32(data, o);
    if itemlen >= 4096 then None
    else
      var text := Slice(data, o + 4, itemlen);
      var next := o + 4 + itemlen;
      if !scores then Some((Item(text, ZERO_SCORE), next))
      else if next + 4 > |data| then None
      else Some((Item(text, data[next..next + 4]), next + 4))
  }

  function ReadVocab(data: Bytes, o: nat, n: nat, scores: bool): Option<(seq<Item>, nat)>
    decreases n
  {
    if n == 0 then Some(([], o))
    else
      var before :- ReadVocab(data, o, n - 1, scores);
      var last :- ReadItem(data, before.1, scores);
      Some((before.0 + [last.0], last.1))
  }

  lemma VocabMore(data: Bytes, o: nat, n: nat, more: nat, scores: bool, before: seq<Item>, p: nat)
    requires more == n + 1 && Gives(ReadVocab(data, o, n, scores), before, p)
    ensures ReadItem(data, p, scores).None? ==> ReadVocab(data, o, more, scores).None?
    ensures ReadItem(data, p, scores).Some? ==>
              var (item, q) := ReadItem(data, p, scores).value; Gives(ReadVocab(data, o, more, scores), before + [item], q)
  {
  }

  // ----- tensors -----

  /** Elements and bytes of a block, for each known type. */
  type QuantSizes = map<nat, (nat, nat)>

  predicate SaneSizes(quants: QuantSizes) {
    forall dtype :: dtype in quants ==> quants[dtype].0 > 0 && quants[dtype].1 > 0
  }

  const GGML_QUANT_SIZES: QuantSizes := map[
    0 := (1, 4), 1 := (1, 2), 2 := (32, 18), 3 := (32, 20), 6 := (32, 22),
    7 := (32, 24), 8 := (32, 34), 9 := (32, 40), 10 := (256, 84), 11 := (256, 110),
    12 := (256, 144), 13 := (256, 176), 14 := (256, 210), 15 := (256, 292), 16 := (256, 66),
    17 := (256, 74), 18 := (256, 98), 19 := (256, 50), 20 := (32, 18), 21 := (256, 110),
    22 := (256, 82), 23 := (256, 136), 24 := (1, 1), 25 := (1, 2), 26 := (1, 4),
    27 := (1, 8), 28 := (1, 8), 29 := (256, 56), 30 := (1, 2), 34 := (256, 54),
    35 := (256, 66)
  ]

  lemma GgmlSizesAreSane()
    ensures SaneSizes(GGML_QUANT_SIZES)
  {
  }

  function Product(dims: seq<nat>): nat {
    if dims == [] then 1 else Times(dims[0], Product(dims[1..]))
  }

  const TWO_63: int := 0x8000_0000_0000_0000
  const TWO_64: int := 0x1_0000_0000_0000_0000

  /** What is left of a number in 64 bits with a sign. */
  function Wrap64(x: int): (r: int)
    ensures -TWO_63 <= r < TWO_63
    ensures -TWO_63 <= x < TWO_63 ==> r == x
    decreases if x < 0 then -2 * x - 1 else 2 * x
  {
    if x < -TWO_63 then Wrap64(x + TWO_64) else if x >= TWO_63 then Wrap64(x - TWO_64) else x
  }

  /** The size of the data as the reader computes it, in numpy's 64-bit integers. */
  function SizeOf(dims: seq<nat>, quant: (nat, nat)): int {
    if quant.0 == 0 then 0 else Wrap64(Wrap64(Product(dims)) * quant.1) / quant.0
  }

  function BytesBy(quants: QuantSizes, dtype: nat, dims: seq<nat>): int {
    if dtype in quants then SizeOf(dims, quants[dtype]) else 0
  }

  /** The types the reader knows, and the size of a tensor's data by type and dimensions. */
  datatype TypeTable = TypeTable(known: set<nat>, bytes: (nat, seq<nat>) -> int)

  function TypesOf(quants: QuantSizes): TypeTable {
    TypeTable(quants.Keys, (dtype: nat, dims: seq<nat>) => BytesBy(quants, dtype, dims))
  }

  function PadTo32(o: int): (pad: nat)
    ensures pad < 32 && (o + pad) % 32 == 0
  {
    (o + 31) / 32 * 32 - o
  }

  function PadFor(o: int, padding: bool): (pad: nat)
    ensures pad < 32 && (padding ==> (o + pad) % 32 == 0)
  {
    if padding then PadTo32(o) else 0
  }

  datatype RecordHead = RecordHead(nDims: nat, nameLen: nat, dtype: nat)

  function ReadHead(data: Bytes, o: int): Option<RecordHead> {
    var b := Slice(data, o, 12);
    if |b| < 12 then None else Some(RecordHead(U32At(b, 0), U32At(b, 4), U32At(b, 8)))
  }

  /** The offset after a record's dimensions, and after its name. */
  function NameAt(o: int, head: RecordHead): int {
    o + 12 + 4 * head.nDims
  }

  function AfterName(o: int, head: RecordHead): int {
    NameAt(o, head) + head.nameLen
  }

  function DataAt(o: int, padding: bool): int {
    o + PadFor(o, padding)
  }

  /** The tensor of a record at an offset, whose head and dimensions are read. */
  function TensorAt(data: Bytes, o: int, head: RecordHead, dims: seq<nat>, padding: bool, types: TypeTable): TensorInfo {
    TensorInfo(Slice(data, NameAt(o, head), head.nameLen), dims, head.dtype, DataAt(AfterName(o, head), padding),
               types.bytes(head.dtype, dims))
  }

  /** The offset behind a tensor's data. */
  function Next(t: TensorInfo): (next: int)
    ensures -TWO_63 <= next < TWO_63
  {
    Wrap64(t.start + t.size)
  }

  /** One record, and the offset of the next one, which can be smaller. */
  function ReadTensor(data: Bytes, o: int, padding: bool, types: TypeTable): Option<(TensorInfo, int)> {
    var head :- ReadHead(data, o);
    if head.nDims > 4 || head.nameLen >= 4096 || head.dtype !in types.known then None
    else
      var dims :- ReadU32s(data, o + 12, head.nDims);
      var t := TensorAt(data, o, head, dims, padding, types);
      Some((t, Next(t)))
  }

  /** Every record that is read has a head and dimensions. */
  lemma RecordParts(data: Bytes, o: int, padding: bool, types: TypeTable) returns (head: RecordHead, dims: seq<nat>)
    requires ReadTensor(data, o, padding, types).Some?
    ensures ReadHead(data, o) == Some(head) && head.nDims <= 4 && head.nameLen < 4096 && head.dtype in types.known
    ensures ReadTensor(data, o, padding, types).value.0 == TensorAt(data, o, head, dims, padding, types)
    ensures ReadTensor(data, o, padding, types).value.1 == Next(TensorAt(data, o, head, dims, padding, types))
  {
    head := ReadHead(data, o).value;
    dims := ReadU32s(data, o + 12, head.nDims).value;
  }

  /** A record whose head and dimensions are known. */
  lemma RecordRead(data: Bytes, o: int, padding: bool, types: TypeTable, head: RecordHead, dims: seq<nat>)
    requires ReadHead(data, o) == Some(head) && ReadU32s(data, o + 12, head.nDims) == Some(dims)
    requires head.nDims <= 4 && head.nameLen < 4096 && head.dtype in types.known
    ensures var t := TensorAt(data, o, head, dims, padding, types); Gives(ReadTensor(data, o, padding, types), t, Next(t))
  {
  }

  function Prepended(t: TensorInfo, rest: Outcome<(seq<TensorInfo>, int)>): Outcome<(seq<TensorInfo>, int)> {
    match rest
    case Done(r) => Done(([t] + r.0, r.1))
    case Exception => Exception
    case Running => Running
  }

  /** The size of the data, and the record that can be read at each offset. */
  datatype Records = Records(size: nat, at: int -> Option<(TensorInfo, int)>)

  function RecordsOf(data: Bytes, padding: bool, types: TypeTable): Records {
    Records(|data|, o => ReadTensor(data, o, padding, types))
  }

  /** The loop over the records, for a number of rounds. */
  function ReadAll(rs: Records, o: int, rounds: nat): Outcome<(seq<TensorInfo>, int)>
    decreases rounds
  {
    if o >= rs.size then Done(([], o))
    else if rounds == 0 then Running
    else
      match rs.at(o)
      case None => Exception
      case Some(r) => Prepended(r.0, ReadAll(rs, r.1, rounds - 1))
  }

  /** The loop ends with these tensors at this offset. */
  predicate Ends(r: Outcome<(seq<TensorInfo>, int)>, ts: seq<TensorInfo>, end: int) {
    r.Done? && r.value.0 == ts && r.value.1 == end
  }

  lemma OneRound(rs: Records, o: int, left: nat, t: TensorInfo, next: int)
    requires o < rs.size && Gives(rs.at(o), t, next)
    ensures ReadAll(rs, o, left + 1) == Prepended(t, ReadAll(rs, next, left))
  {
  }

  lemma OneMore(rs: Records, o: int, rounds: nat, left: nat, t: TensorInfo, next: int, ts: seq<TensorInfo>, end: int)
    requires o < rs.size && rounds == left + 1 && Gives(rs.at(o), t, next) && Ends(ReadAll(rs, next, left), ts, end)
    ensures Ends(ReadAll(rs, o, rounds), [t] + ts, end)
  {
    OneRound(rs, o, left, t, next);
  }

  // ----- the model -----

  /** layers.0.feed_forward.w1.weight */
  const FF_NAME: Bytes := [
    0x6c, 0x61, 0x79, 0x65, 0x72, 0x73, 0x2e, 0x30, 0x2e, 0x66, 0x65, 0x65, 0x64, 0x5f, 0x66, 0x6f,
    0x72, 0x77, 0x61, 0x72, 0x64, 0x2e, 0x77, 0x31, 0x2e, 0x77, 0x65, 0x69, 0x67, 0x68, 0x74
  ]

  /** tensor_map: the last tensor of each name. */
  function TensorMap(tensors: seq<TensorInfo>): (m: map<Bytes, nat>)
    ensures forall name :: name in m ==> m[name] < |tensors| && tensors[m[name]].name == name
  {
    if tensors == [] then map[]
    else
      var k := |tensors| - 1;
      TensorMap(tensors[..k])[tensors[k].name := k]
  }

  /** set_n_ff */
  function FeedForwardSize(tensors: seq<TensorInfo>): Option<nat> {
    var m, name := TensorMap(tensors), FF_NAME;
    if name !in m then None
    else if |tensors[m[name]].dims| < 2 then None
    else Some(tensors[m[name]].dims[1])
  }

  datatype Model = Model(header: Header, hyper: Hyper, items: seq<Item>, tensors: seq<TensorInfo>, nFf: nat, end: int)

  /** The model made of its parts, if the feed-forward size is found. */
  function Finished(header: Header, hyper: Hyper, items: seq<Item>, ts: seq<TensorInfo>, end: int): Outcome<Model> {
    match FeedForwardSize(ts)
    case None => Exception
    case Some(nFf) => Done(Model(header, hyper, items, ts, nFf, end))
  }

  /** Vocabulary and tensors, from where they begin. */
  function ReadContents(data: Bytes, o: nat, header: Header, hyper: Hyper, types: TypeTable, rounds: nat): Outcome<Model> {
    match ReadVocab(data, o, hyper.nVocab, header.format != GGML)
    case None => Exception
    case Some(vocab) =>
      var tensors :- ReadAll(RecordsOf(data, header.format == GGJT, types), vocab.1, rounds);
      Finished(header, hyper, vocab.0, tensors.0, tensors.1)
  }

  /** Header and hyperparameters, and the offset after them. */
  function ReadHeads(data: Bytes, o: nat): Option<(Header, Hyper, nat)> {
    var header :- ReadHeader(data, o);
    var hyper :- ReadHyper(data, o + header.size);
    if Convertible(header, hyper.ftype) then Some((header, hyper, o + header.size + 28)) else None
  }

  function ReadModel(data: Bytes, o: nat, types: TypeTable, rounds: nat): Outcome<Model> {
    match ReadHeads(data, o)
    case None => Exception
    case Some(heads) => ReadContents(data, heads.2, heads.0, heads.1, types, rounds)
  }

  /** The outcome of the loop decides the outcome of the whole. */
  function Completed(header: Header, hyper: Hyper, items: seq<Item>, loop: Outcome<(seq<TensorInfo>, int)>): Outcome<Model> {
    match loop
    case Done(r) => Finished(header, hyper, items, r.0, r.1)
    case Exception => Exception
    case Running => Running
  }

  lemma ContentsFrom(data: Bytes, o: nat, header: Header, hyper: Hyper, types: TypeTable, rounds: nat, items: seq<Item>, from: nat)
    requires Gives(ReadVocab(data, o, hyper.nVocab, header.format != GGML), items, from)
    ensures ReadContents(data, o, header, hyper, types, rounds)
            == Completed(header, hyper, items, ReadAll(RecordsOf(data, header.format == GGJT, types), from, rounds))
  {
  }

  // ----- sizes -----

  /** Sizes that fit in 63 bits are exact. */
  lemma SizeIsExact(dims: seq<nat>, quant: (nat, nat))
    requires quant.0 > 0 && quant.1 > 0 && Product(dims) * quant.1 < TWO_63
    ensures SizeOf(dims, quant) == Product(dims) * quant.1 / quant.0 && SizeOf(dims, quant) >= 0
  {
    AtLeast(Product(dims), quant.1);
    NotNegative(Product(dims), quant.1, quant.0);
  }

  lemma AtLeast(a: nat, b: nat)
    requires b > 0
    ensures a <= a * b
  {
  }

  lemma NotNegative(a: nat, b: nat, c: nat)
    requires c > 0
    ensures a * b >= 0 && a * b / c >= 0
  {
  }

  /** The number of bytes of the data as it is, without a limit of 64 bits, before it is divided by the size of a block. */
  function TrueCount(dims: seq<nat>, quant: (nat, nat)): nat {
    Product(dims) * quant.1
  }

  /** It differs from the number by a multiple of 2^64. */
  lemma {:induction false} WrapLeavesWhole(x: int) returns (k: int)
    ensures x == Wrap64(x) + k * TWO_64
    decreases if x < 0 then -2 * x - 1 else 2 * x
  {
    if x < -TWO_63 {
      k := WrapLeavesWhole(x + TWO_64);
      k := k - 1;
    } else if x >= TWO_63 {
      k := WrapLeavesWhole(x - TWO_64);
      k := k + 1;
    } else {
      k := 0;
    }
  }

  lemma WrapDropsWhole(x: int, k: int)
    ensures Wrap64(x + k * TWO_64) == Wrap64(x)
  {
    var i := WrapLeavesWhole(x + k * TWO_64);
    var j := WrapLeavesWhole(x);
    assert Wrap64(x + k * TWO_64) - Wrap64(x) == (k + j - i) * TWO_64;
  }

  function Distance(from: int, to: int): int {
    Wrap64(to - from)
  }

  function Advance(from: int, distance: int): int {
    Wrap64(from + distance)
  }

  /** In 64 bits, going the distance leads there. */
  lemma AdvanceDistance(from: int, to: int)
    requires -TWO_63 <= to < TWO_63
    ensures Advance(from, Distance(from, to)) == to
  {
    var k := WrapLeavesWhole(to - from);
    WrapDropsWhole(to, 0 - k);
  }

  lemma TimesWhole(x: int, y: int, k: int, n: int)
    requires x == y + k * TWO_64
    ensures x * n == y * n + (k * n) * TWO_64
  {
    assert (y + k * TWO_64) * n == y * n + (k * TWO_64) * n;
    assert (k * TWO_64) * n == (k * n) * TWO_64;
  }

  lemma WrapTwice(x: int, n: int)
    ensures Wrap64(Wrap64(x) * n) == Wrap64(x * n)
  {
    var k := WrapLeavesWhole(x);
    TimesWhole(x, Wrap64(x), k, n);
    WrapDropsWhole(Wrap64(x) * n, k * n);
  }

  lemma WrapIsRemainder(x: nat)
    ensures var w := x % TWO_64; Wrap64(x) == if w < TWO_63 then w else w - TWO_64
  {
    var q, w := x / TWO_64, x % TWO_64;
    assert x == w + q * TWO_64;
    WrapDropsWhole(w, q);
    if w >= TWO_63 {
      WrapDropsWhole(w - TWO_64, 1);
    }
  }

  /** The two roundings to 64 bits are one: the size is what is left of the true count, divided by the size of a block. */
  lemma SizeIsRemainder(dims: seq<nat>, quant: (nat, nat))
    requires quant.0 > 0
    ensures var w := TrueCount(dims, quant) % TWO_64;
            SizeOf(dims, quant) == (if w < TWO_63 then w else w - TWO_64) / quant.0
  {
    WrapTwice(Product(dims), quant.1);
    WrapIsRemainder(TrueCount(dims, quant));
  }
}
