/** A writer of the legacy GGML formats, and the proof that the reader gives back what it wrote. */
module GgmlRoundTrip {
  import opened StringUtils
  import opened GgmlFormat

  // ----- bytes at a place in the data -----

  predicate Holds(data: Bytes, o: nat, b: Bytes) {
    o + |b| <= |data| && data[o..o + |b|] == b
  }

  lemma HoldsBoth(data: Bytes, o: nat, a: Bytes, b: Bytes)
    requires Holds(data, o, a + b)
    ensures Holds(data, o, a) && Holds(data, o + |a|, b)
  {
    var s := data[o..o + |a + b|];
    assert s[..|a|] == a && s[|a|..] == b;
    assert s[..|a|] == data[o..o + |a|] && s[|a|..] == data[o + |a|..o + |a| + |b|];
  }

  lemma HoldsFour(data: Bytes, o: nat, a: Bytes, b: Bytes, c: Bytes, d: Bytes)
    requires Holds(data, o, a + (b + (c + d)))
    ensures Holds(data, o, a) && Holds(data, o + |a|, b) && Holds(data, o + |a| + |b|, c) && Holds(data, o + |a| + |b| + |c|, d)
  {
    HoldsBoth(data, o, a, b + (c + d));
    HoldsBoth(data, o + |a|, b, c + d);
    HoldsBoth(data, o + |a| + |b|, c, d);
  }

  lemma SliceHolds(data: Bytes, o: nat, b: Bytes)
    requires Holds(data, o, b)
    ensures Slice(data, o, |b|) == b
  {
  }

  const TWO_32: nat := 0x1_0000_0000

  function U32Bytes(n: nat): (b: Bytes)
    ensures |b| == 4
  {
    [n % 0x100, n / 0x100 % 0x100, n / 0x1_0000 % 0x100, n / 0x100_0000 % 0x100]
  }

  lemma U32RoundTrip(n: nat)
    requires n < TWO_32
    ensures Number(n % 0x100, n / 0x100 % 0x100, n / 0x1_0000 % 0x100, n / 0x100_0000 % 0x100) == n
  {
    var q1 := n / 0x100;
    var q2 := q1 / 0x100;
    var q3 := q2 / 0x100;
    assert n == q1 * 0x100 + n % 0x100 && q1 == q2 * 0x100 + q1 % 0x100 && q2 == q3 * 0x100 + q2 % 0x100;
    assert q2 == n / 0x1_0000 && q3 == n / 0x100_0000;
  }

  lemma ReadsU32(data: Bytes, o: nat, n: nat)
    requires n < TWO_32 && Holds(data, o, U32Bytes(n))
    ensures o + 4 <= |data| && U32At(data, o) == n && ReadU32(data, o) == Some(n)
  {
    var b := data[o..o + 4];
    assert b[0] == data[o] && b[1] == data[o + 1] && b[2] == data[o + 2] && b[3] == data[o + 3];
    U32RoundTrip(n);
  }

  function AllU32(ns: seq<nat>): (b: Bytes)
    ensures |b| == 4 * |ns|
  {
    if ns == [] then [] else U32Bytes(ns[0]) + AllU32(ns[1..])
  }

  predicate Small(ns: seq<nat>) {
    forall i :: 0 <= i < |ns| ==> ns[i] < TWO_32
  }

  /** The numbers read at a place. */
  predicate Numbers(data: Bytes, o: nat, ns: seq<nat>) {
    ReadU32s(data, o, |ns|).Some? && ReadU32s(data, o, |ns|).value == ns
  }

  lemma {:induction false} ReadsAllU32(data: Bytes, o: nat, ns: seq<nat>)
    requires Small(ns) && Holds(data, o, AllU32(ns))
    ensures o + 4 * |ns| <= |data| && U32s(data, o, |ns|) == ns
    decreases |ns|
  {
    if ns != [] {
      HoldsBoth(data, o, U32Bytes(ns[0]), AllU32(ns[1..]));
      ReadsU32(data, o, ns[0]);
      ReadsAllU32(data, o + 4, ns[1..]);
    }
  }

  lemma ReadsNumbers(data: Bytes, o: nat, ns: seq<nat>)
    requires Small(ns) && Holds(data, o, AllU32(ns))
    ensures Numbers(data, o, ns)
  {
    var b := AllU32(ns);
    SliceHolds(data, o, b);
    assert b[0..|b|] == b;
    ReadsAllU32(b, 0, ns);
  }

  // ----- vocabulary -----

  function ScoreBytes(item: Item, scores: bool): Bytes {
    if scores then item.score else []
  }

  function WriteItem(item: Item, scores: bool): Bytes {
    U32Bytes(|item.text|) + (item.text + ScoreBytes(item, scores))
  }

  predicate GoodItem(item: Item, scores: bool) {
    |item.text| < 4096 && |item.score| == 4 && (!scores ==> item.score == ZERO_SCORE)
  }

  lemma ReadsItem(data: Bytes, o: nat, item: Item, scores: bool)
    requires GoodItem(item, scores) && Holds(data, o, WriteItem(item, scores))
    ensures Gives(ReadItem(data, o, scores), item, o + |WriteItem(item, scores)|)
  {
    HoldsBoth(data, o, U32Bytes(|item.text|), item.text + ScoreBytes(item, scores));
    HoldsBoth(data, o + 4, item.text, ScoreBytes(item, scores));
    ReadsU32(data, o, |item.text|);
    SliceHolds(data, o + 4, item.text);
  }

  function WriteVocab(items: seq<Item>, scores: bool): Bytes {
    if items == [] then [] else WriteVocab(items[..|items| - 1], scores) + WriteItem(items[|items| - 1], scores)
  }

  function VocabEnd(o: nat, items: seq<Item>, scores: bool): nat {
    o + |WriteVocab(items, scores)|
  }

  lemma LastItem(data: Bytes, o: nat, items: seq<Item>, scores: bool, k: nat)
    requires k + 1 == |items| && Holds(data, o, WriteVocab(items, scores))
    ensures var last := VocabEnd(o, items[..k], scores);
            && Holds(data, o, WriteVocab(items[..k], scores)) && Holds(data, last, WriteItem(items[k], scores))
            && VocabEnd(o, items, scores) == last + |WriteItem(items[k], scores)|
  {
    HoldsBoth(data, o, WriteVocab(items[..k], scores), WriteItem(items[k], scores));
  }

  lemma {:induction false} ReadsVocab(data: Bytes, o: nat, items: seq<Item>, scores: bool)
    requires (forall i :: 0 <= i < |items| ==> GoodItem(items[i], scores)) && Holds(data, o, WriteVocab(items, scores))
    ensures Gives(ReadVocab(data, o, |items|, scores), items, VocabEnd(o, items, scores))
    decreases |items|
  {
    if items != [] {
      var n, k, before := |items|, |items| - 1, items[..|items| - 1];
      var last := VocabEnd(o, before, scores);
      LastItem(data, o, items, scores, k);
      ReadsVocab(data, o, before, scores);
      ReadsItem(data, last, items[k], scores);
      VocabMore(data, o, k, n, scores, before, last);
      assert items == before + [items[k]];
    }
  }

  // ----- tensors -----

  datatype Stored = Stored(name: Bytes, dims: seq<nat>, dtype: nat, data: Bytes)

  /** What the head of a record can say. */
  predicate Writable(t: Stored, types: TypeTable) {
    |t.dims| <= 4 && Small(t.dims) && |t.name| < 4096 && t.dtype < TWO_32 && t.dtype in types.known
  }

  /** And the size of the data is the one of type and dimensions. */
  predicate Fits(t: Stored, types: TypeTable) {
    Writable(t, types) && types.bytes(t.dtype, t.dims) == |t.data|
  }

  function Zeros(n: nat): (b: Bytes)
    ensures |b| == n
  {
    if n == 0 then [] else Zeros(n - 1) + [0]
  }

  function Named(o: nat, t: Stored): nat {
    o + 12 + 4 * |t.dims| + |t.name|
  }

  function PadAt(o: nat, t: Stored, padding: bool): nat {
    PadFor(Named(o, t), padding)
  }

  function HeadBytes(t: Stored): (b: Bytes)
    ensures |b| == 12
  {
    U32Bytes(|t.dims|) + (U32Bytes(|t.name|) + U32Bytes(t.dtype))
  }

  lemma ReadsHead(data: Bytes, o: nat, t: Stored)
    requires |t.dims| < TWO_32 && |t.name| < TWO_32 && t.dtype < TWO_32 && Holds(data, o, HeadBytes(t))
    ensures ReadHead(data, o) == Some(RecordHead(|t.dims|, |t.name|, t.dtype))
  {
    var b := HeadBytes(t);
    SliceHolds(data, o, b);
    assert b[0..12] == b;
    HoldsBoth(b, 0, U32Bytes(|t.dims|), U32Bytes(|t.name|) + U32Bytes(t.dtype));
    HoldsBoth(b, 4, U32Bytes(|t.name|), U32Bytes(t.dtype));
    ReadsU32(b, 0, |t.dims|);
    ReadsU32(b, 4, |t.name|);
    ReadsU32(b, 8, t.dtype);
  }

  function EndOf(o: nat, t: Stored, padding: bool): nat {
    Named(o, t) + PadAt(o, t, padding) + |t.data|
  }

  function WriteTensor(o: nat, t: Stored, padding: bool): (b: Bytes)
    ensures o + |b| == EndOf(o, t, padding)
  {
    HeadBytes(t) + (AllU32(t.dims) + (t.name + (Zeros(PadAt(o, t, padding)) + t.data)))
  }

  /** What the reader makes of a record; the size is computed, whatever the data. */
  function RecordOf(o: nat, t: Stored, padding: bool, types: TypeTable): TensorInfo {
    TensorInfo(t.name, t.dims, t.dtype, Named(o, t) + PadAt(o, t, padding), types.bytes(t.dtype, t.dims))
  }

  function PlaceOf(o: nat, t: Stored, padding: bool): TensorInfo {
    TensorInfo(t.name, t.dims, t.dtype, Named(o, t) + PadAt(o, t, padding), |t.data|)
  }

  /** The parts of a written record, each at its place. */
  lemma WrittenParts(data: Bytes, o: nat, t: Stored, padding: bool)
    requires Holds(data, o, WriteTensor(o, t, padding))
    ensures Holds(data, o, HeadBytes(t)) && Holds(data, o + 12, AllU32(t.dims))
    ensures Holds(data, o + 12 + 4 * |t.dims|, t.name)
    ensures Holds(data, Named(o, t) + PadAt(o, t, padding), t.data)
  {
    var pad := Zeros(PadAt(o, t, padding));
    HoldsFour(data, o, HeadBytes(t), AllU32(t.dims), t.name, pad + t.data);
    HoldsBoth(data, Named(o, t), pad, t.data);
  }

  lemma TensorIsRecord(data: Bytes, o: nat, t: Stored, padding: bool, types: TypeTable)
    requires Slice(data, o + 12 + 4 * |t.dims|, |t.name|) == t.name
    ensures TensorAt(data, o, RecordHead(|t.dims|, |t.name|, t.dtype), t.dims, padding, types) == RecordOf(o, t, padding, types)
  {
  }

  /** Reading a record whose parts are known. */
  lemma RecordFrom(data: Bytes, o: nat, t: Stored, padding: bool, types: TypeTable)
    requires ReadHead(data, o) == Some(RecordHead(|t.dims|, |t.name|, t.dtype)) && Numbers(data, o + 12, t.dims)
    requires Slice(data, o + 12 + 4 * |t.dims|, |t.name|) == t.name
    requires |t.dims| <= 4 && |t.name| < 4096 && t.dtype in types.known
    ensures var info := RecordOf(o, t, padding, types); Gives(ReadTensor(data, o, padding, types), info, Next(info))
  {
    var head := RecordHead(|t.dims|, |t.name|, t.dtype);
    RecordRead(data, o, padding, types, head, t.dims);
    TensorIsRecord(data, o, t, padding, types);
  }

  lemma ReadsParts(data: Bytes, o: nat, t: Stored, padding: bool, types: TypeTable)
    requires Writable(t, types) && Holds(data, o, WriteTensor(o, t, padding))
    ensures ReadHead(data, o) == Some(RecordHead(|t.dims|, |t.name|, t.dtype)) && Numbers(data, o + 12, t.dims)
    ensures Slice(data, o + 12 + 4 * |t.dims|, |t.name|) == t.name
  {
    WrittenParts(data, o, t, padding);
    ReadsHead(data, o, t);
    ReadsNumbers(data, o + 12, t.dims);
    SliceHolds(data, o + 12 + 4 * |t.dims|, t.name);
  }

  lemma ReadsRecord(data: Bytes, o: nat, t: Stored, padding: bool, types: TypeTable)
    requires Writable(t, types) && Holds(data, o, WriteTensor(o, t, padding))
    ensures var info := RecordOf(o, t, padding, types); Gives(ReadTensor(data, o, padding, types), info, Next(info))
  {
    ReadsParts(data, o, t, padding, types);
    RecordFrom(data, o, t, padding, types);
  }

  lemma ReadsTensor(data: Bytes, o: nat, t: Stored, padding: bool, types: TypeTable)
    requires Fits(t, types) && Holds(data, o, WriteTensor(o, t, padding)) && EndOf(o, t, padding) < TWO_63
    ensures Gives(ReadTensor(data, o, padding, types), PlaceOf(o, t, padding), EndOf(o, t, padding))
  {
    ReadsRecord(data, o, t, padding, types);
    assert RecordOf(o, t, padding, types) == PlaceOf(o, t, padding);
  }

  function WriteTensors(o: nat, ts: seq<Stored>, padding: bool): Bytes
    decreases |ts|
  {
    if ts == [] then []
    else WriteTensor(o, ts[0], padding) + WriteTensors(EndOf(o, ts[0], padding), ts[1..], padding)
  }

  function Places(o: nat, ts: seq<Stored>, padding: bool): (r: seq<TensorInfo>)
    ensures |r| == |ts|
    decreases |ts|
  {
    if ts == [] then []
    else [PlaceOf(o, ts[0], padding)] + Places(EndOf(o, ts[0], padding), ts[1..], padding)
  }

  lemma FirstAndRest(data: Bytes, o: nat, ts: seq<Stored>, padding: bool) returns (next: nat)
    requires ts != [] && Holds(data, o, WriteTensors(o, ts, padding))
    ensures next == EndOf(o, ts[0], padding) && next >= o + 12
    ensures Holds(data, o, WriteTensor(o, ts[0], padding)) && Holds(data, next, WriteTensors(next, ts[1..], padding))
    ensures o + |WriteTensors(o, ts, padding)| == next + |WriteTensors(next, ts[1..], padding)|
    ensures Places(o, ts, padding) == [PlaceOf(o, ts[0], padding)] + Places(next, ts[1..], padding)
  {
    next := EndOf(o, ts[0], padding);
    HoldsBoth(data, o, WriteTensor(o, ts[0], padding), WriteTensors(next, ts[1..], padding));
  }

  lemma LastRound(rs: Records, rounds: nat)
    ensures Ends(ReadAll(rs, rs.size, rounds), [], rs.size)
  {
  }

  /** As many rounds as there are records are enough. */
  lemma {:induction false} ReadsTensors(data: Bytes, o: nat, ts: seq<Stored>, padding: bool, types: TypeTable, rounds: nat)
    requires forall i :: 0 <= i < |ts| ==> Fits(ts[i], types)
    requires Holds(data, o, WriteTensors(o, ts, padding)) && o + |WriteTensors(o, ts, padding)| == |data| < TWO_63
    requires rounds >= |ts|
    ensures Ends(ReadAll(RecordsOf(data, padding, types), o, rounds), Places(o, ts, padding), |data|)
    decreases |ts|
  {
    var rs := RecordsOf(data, padding, types);
    if ts == [] {
      LastRound(rs, rounds);
    } else {
      var next := FirstAndRest(data, o, ts, padding);
      var left, rest := rounds - 1, ts[1..];
      ReadsTensors(data, next, rest, padding, types, left);
      ReadsTensor(data, o, ts[0], padding, types);
      OneMore(rs, o, rounds, left, PlaceOf(o, ts[0], padding), next, Places(next, rest, padding), |data|);
    }
  }

  /** The bytes of each tensor are where its place says. */
  lemma {:induction false} PlacesHoldData(data: Bytes, o: nat, ts: seq<Stored>, padding: bool, i: nat)
    requires Holds(data, o, WriteTensors(o, ts, padding)) && i < |ts|
    ensures var t := Places(o, ts, padding)[i];
            t.name == ts[i].name && t.dims == ts[i].dims && t.dtype == ts[i].dtype && t.size == |ts[i].data|
            && t.start >= 0 && Holds(data, t.start, ts[i].data)
    decreases i
  {
    var next := FirstAndRest(data, o, ts, padding);
    if i == 0 {
      WrittenParts(data, o, ts[0], padding);
    } else {
      PlacesHoldData(data, next, ts[1..], padding, i - 1);
      assert Places(o, ts, padding)[i] == Places(next, ts[1..], padding)[i - 1];
    }
  }

  // ----- whole files -----

  datatype File = File(format: Format, version: nat, hyper: Hyper, items: seq<Item>, tensors: seq<Stored>)

  function HyperNumbers(h: Hyper): (r: seq<nat>)
    ensures |r| == 7
  {
    [h.nVocab, h.nEmbd, h.nMult, h.nHead, h.nLayer, h.nRot, h.ftype]
  }

  function HeaderOf(f: File): Header {
    Header(f.format, f.version, if f.format == GGML then 4 else 8)
  }

  function HeaderBytes(f: File): (b: Bytes)
    ensures |b| == HeaderOf(f).size
  {
    match f.format
    case GGML => MAGIC_GGML
    case GGMF => MAGIC_GGMF + U32Bytes(f.version)
    case GGJT => MAGIC_GGJT + U32Bytes(f.version)
  }

  /** Header, hyperparameters and vocabulary that a file of the format can hold and the converter can convert. */
  predicate HeadFormed(f: File) {
    && (if f.format == GGJT then 1 <= f.version <= 3 else f.version == 1)
    && Small(HyperNumbers(f.hyper)) && ValidFtype(f.hyper.ftype) && Convertible(HeaderOf(f), f.hyper.ftype)
    && f.hyper.nVocab == |f.items|
    && (forall i :: 0 <= i < |f.items| ==> GoodItem(f.items[i], f.format != GGML))
  }

  predicate WellFormed(f: File, types: TypeTable) {
    HeadFormed(f) && forall i :: 0 <= i < |f.tensors| ==> Fits(f.tensors[i], types)
  }

  function VocabStart(f: File): nat {
    HeaderOf(f).size + 28
  }

  function TensorStart(f: File): nat {
    VocabEnd(VocabStart(f), f.items, f.format != GGML)
  }

  function Write(f: File): Bytes {
    HeaderBytes(f)
    + (AllU32(HyperNumbers(f.hyper))
       + (WriteVocab(f.items, f.format != GGML) + WriteTensors(TensorStart(f), f.tensors, f.format == GGJT)))
  }

  lemma FileParts(f: File)
    ensures var data := Write(f);
            && Holds(data, 0, HeaderBytes(f)) && Holds(data, HeaderOf(f).size, AllU32(HyperNumbers(f.hyper)))
            && Holds(data, VocabStart(f), WriteVocab(f.items, f.format != GGML))
            && Holds(data, TensorStart(f), WriteTensors(TensorStart(f), f.tensors, f.format == GGJT))
            && TensorStart(f) + |WriteTensors(TensorStart(f), f.tensors, f.format == GGJT)| == |data|
  {
    var data := Write(f);
    var numbers, vocab := AllU32(HyperNumbers(f.hyper)), WriteVocab(f.items, f.format != GGML);
    var tensors := WriteTensors(TensorStart(f), f.tensors, f.format == GGJT);
    assert data[0..|data|] == data;
    HoldsFour(data, 0, HeaderBytes(f), numbers, vocab, tensors);
  }

  lemma MagicsDiffer()
    ensures MAGIC_GGUF != MAGIC_GGML && MAGIC_GGUF != MAGIC_GGMF && MAGIC_GGUF != MAGIC_GGJT
    ensures MAGIC_GGML != MAGIC_GGMF && MAGIC_GGML != MAGIC_GGJT && MAGIC_GGMF != MAGIC_GGJT
  {
    assert MAGIC_GGUF[0] == 0x47 && MAGIC_GGML[0] == 0x6c && MAGIC_GGMF[0] == 0x66 && MAGIC_GGJT[0] == 0x74;
  }

  lemma ReadsHeader(data: Bytes, f: File)
    requires Holds(data, 0, HeaderBytes(f)) && (if f.format == GGJT then 1 <= f.version <= 3 else f.version == 1)
    ensures ReadHeader(data, 0) == Some(HeaderOf(f))
  {
    MagicsDiffer();
    match f.format
    case GGML =>
      SliceHolds(data, 0, MAGIC_GGML);
    case GGMF =>
      HoldsBoth(data, 0, MAGIC_GGMF, U32Bytes(f.version));
      SliceHolds(data, 0, MAGIC_GGMF);
      ReadsU32(data, 4, f.version);
    case GGJT =>
      HoldsBoth(data, 0, MAGIC_GGJT, U32Bytes(f.version));
      SliceHolds(data, 0, MAGIC_GGJT);
      ReadsU32(data, 4, f.version);
  }

  /** The k-th number of a list in the data. */
  lemma {:induction false} NumberAt(data: Bytes, o: nat, ns: seq<nat>, k: nat)
    requires Small(ns) && Holds(data, o, AllU32(ns)) && k < |ns|
    ensures o + 4 * k + 4 <= |data| && U32At(data, o + 4 * k) == ns[k]
    decreases k
  {
    HoldsBoth(data, o, U32Bytes(ns[0]), AllU32(ns[1..]));
    if k == 0 {
      ReadsU32(data, o, ns[0]);
    } else {
      NumberAt(data, o + 4, ns[1..], k - 1);
    }
  }

  lemma ReadsHyper(data: Bytes, o: nat, h: Hyper)
    requires Small(HyperNumbers(h)) && ValidFtype(h.ftype) && Holds(data, o, AllU32(HyperNumbers(h)))
    ensures ReadHyper(data, o) == Some(h)
  {
    var ns := HyperNumbers(h);
    NumberAt(data, o, ns, 0);
    NumberAt(data, o, ns, 1);
    NumberAt(data, o, ns, 2);
    NumberAt(data, o, ns, 3);
    NumberAt(data, o, ns, 4);
    NumberAt(data, o, ns, 5);
    NumberAt(data, o, ns, 6);
  }

  lemma ReadsHeads(data: Bytes, f: File)
    requires HeadFormed(f) && data == Write(f)
    ensures ReadHeads(data, 0) == Some((HeaderOf(f), f.hyper, VocabStart(f)))
  {
    FileParts(f);
    ReadsHeader(data, f);
    ReadsHyper(data, HeaderOf(f).size, f.hyper);
  }

  lemma ReadsContents(data: Bytes, f: File, types: TypeTable, rounds: nat)
    requires WellFormed(f, types) && data == Write(f) && |data| < TWO_63 && rounds >= |f.tensors|
    ensures ReadContents(data, VocabStart(f), HeaderOf(f), f.hyper, types, rounds) == Expected(f)
  {
    FileParts(f);
    ReadsVocab(data, VocabStart(f), f.items, f.format != GGML);
    ContentsFrom(data, VocabStart(f), HeaderOf(f), f.hyper, types, rounds, f.items, TensorStart(f));
    ReadsTensors(data, TensorStart(f), f.tensors, f.format == GGJT, types, rounds);
  }

  /** The model a file stands for; an exception if it lacks the tensor that gives the feed-forward size. */
  function Expected(f: File): Outcome<Model> {
    Finished(HeaderOf(f), f.hyper, f.items, Places(TensorStart(f), f.tensors, f.format == GGJT), |Write(f)|)
  }

  /**
   * Reading a written file, which is smaller than 2^63 bytes, takes one round for each tensor, gives back its header,
   * hyperparameters and vocabulary, every tensor's name, dimensions and type, and ends exactly at the end of the file.
   */
  lemma RoundTrip(f: File, types: TypeTable, rounds: nat)
    requires WellFormed(f, types) && |Write(f)| < TWO_63 && rounds >= |f.tensors|
    ensures ReadModel(Write(f), 0, types, rounds) == Expected(f)
  {
    ReadsHeads(Write(f), f);
    ReadsContents(Write(f), f, types, rounds);
  }

  /** And the bytes of every tensor are where the model says. */
  lemma RoundTripData(f: File, i: nat)
    requires Expected(f).Done? && i < |f.tensors|
    ensures |Expected(f).value.tensors| == |f.tensors|
    ensures var t := Expected(f).value.tensors[i];
            t.name == f.tensors[i].name && t.dims == f.tensors[i].dims && t.dtype == f.tensors[i].dtype
            && t.start >= 0 && Holds(Write(f), t.start, f.tensors[i].data) && t.size == |f.tensors[i].data|
  {
    FileParts(f);
    PlacesHoldData(Write(f), TensorStart(f), f.tensors, f.format == GGJT, i);
  }
}
