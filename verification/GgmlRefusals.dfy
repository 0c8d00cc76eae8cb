/**
 * Which files of the legacy formats the reader refuses, and where it takes the feed-forward size from, said of the bytes
 * written and the tensors read.
 */
module GgmlRefusals {
  import opened StringUtils
  import opened GgmlFormat
  import opened GgmlRoundTrip

  // ----- names and magics, spelled out -----

  predicate Spells(b: Bytes, s: string) {
    |b| == |s| && forall k :: 0 <= k < |s| ==> b[k] == s[k] as int
  }

  const FEED_FORWARD := "layers.0.feed_forward.w1.weight"

  lemma ConstantsAreSpelled(b: Bytes)
    ensures b == FF_NAME <==> Spells(b, FEED_FORWARD)
    ensures b == MAGIC_GGUF <==> Spells(b, "GGUF")
    ensures b == MAGIC_GGML <==> Spells(b, "lmgg")
    ensures b == MAGIC_GGMF <==> Spells(b, "fmgg")
    ensures b == MAGIC_GGJT <==> Spells(b, "tjgg")
  {
    NameIsSpelled();
    if Spells(b, FEED_FORWARD) {
      assert b == FF_NAME;
    }
  }

  lemma NameIsSpelled()
    ensures Spells(FF_NAME, FEED_FORWARD)
  {
    forall k | 0 <= k < |FEED_FORWARD| ensures FF_NAME[k] == FEED_FORWARD[k] as int {
    }
  }

  /** No other file is read. */
  lemma OtherMagicRaises(data: Bytes, o: nat, types: TypeTable, rounds: nat)
    requires !Spells(Slice(data, o, 4), "lmgg") && !Spells(Slice(data, o, 4), "fmgg") && !Spells(Slice(data, o, 4), "tjgg")
    ensures ReadModel(data, o, types, rounds).Exception?
  {
    ConstantsAreSpelled(Slice(data, o, 4));
  }

  // ----- the feed-forward size -----

  /** The last tensor with the name. */
  predicate LastNamed(names: seq<Bytes>, i: nat) {
    && i < |names| && Spells(names[i], FEED_FORWARD)
    && forall k :: i < k < |names| ==> !Spells(names[k], FEED_FORWARD)
  }

  function NamesOf(tensors: seq<TensorInfo>): (names: seq<Bytes>)
    ensures |names| == |tensors| && forall i :: 0 <= i < |names| ==> names[i] == tensors[i].name
  {
    seq(|tensors|, i requires 0 <= i < |tensors| => tensors[i].name)
  }

  lemma {:induction false} MapHasLast(tensors: seq<TensorInfo>, name: Bytes)
    ensures name in TensorMap(tensors) <==> exists i :: 0 <= i < |tensors| && tensors[i].name == name
    ensures name in TensorMap(tensors) ==> forall k :: TensorMap(tensors)[name] < k < |tensors| ==> tensors[k].name != name
    decreases |tensors|
  {
    if tensors != [] {
      MapHasLast(tensors[..|tensors| - 1], name);
    }
  }

  /** The size is found exactly if the last tensor with the name has two dimensions, and is the second. */
  lemma FeedForwardExactlyWhen(tensors: seq<TensorInfo>)
    ensures FeedForwardSize(tensors).Some? <==> exists i: nat :: LastNamed(NamesOf(tensors), i) && |tensors[i].dims| >= 2
    ensures forall i: nat :: LastNamed(NamesOf(tensors), i) && |tensors[i].dims| >= 2 ==>
              FeedForwardSize(tensors) == Some(tensors[i].dims[1])
  {
    MapHasLast(tensors, FF_NAME);
    NameIsSpelled();
    forall i: nat | i < |tensors| ensures tensors[i].name == FF_NAME <==> Spells(tensors[i].name, FEED_FORWARD) {
      ConstantsAreSpelled(tensors[i].name);
    }
    if FF_NAME in TensorMap(tensors) {
      assert LastNamed(NamesOf(tensors), TensorMap(tensors)[FF_NAME]);
    }
  }

  /** In every model that is read, the feed-forward size is the second dimension of the last tensor with the name. */
  lemma FeedForwardIsSecond(data: Bytes, o: nat, types: TypeTable, rounds: nat) returns (i: nat)
    requires ReadModel(data, o, types, rounds).Done?
    ensures var m := ReadModel(data, o, types, rounds).value;
            LastNamed(NamesOf(m.tensors), i) && |m.tensors[i].dims| >= 2 && m.nFf == m.tensors[i].dims[1]
  {
    var m := ReadModel(data, o, types, rounds).value;
    FeedForwardExactlyWhen(m.tensors);
    i :| LastNamed(NamesOf(m.tensors), i) && |m.tensors[i].dims| >= 2;
  }

  // ----- which files are refused -----

  /** Numbers that fit where they are written, and data of the size that type and dimensions say. */
  predicate Storable(t: Stored, types: TypeTable) {
    && |t.dims| < TWO_32 && Small(t.dims) && |t.name| < TWO_32 && t.dtype < TWO_32
    && (t.dtype in types.known && |t.dims| <= 4 ==> types.bytes(t.dtype, t.dims) == |t.data|)
  }

  predicate StorableItem(item: Item, scores: bool) {
    |item.text| < TWO_32 && |item.score| == 4 && (!scores ==> item.score == ZERO_SCORE)
  }

  /** A file that can be written, whether or not it can be read. */
  predicate StorableFile(f: File, types: TypeTable) {
    && f.version < TWO_32 && (f.format == GGML ==> f.version == 1)
    && Small(HyperNumbers(f.hyper)) && f.hyper.nVocab == |f.items|
    && (forall i :: 0 <= i < |f.items| ==> StorableItem(f.items[i], f.format != GGML))
    && (forall i :: 0 <= i < |f.tensors| ==> Storable(f.tensors[i], types))
  }

  predicate VersionRefused(f: File) {
    f.version != 1 && !(f.format == GGJT && (f.version == 2 || f.version == 3))
  }

  /** The numbers that are no file type at all; the types 5 and 6 were dropped. */
  predicate UnknownType(ftype: nat) {
    ftype == 5 || ftype == 6 || ftype > 18
  }

  /**
   * Quantized files (types from 2 on) older than the second version of GGJT; and in the second version those with Q4_0, Q4_1,
   * Q4_1 with some F16, and Q8_0.
   */
  predicate ConversionRefused(f: File) {
    || (f.hyper.ftype >= 2 && (f.format == GGML || f.format == GGMF || f.version == 1))
    || (f.hyper.ftype in {2, 3, 4, 7} && f.format == GGJT && f.version == 2)
  }

  predicate TensorRefused(t: Stored, types: TypeTable) {
    |t.dims| > 4 || |t.name| > 4095 || t.dtype !in types.known
  }

  function StoredNames(ts: seq<Stored>): (names: seq<Bytes>)
    ensures |names| == |ts| && forall i :: 0 <= i < |names| ==> names[i] == ts[i].name
  {
    seq(|ts|, i requires 0 <= i < |ts| => ts[i].name)
  }

  /** No tensor has the name, or the last one with it has fewer than two dimensions. */
  predicate LacksFeedForward(f: File) {
    forall i :: 0 <= i < |f.tensors| && LastNamed(StoredNames(f.tensors), i) ==> |f.tensors[i].dims| < 2
  }

  predicate Refused(f: File, types: TypeTable) {
    || VersionRefused(f) || UnknownType(f.hyper.ftype) || ConversionRefused(f)
    || (exists i :: 0 <= i < |f.items| && |f.items[i].text| > 4095)
    || (exists i :: 0 <= i < |f.tensors| && TensorRefused(f.tensors[i], types))
    || LacksFeedForward(f)
  }

  // header and hyperparameters

  lemma RefusedHeader(data: Bytes, f: File)
    requires Holds(data, 0, HeaderBytes(f)) && f.version < TWO_32 && (f.format == GGML ==> f.version == 1)
    ensures ReadHeader(data, 0) == if VersionRefused(f) then None else Some(HeaderOf(f))
  {
    if !VersionRefused(f) {
      ReadsHeader(data, f);
    } else {
      MagicsDiffer();
      var magic := if f.format == GGMF then MAGIC_GGMF else MAGIC_GGJT;
      HoldsBoth(data, 0, magic, U32Bytes(f.version));
      SliceHolds(data, 0, magic);
      ReadsU32(data, 4, f.version);
    }
  }

  lemma RefusedHyper(data: Bytes, o: nat, h: Hyper)
    requires Small(HyperNumbers(h)) && Holds(data, o, AllU32(HyperNumbers(h)))
    ensures ReadHyper(data, o) == if UnknownType(h.ftype) then None else Some(h)
  {
    if UnknownType(h.ftype) {
      NumberAt(data, o, HyperNumbers(h), 6);
    } else {
      ReadsHyper(data, o, h);
    }
  }

  lemma ConvertibleExactlyWhen(f: File)
    requires !VersionRefused(f) && !UnknownType(f.hyper.ftype)
    ensures Convertible(HeaderOf(f), f.hyper.ftype) <==> !ConversionRefused(f)
  {
  }

  lemma HeadsFail(data: Bytes)
    requires ReadHeader(data, 0).None? || ReadHyper(data, ReadHeader(data, 0).value.size).None?
    ensures ReadHeads(data, 0).None?
  {
  }

  lemma HeadsAre(data: Bytes, header: Header, hyper: Hyper)
    requires ReadHeader(data, 0) == Some(header) && ReadHyper(data, header.size) == Some(hyper)
    ensures ReadHeads(data, 0) == if Convertible(header, hyper.ftype) then Some((header, hyper, header.size + 28)) else None
  {
  }

  lemma HeadsOfFile(data: Bytes, f: File, types: TypeTable)
    requires StorableFile(f, types) && data == Write(f)
    ensures ReadHeader(data, 0) == if VersionRefused(f) then None else Some(HeaderOf(f))
    ensures ReadHyper(data, HeaderOf(f).size) == if UnknownType(f.hyper.ftype) then None else Some(f.hyper)
  {
    FileParts(f);
    RefusedHeader(data, f);
    RefusedHyper(data, HeaderOf(f).size, f.hyper);
  }

  lemma RefusedHeads(data: Bytes, f: File, types: TypeTable)
    requires StorableFile(f, types) && data == Write(f)
    ensures ReadHeads(data, 0) == if VersionRefused(f) || UnknownType(f.hyper.ftype) || ConversionRefused(f) then None
                                  else Some((HeaderOf(f), f.hyper, VocabStart(f)))
  {
    HeadsOfFile(data, f, types);
    if VersionRefused(f) || UnknownType(f.hyper.ftype) {
      HeadsFail(data);
    } else {
      ConvertibleExactlyWhen(f);
      HeadsAre(data, HeaderOf(f), f.hyper);
    }
  }

  // vocabulary

  lemma RefusedItem(data: Bytes, o: nat, item: Item, scores: bool)
    requires StorableItem(item, scores) && |item.text| > 4095 && Holds(data, o, WriteItem(item, scores))
    ensures ReadItem(data, o, scores).None?
  {
    HoldsBoth(data, o, U32Bytes(|item.text|), item.text + ScoreBytes(item, scores));
    ReadsU32(data, o, |item.text|);
  }

  lemma NothingMore(data: Bytes, o: nat, n: nat, more: nat, scores: bool)
    requires more == n + 1 && ReadVocab(data, o, n, scores).None?
    ensures ReadVocab(data, o, more, scores).None?
  {
  }

  /** The items up to the first one refused. */
  lemma RefusedAtEnd(data: Bytes, o: nat, items: seq<Item>, scores: bool, k: nat)
    requires k + 1 == |items| && StorableItem(items[k], scores) && |items[k].text| > 4095
    requires (forall j :: 0 <= j < k ==> GoodItem(items[j], scores)) && Holds(data, o, WriteVocab(items, scores))
    ensures ReadVocab(data, o, |items|, scores).None?
  {
    var n, before, last := |items|, items[..k], VocabEnd(o, items[..k], scores);
    LastItem(data, o, items, scores, k);
    ReadsVocab(data, o, before, scores);
    RefusedItem(data, last, items[k], scores);
    VocabMore(data, o, k, n, scores, before, last);
  }

  lemma {:induction false} RefusedVocab(data: Bytes, o: nat, items: seq<Item>, scores: bool, k: nat)
    requires k < |items| && Holds(data, o, WriteVocab(items, scores))
    requires forall j :: 0 <= j < k ==> GoodItem(items[j], scores)
    requires StorableItem(items[k], scores) && |items[k].text| > 4095
    ensures ReadVocab(data, o, |items|, scores).None?
    decreases |items|
  {
    var n, last := |items|, |items| - 1;
    if k == last {
      RefusedAtEnd(data, o, items, scores, k);
    } else {
      LastItem(data, o, items, scores, last);
      RefusedVocab(data, o, items[..last], scores, k);
      NothingMore(data, o, last, n, scores);
    }
  }

  lemma FirstLong(items: seq<Item>) returns (k: nat)
    requires exists i :: 0 <= i < |items| && |items[i].text| > 4095
    ensures k < |items| && |items[k].text| > 4095 && forall j :: 0 <= j < k ==> |items[j].text| <= 4095
  {
    k := 0;
    while |items[k].text| <= 4095
      invariant k < |items| && forall j :: 0 <= j < k ==> |items[j].text| <= 4095
      decreases |items| - k
    {
      k := k + 1;
    }
  }

  // tensors

  lemma RefusedTensor(data: Bytes, o: nat, t: Stored, padding: bool, types: TypeTable)
    requires Storable(t, types) && TensorRefused(t, types) && Holds(data, o, WriteTensor(o, t, padding))
    ensures ReadTensor(data, o, padding, types).None?
  {
    WrittenParts(data, o, t, padding);
    ReadsHead(data, o, t);
  }

  lemma FirstRaises(rs: Records, o: int, rounds: nat)
    requires o < rs.size && rounds > 0 && rs.at(o).None?
    ensures ReadAll(rs, o, rounds).Exception?
  {
  }

  lemma LaterRaises(data: Bytes, o: nat, t: Stored, padding: bool, types: TypeTable, rounds: nat, left: nat, next: nat)
    requires Fits(t, types) && Holds(data, o, WriteTensor(o, t, padding)) && next == EndOf(o, t, padding) <= |data| < TWO_63
    requires o < |data| && rounds == left + 1 && ReadAll(RecordsOf(data, padding, types), next, left).Exception?
    ensures ReadAll(RecordsOf(data, padding, types), o, rounds).Exception?
  {
    ReadsTensor(data, o, t, padding, types);
    OneRound(RecordsOf(data, padding, types), o, left, PlaceOf(o, t, padding), next);
  }

  /** The tensors before the first one refused are read, and that one raises. */
  lemma {:induction false} RefusedTensors(data: Bytes, o: nat, ts: seq<Stored>, padding: bool, types: TypeTable, rounds: nat, i: nat)
    requires i < |ts| <= rounds && Storable(ts[i], types) && TensorRefused(ts[i], types)
    requires forall k :: 0 <= k < i ==> Fits(ts[k], types)
    requires Holds(data, o, WriteTensors(o, ts, padding)) && |data| < TWO_63
    ensures ReadAll(RecordsOf(data, padding, types), o, rounds).Exception?
    decreases i
  {
    var next := FirstAndRest(data, o, ts, padding);
    if i == 0 {
      RefusedTensor(data, o, ts[0], padding, types);
      FirstRaises(RecordsOf(data, padding, types), o, rounds);
    } else {
      var left, rest, j := rounds - 1, ts[1..], i - 1;
      RefusedTensors(data, next, rest, padding, types, left, j);
      LaterRaises(data, o, ts[0], padding, types, rounds, left, next);
    }
  }

  lemma FirstRefused(ts: seq<Stored>, types: TypeTable) returns (k: nat)
    requires exists i :: 0 <= i < |ts| && TensorRefused(ts[i], types)
    ensures k < |ts| && TensorRefused(ts[k], types) && forall j :: 0 <= j < k ==> !TensorRefused(ts[j], types)
  {
    k := 0;
    while !TensorRefused(ts[k], types)
      invariant k < |ts| && forall j :: 0 <= j < k ==> !TensorRefused(ts[j], types)
      decreases |ts| - k
    {
      k := k + 1;
    }
  }

  // whole files

  lemma {:induction false} PlacesAreStored(o: nat, ts: seq<Stored>, padding: bool, i: nat)
    requires i < |ts|
    ensures Places(o, ts, padding)[i].name == ts[i].name && Places(o, ts, padding)[i].dims == ts[i].dims
    decreases i
  {
    if i > 0 {
      PlacesAreStored(EndOf(o, ts[0], padding), ts[1..], padding, i - 1);
    }
  }

  lemma PlacesAreNamed(o: nat, ts: seq<Stored>, padding: bool)
    ensures NamesOf(Places(o, ts, padding)) == StoredNames(ts)
  {
    forall i | 0 <= i < |ts| ensures NamesOf(Places(o, ts, padding))[i] == StoredNames(ts)[i] {
      PlacesAreStored(o, ts, padding, i);
    }
  }

  lemma FeedForwardOfFile(f: File)
    ensures Expected(f).Done? <==> !LacksFeedForward(f)
    ensures !Expected(f).Running?
    ensures forall i: nat :: Expected(f).Done? && LastNamed(StoredNames(f.tensors), i) ==>
              |f.tensors[i].dims| >= 2 && Expected(f).value.nFf == f.tensors[i].dims[1]
  {
    var places := Places(TensorStart(f), f.tensors, f.format == GGJT);
    FeedForwardExactlyWhen(places);
    PlacesAreNamed(TensorStart(f), f.tensors, f.format == GGJT);
    forall i: nat | i < |f.tensors| ensures places[i].dims == f.tensors[i].dims {
      PlacesAreStored(TensorStart(f), f.tensors, f.format == GGJT, i);
    }
  }

  lemma AcceptedIsWellFormed(f: File, types: TypeTable)
    requires StorableFile(f, types) && !VersionRefused(f) && !UnknownType(f.hyper.ftype) && !ConversionRefused(f)
    requires forall i :: 0 <= i < |f.items| ==> |f.items[i].text| <= 4095
    requires forall i :: 0 <= i < |f.tensors| ==> !TensorRefused(f.tensors[i], types)
    ensures WellFormed(f, types)
  {
    ConvertibleExactlyWhen(f);
  }

  lemma RefusedContents(data: Bytes, f: File, types: TypeTable, rounds: nat)
    requires StorableFile(f, types) && data == Write(f) && |data| < TWO_63 && rounds >= |f.tensors|
    requires || (exists i :: 0 <= i < |f.items| && |f.items[i].text| > 4095)
             || (exists i :: 0 <= i < |f.tensors| && TensorRefused(f.tensors[i], types))
    ensures ReadContents(data, VocabStart(f), HeaderOf(f), f.hyper, types, rounds).Exception?
  {
    FileParts(f);
    if exists i :: 0 <= i < |f.items| && |f.items[i].text| > 4095 {
      var i := FirstLong(f.items);
      RefusedVocab(data, VocabStart(f), f.items, f.format != GGML, i);
    } else {
      var i := FirstRefused(f.tensors, types);
      ReadsVocab(data, VocabStart(f), f.items, f.format != GGML);
      ContentsFrom(data, VocabStart(f), HeaderOf(f), f.hyper, types, rounds, f.items, TensorStart(f));
      RefusedTensors(data, TensorStart(f), f.tensors, f.format == GGJT, types, rounds, i);
    }
  }

  /**
   * For every file that can be written: reading it raises exactly if it is refused, and otherwise is done after as many rounds
   * as there are tensors, with the second dimension of the last tensor with the name as the feed-forward size.
   */
  lemma ReadRaisesExactlyWhen(f: File, types: TypeTable, rounds: nat)
    requires StorableFile(f, types) && |Write(f)| < TWO_63 && rounds >= |f.tensors|
    ensures var r := ReadModel(Write(f), 0, types, rounds);
            && (r.Exception? <==> Refused(f, types)) && (r.Done? <==> !Refused(f, types))
            && forall i: nat :: r.Done? && LastNamed(StoredNames(f.tensors), i) ==>
                 |f.tensors[i].dims| >= 2 && r.value.nFf == f.tensors[i].dims[1]
  {
    var data := Write(f);
    RefusedHeads(data, f, types);
    if VersionRefused(f) || UnknownType(f.hyper.ftype) || ConversionRefused(f) {
      assert ReadModel(data, 0, types, rounds).Exception?;
    } else if || (exists i :: 0 <= i < |f.items| && |f.items[i].text| > 4095)
              || (exists i :: 0 <= i < |f.tensors| && TensorRefused(f.tensors[i], types)) {
      RefusedContents(data, f, types, rounds);
    } else {
      AcceptedIsWellFormed(f, types);
      RoundTrip(f, types, rounds);
      FeedForwardOfFile(f);
    }
  }
}
