/** The reader of the legacy GGML formats: objects that load themselves from the bytes at an offset. */
module GgmlReader {
  import opened StringUtils
  import opened GgmlFormat

  class Hyperparameters {
    var nVocab: nat
    var nEmbd: nat
    var nMult: nat
    var nHead: nat
    var nLayer: nat
    var nRot: nat
    var nFf: nat
    var ftype: nat

    constructor ()
      ensures nFf == 0
    {
      nVocab, nEmbd, nMult, nHead := 0, 0, 0, 0;
      nLayer, nRot, nFf, ftype := 0, 0, 0, 0;
    }

    function Loaded(): Hyper
      reads this
    {
      Hyper(nVocab, nEmbd, nMult, nHead, nLayer, nRot, ftype)
    }

    /** The number of bytes read. */
    method Load(data: Bytes, offset: nat) returns (r: Option<nat>)
      modifies this
      ensures r.Some? <==> ReadHyper(data, offset).Some?
      ensures r.Some? ==> r.value == 28 && Loaded() == ReadHyper(data, offset).value
    {
      if offset + 28 > |data| {
        return None;
      }
      nVocab, nEmbd, nMult := U32At(data, offset), U32At(data, offset + 4), U32At(data, offset + 8);
      nHead, nLayer, nRot := U32At(data, offset + 12), U32At(data, offset + 16), U32At(data, offset + 20);
      var kind := U32At(data, offset + 24);
      if !ValidFtype(kind) {
        return None;
      }
      ftype := kind;
      return Some(28);
    }

    /** set_n_ff: from the dimensions of a tensor every model has. */
    method SetNFf(tensors: seq<GgmlTensor>, tensorMap: map<Bytes, nat>, ghost infos: seq<TensorInfo>) returns (found: bool)
      requires Describe(tensors, infos) && tensorMap == TensorMap(infos)
      modifies this`nFf
      ensures found <==> FeedForwardSize(infos).Some?
      ensures found ==> nFf == FeedForwardSize(infos).value
    {
      var name := FF_NAME;
      if name !in tensorMap {
        return false;
      }
      ghost var info := infos[tensorMap[name]];
      var tensor := tensors[tensorMap[name]];
      assert tensor.Info() == info;
      if |tensor.dims| < 2 {
        return false;
      }
      nFf := tensor.dims[1];
      return true;
    }
  }

  class Vocab {
    const loadScores: bool
    var items: seq<Item>

    constructor (scores: bool)
      ensures loadScores == scores && items == []
    {
      loadScores, items := scores, [];
    }

    method LoadItem(data: Bytes, offset: nat) returns (r: Option<nat>)
      modifies this
      ensures var read := ReadItem(data, offset, loadScores);
              && (r.Some? <==> read.Some?)
              && (r.Some? ==> r.value == read.value.1 && items == old(items) + [read.value.0])
    {
      var itemlen := ReadU32(data, offset);
      if itemlen.None? {
        return None;
      }
      if itemlen.value >= 4096 {
        return None;
      }
      var at := offset + 4;
      var text := Slice(data, at, itemlen.value);
      at := at + itemlen.value;
      var score := ZERO_SCORE;
      if loadScores {
        if at + 4 > |data| {
          return None;
        }
        score := data[at..at + 4];
        at := at + 4;
      }
      items := items + [Item(text, score)];
      return Some(at);
    }

    /** The number of bytes read; the items are added in the order of the file. */
    method Load(data: Bytes, offset: nat, n: nat) returns (r: Option<nat>)
      requires items == []
      modifies this
      ensures var read := ReadVocab(data, offset, n, loadScores);
              && (r.Some? <==> read.Some?)
              && (r.Some? ==> offset + r.value == read.value.1 && items == read.value.0)
    {
      var at, i := offset, 0;
      while i < n
        invariant at >= offset && i <= n
        invariant Gives(ReadVocab(data, offset, i, loadScores), items, at)
      {
        var k := i + 1;
        VocabMore(data, offset, i, k, loadScores, items, at);
        var next := LoadItem(data, at);
        if next.None? {
          VocabStaysFailed(data, offset, k, n, loadScores);
          return None;
        }
        at, i := next.value, k;
      }
      return Some(at - offset);
    }
  }

  lemma {:induction false} VocabStaysFailed(data: Bytes, o: nat, k: nat, n: nat, scores: bool)
    requires k <= n && ReadVocab(data, o, k, scores).None?
    ensures ReadVocab(data, o, n, scores).None?
    decreases n
  {
    if k < n {
      VocabStaysFailed(data, o, k, n - 1, scores);
    }
  }

  class GgmlTensor {
    const usePadding: bool
    var name: Bytes
    var dims: seq<nat>
    var dtype: nat
    var startOffset: int
    var lenBytes: int

    constructor (padding: bool)
      ensures usePadding == padding
    {
      usePadding := padding;
      name, dims, dtype, startOffset, lenBytes := [], [], 0, 0, 0;
    }

    ghost function Info(): TensorInfo
      reads this
    {
      TensorInfo(name, dims, dtype, startOffset, lenBytes)
    }

    /** Type, dimensions and name, and the offset of the padding. */
    method LoadHead(data: Bytes, offset: int, types: TypeTable) returns (r: Option<int>, ghost head: RecordHead)
      modifies this`dtype, this`dims, this`name
      ensures r.None? ==> ReadTensor(data, offset, usePadding, types).None?
      ensures r.Some? ==>
                && ReadHead(data, offset) == Some(head) && ReadU32s(data, offset + 12, head.nDims) == Some(dims)
                && head.nDims <= 4 && head.nameLen < 4096 && head.dtype in types.known && dtype == head.dtype
                && name == Slice(data, NameAt(offset, head), head.nameLen) && r.value == AfterName(offset, head)
    {
      head := RecordHead(0, 0, 0);
      var read := ReadHead(data, offset);
      if read.None? {
        return None, head;
      }
      head := read.value;
      var nDims, nameLen, kind := read.value.nDims, read.value.nameLen, read.value.dtype;
      if nDims > 4 || nameLen >= 4096 || kind !in types.known {
        return None, head;
      }
      var at := offset + 12;
      dtype := kind;
      var sizes := ReadU32s(data, at, nDims);
      if sizes.None? {
        return None, head;
      }
      dims := sizes.value;
      at := at + 4 * nDims;
      name := Slice(data, at, nameLen);
      return Some(at + nameLen), head;
    }

    /** The place of the data behind the padding, and the offset after it. */
    method LoadPlace(at: int, types: TypeTable) returns (next: int)
      modifies this`startOffset, this`lenBytes
      ensures startOffset == DataAt(at, usePadding) && lenBytes == types.bytes(dtype, dims)
      ensures next == Next(Info())
    {
      var pad := PadFor(at, usePadding);
      startOffset := at + pad;
      lenBytes := types.bytes(dtype, dims);
      next := Wrap64(startOffset + lenBytes);
    }

    /** The length of the record, in 64 bits. */
    method Load(data: Bytes, offset: int, types: TypeTable) returns (r: Option<int>)
      modifies this
      ensures var read := ReadTensor(data, offset, usePadding, types);
              && (r.Some? <==> read.Some?)
              && (r.Some? ==> Advance(offset, r.value) == read.value.1 && Info() == read.value.0)
    {
      var at;
      ghost var head;
      at, head := LoadHead(data, offset, types);
      if at.None? {
        return None;
      }
      var next := LoadPlace(at.value, types);
      RecordRead(data, offset, usePadding, types, head, dims);
      AdvanceDistance(offset, next);
      return Some(Distance(offset, next));
    }
  }

  class GgmlModel {
    var header: Header
    var hyperparameters: Hyperparameters?
    var vocab: Vocab?
    var tensors: seq<GgmlTensor>
    var tensorMap: map<Bytes, nat>

    constructor ()
      ensures hyperparameters == null && vocab == null && tensors == [] && tensorMap == map[]
    {
      header, hyperparameters, vocab, tensors, tensorMap := Header(GGML, 1, 4), null, null, [], map[];
    }

    /** The object holds the model read. */
    ghost predicate Holds(m: Model)
      reads this, hyperparameters, vocab, tensors
    {
      && header == m.header
      && hyperparameters != null && hyperparameters.Loaded() == m.hyper && hyperparameters.nFf == m.nFf
      && vocab != null && vocab.items == m.items
      && Describe(tensors, m.tensors) && tensorMap == TensorMap(m.tensors)
    }

    /** The number of bytes read. */
    method ValidateHeader(data: Bytes, offset: nat) returns (r: Option<nat>)
      modifies this`header
      ensures r.Some? <==> ReadHeader(data, offset).Some?
      ensures r.Some? ==> header == ReadHeader(data, offset).value && r.value == header.size
    {
      var magic := Slice(data, offset, 4);
      if magic == MAGIC_GGUF {
        return None;
      }
      if magic == MAGIC_GGML {
        header := Header(GGML, 1, 4);
        return Some(4);
      }
      var version := ReadU32(data, offset + 4);
      if version.None? {
        return None;
      }
      if magic == MAGIC_GGMF {
        if version.value != 1 {
          return None;
        }
        header := Header(GGMF, version.value, 8);
        return Some(8);
      }
      if magic == MAGIC_GGJT {
        if version.value < 1 || version.value > 3 {
          return None;
        }
        header := Header(GGJT, version.value, 8);
        return Some(8);
      }
      return None;
    }

    method LoadTensor(data: Bytes, offset: int, padding: bool, types: TypeTable) returns (r: Option<int>, tensor: GgmlTensor)
      ensures fresh(tensor)
      ensures var read := ReadTensor(data, offset, padding, types);
              && (r.Some? <==> read.Some?)
              && (r.Some? ==> Advance(offset, r.value) == read.value.1 && tensor.Info() == read.value.0)
    {
      tensor := new GgmlTensor(padding);
      r := tensor.Load(data, offset, types);
    }

    /**
     * The loop over the records, watched for a number of rounds: the tensors, the last of each name, and the offset after
     * them; an exception; or that it still runs.
     */
    method LoadTensors(data: Bytes, from: nat, padding: bool, types: TypeTable, rounds: nat)
      returns (r: Outcome<int>, ts: seq<GgmlTensor>, index: map<Bytes, nat>, ghost infos: seq<TensorInfo>)
      ensures fresh(ts) && Describe(ts, infos) && index == TensorMap(infos)
      ensures var read := ReadAll(RecordsOf(data, padding, types), from, rounds);
              && (r.Running? <==> read.Running?) && (r.Exception? <==> read.Exception?)
              && (r.Done? ==> Ends(read, infos, r.value))
    {
      ghost var rs := RecordsOf(data, padding, types);
      ghost var whole := ReadAll(rs, from, rounds);
      var offset, left := from as int, rounds;
      ts, index, infos := [], map[], [];
      ContinuedNothing(whole);
      while offset < |data| && left > 0
        invariant fresh(ts) && Describe(ts, infos) && index == TensorMap(infos)
        invariant whole == Continued(infos, ReadAll(rs, offset, left))
        decreases left
      {
        var consumed, tensor := LoadTensor(data, offset, padding, types);
        if consumed.None? {
          r := Exception;
          return;
        }
        ghost var info, before := tensor.Info(), offset;
        offset := Advance(offset, consumed.value);
        ghost var watched := left;
        left := left - 1;
        ContinuedStep(infos, info, rs, before, offset, watched, left);
        TensorMapSnoc(infos, info);
        index := index[tensor.name := |ts|];
        ts, infos := ts + [tensor], infos + [info];
      }
      assert infos + [] == infos;
      r := if offset < |data| then Running else Done(offset);
    }

    /** Vocabulary and tensors, from where they begin. */
    method LoadContents(data: Bytes, offset: nat, h: Header, hyper: Hyper, types: TypeTable, rounds: nat)
      returns (r: Outcome<int>, v: Vocab, ts: seq<GgmlTensor>, index: map<Bytes, nat>, ghost infos: seq<TensorInfo>)
      ensures fresh(v) && fresh(ts) && Describe(ts, infos) && index == TensorMap(infos)
      ensures var read := ReadContents(data, offset, h, hyper, types, rounds);
              && (r.Running? ==> read.Running?) && (r.Exception? ==> read.Exception?)
              && (r.Done? ==> read == Finished(h, hyper, v.items, infos, r.value))
    {
      v := new Vocab(h.format != GGML);
      ts, index, infos := [], map[], [];
      var vocabSize := v.Load(data, offset, hyper.nVocab);
      if vocabSize.None? {
        r := Exception;
        return;
      }
      var at := offset + vocabSize.value;
      r, ts, index, infos := LoadTensors(data, at, h.format == GGJT, types, rounds);
      ContentsFrom(data, offset, h, hyper, types, rounds, v.items, at);
    }

    /** Header and hyperparameters, and the offset after them. */
    method LoadHeads(data: Bytes, offset: nat) returns (r: Option<nat>, hp: Hyperparameters)
      modifies this`header
      ensures fresh(hp)
      ensures r.Some? <==> ReadHeads(data, offset).Some?
      ensures r.Some? ==> ReadHeads(data, offset) == Some((header, hp.Loaded(), r.value))
    {
      hp := new Hyperparameters();
      var headerSize := ValidateHeader(data, offset);
      if headerSize.None? {
        return None, hp;
      }
      var at := offset + headerSize.value;
      var hyperSize := hp.Load(data, at);
      if hyperSize.None? || !Convertible(header, hp.ftype) {
        return None, hp;
      }
      return Some(at + hyperSize.value), hp;
    }

    /** Keeps what was read, and takes the feed-forward size from it. */
    method Keep(hp: Hyperparameters, v: Vocab, ts: seq<GgmlTensor>, index: map<Bytes, nat>, ghost infos: seq<TensorInfo>, end: int)
      returns (found: bool)
      requires Describe(ts, infos) && index == TensorMap(infos)
      modifies this, hp`nFf
      ensures header == old(header) && hp.Loaded() == old(hp.Loaded())
      ensures found <==> FeedForwardSize(infos).Some?
      ensures found ==> Holds(Model(header, hp.Loaded(), v.items, infos, FeedForwardSize(infos).value, end))
    {
      hyperparameters, vocab, tensors, tensorMap := hp, v, ts, index;
      found := hp.SetNFf(ts, index, infos);
    }

    /** The offset after the model; on success the object holds everything that was read. */
    method Load(data: Bytes, offset: nat, types: TypeTable, rounds: nat) returns (r: Outcome<int>)
      modifies this
      ensures var read := ReadModel(data, offset, types, rounds);
              && (r.Running? <==> read.Running?) && (r.Exception? <==> read.Exception?)
              && (r.Done? ==> r.value == read.value.end && Holds(read.value))
    {
      var at, hp := LoadHeads(data, offset);
      if at.None? {
        return Exception;
      }
      var hyper := hp.Loaded();
      ghost var infos;
      var v, ts, index;
      r, v, ts, index, infos := LoadContents(data, at.value, header, hyper, types, rounds);
      if !r.Done? {
        return;
      }
      var found := Keep(hp, v, ts, index, infos, r.value);
      if !found {
        r := Exception;
      }
    }
  }

  ghost predicate Describe(ts: seq<GgmlTensor>, infos: seq<TensorInfo>)
    reads ts
  {
    |ts| == |infos| && forall i :: 0 <= i < |ts| ==> ts[i].Info() == infos[i]
  }

  lemma TensorMapSnoc(infos: seq<TensorInfo>, t: TensorInfo)
    ensures TensorMap(infos + [t]) == TensorMap(infos)[t.name := |infos|]
  {
    assert (infos + [t])[..|infos|] == infos;
  }

  /** The records read before, and the rest. */
  ghost function Continued(before: seq<TensorInfo>, rest: Outcome<(seq<TensorInfo>, int)>): Outcome<(seq<TensorInfo>, int)> {
    match rest
    case Done(r) => Done((before + r.0, r.1))
    case Exception => Exception
    case Running => Running
  }

  lemma ContinuedNothing(whole: Outcome<(seq<TensorInfo>, int)>)
    ensures Continued([], whole) == whole
  {
    if whole.Done? {
      assert [] + whole.value.0 == whole.value.0;
    }
  }

  lemma ContinuedStep(before: seq<TensorInfo>, t: TensorInfo, rs: Records, o: int, next: int, rounds: nat, left: nat)
    requires o < rs.size && rounds == left + 1 && Gives(rs.at(o), t, next)
    ensures Continued(before, ReadAll(rs, o, rounds)) == Continued(before + [t], ReadAll(rs, next, left))
  {
    OneRound(rs, o, left, t, next);
    var rest := ReadAll(rs, next, left);
    if rest.Done? {
      Assoc(before, [t], rest.value.0);
    }
  }
}
