/**
 * The loop over the tensor records of a legacy GGML file: exactly when it ends, exactly when one record leads forward,
 * and exactly when the tensors read lie one after the other in the file.
 */
module GgmlLoop {
  import opened StringUtils
  import opened Tensors
  import opened GgmlFormat
  import opened GgmlRoundTrip

  // ----- the offsets of a run -----

  /** The offset after k records, if k records are read. */
  function OffsetAfter(rs: Records, o: int, k: nat): Option<int>
    decreases k
  {
    if k == 0 then Some(o)
    else if o >= rs.size then None
    else
      match rs.at(o)
      case None => None
      case Some(r) => OffsetAfter(rs, r.1, k - 1)
  }

  /** After k records the loop goes on at an offset. */
  predicate Meets(rs: Records, o: int, k: nat, p: int) {
    OffsetAfter(rs, o, k) == Some(p) && p < rs.size
  }

  lemma {:induction false} RunningIsMeeting(rs: Records, o: int, k: nat) returns (p: int)
    ensures ReadAll(rs, o, k).Running? <==> Meets(rs, o, k, p)
    ensures OffsetAfter(rs, o, k).Some? ==> OffsetAfter(rs, o, k).value == p
    decreases k
  {
    p := o;
    if k > 0 && o < rs.size && rs.at(o).Some? {
      p := RunningIsMeeting(rs, rs.at(o).value.1, k - 1);
    }
  }

  /** What is met after j + m records is what is met m records after the j-th. */
  lemma {:induction false} OffsetsCompose(rs: Records, o: int, j: nat, q: int, m: nat)
    requires OffsetAfter(rs, o, j) == Some(q)
    ensures OffsetAfter(rs, o, j + m) == OffsetAfter(rs, q, m)
    decreases j
  {
    if j > 0 {
      OffsetsCompose(rs, rs.at(o).value.1, j - 1, q, m);
    }
  }

  /** Every offset before the last one is met. */
  lemma {:induction false} MetBefore(rs: Records, o: int, j: nat, k: nat) returns (p: int)
    requires j < k && OffsetAfter(rs, o, k).Some?
    ensures Meets(rs, o, j, p) && rs.at(p).Some?
    decreases j
  {
    p := o;
    if j > 0 {
      p := MetBefore(rs, rs.at(o).value.1, j - 1, k - 1);
    }
  }

  // ----- it ends exactly if no offset is met twice -----

  ghost predicate NoOffsetTwice(rs: Records, o: int) {
    forall j: nat, k: nat, p: int :: j < k && Meets(rs, o, j, p) ==> !Meets(rs, o, k, p)
  }

  /** From an offset that is met again the loop runs for as long as one likes. */
  lemma {:induction false} Cycle(rs: Records, p: int, d: nat, m: nat) returns (q: int)
    requires d > 0 && Meets(rs, p, d, p)
    ensures Meets(rs, p, m, q)
    decreases m
  {
    if m < d {
      q := MetBefore(rs, p, m, d);
    } else {
      q := Cycle(rs, p, d, m - d);
      OffsetsCompose(rs, p, d, p, m - d);
    }
  }

  lemma TwiceRunsForever(rs: Records, o: int, j: nat, k: nat, p: int, rounds: nat)
    requires j < k && Meets(rs, o, j, p) && Meets(rs, o, k, p)
    ensures ReadAll(rs, o, rounds).Running?
  {
    OffsetsCompose(rs, o, j, p, k - j);
    var q := Cycle(rs, p, k - j, rounds);
    OffsetsCompose(rs, o, j, p, rounds);
    if j > 0 {
      q := MetBefore(rs, o, rounds, j + rounds);
    }
    var r := RunningIsMeeting(rs, o, rounds);
  }

  function Offsets(rs: Records, o: int, n: nat): (s: seq<int>)
    decreases n
  {
    if n == 0 then []
    else
      match rs.at(o)
      case None => []
      case Some(r) => [o] + Offsets(rs, r.1, n - 1)
  }

  lemma {:induction false} OffsetsAreMet(rs: Records, o: int, n: nat)
    requires OffsetAfter(rs, o, n).Some?
    ensures |Offsets(rs, o, n)| == n
    ensures forall i :: 0 <= i < n ==> Meets(rs, o, i, Offsets(rs, o, n)[i]) && rs.at(Offsets(rs, o, n)[i]).Some?
    decreases n
  {
    if n > 0 {
      var next := rs.at(o).value.1;
      OffsetsAreMet(rs, next, n - 1);
      var s, rest := Offsets(rs, o, n), Offsets(rs, next, n - 1);
      assert s == [o] + rest;
      forall i | 0 < i < n ensures Meets(rs, o, i, s[i]) && rs.at(s[i]).Some? {
        assert s[i] == rest[i - 1] && Meets(rs, next, i - 1, rest[i - 1]);
      }
    }
  }

  /** Different numbers in a range are at most as many as the range has. */
  lemma {:induction false} Pigeonhole(s: seq<int>, low: int, high: int)
    requires low <= high && (forall i :: 0 <= i < |s| ==> low <= s[i] < high)
    requires forall i, j :: 0 <= i < j < |s| ==> s[i] != s[j]
    ensures |s| <= high - low
    decreases high - low
  {
    if s != [] {
      assert low <= s[0] < high;
      if high - 1 in s {
        var i :| 0 <= i < |s| && s[i] == high - 1;
        Pigeonhole(s[..i] + s[i + 1..], low, high - 1);
      } else {
        Pigeonhole(s, low, high - 1);
      }
    }
  }

  /** A record can be read only from an offset that reaches into the data. */
  ghost predicate ReadsFromInside(rs: Records) {
    forall p :: rs.at(p).Some? ==> p >= -(rs.size as int)
  }

  /** So many rounds are more than there are offsets to read from. */
  function Enough(size: nat): nat {
    2 * size + 1
  }

  lemma LongRunMeetsTwice(rs: Records, o: int)
    requires ReadsFromInside(rs) && ReadAll(rs, o, Enough(rs.size)).Running?
    ensures !NoOffsetTwice(rs, o)
  {
    var n := Enough(rs.size);
    var p := RunningIsMeeting(rs, o, n);
    OffsetsAreMet(rs, o, n);
    var s := Offsets(rs, o, n);
    if NoOffsetTwice(rs, o) {
      forall i, j | 0 <= i < j < |s| ensures s[i] != s[j] {
        assert Meets(rs, o, i, s[i]) && Meets(rs, o, j, s[j]);
      }
      Pigeonhole(s, -(rs.size as int), rs.size);
    }
  }

  lemma EndsExactlyWhen(rs: Records, o: int)
    requires ReadsFromInside(rs)
    ensures (exists rounds :: !ReadAll(rs, o, rounds).Running?) <==> NoOffsetTwice(rs, o)
    ensures NoOffsetTwice(rs, o) <==> !ReadAll(rs, o, Enough(rs.size)).Running?
  {
    if NoOffsetTwice(rs, o) {
      if ReadAll(rs, o, Enough(rs.size)).Running? {
        LongRunMeetsTwice(rs, o);
      }
      assert !ReadAll(rs, o, Enough(rs.size)).Running?;
    } else {
      var j: nat, k: nat, p: int :| j < k && Meets(rs, o, j, p) && Meets(rs, o, k, p);
      forall rounds ensures ReadAll(rs, o, rounds).Running? {
        TwiceRunsForever(rs, o, j, k, p, rounds);
      }
    }
  }

  lemma ReadFromInside(data: Bytes, p: int, padding: bool, types: TypeTable)
    requires ReadTensor(data, p, padding, types).Some?
    ensures p >= -(|data| as int)
  {
    assert ReadHead(data, p).Some?;
    assert |Slice(data, p, 12)| >= 12;
  }

  /**
   * For every file, the loop ends, with a result or an exception, exactly if it never meets an offset twice; and if it has
   * not ended after two rounds for each byte and one more, it never does.
   */
  lemma LoopEndsExactlyWhen(data: Bytes, o: int, padding: bool, types: TypeTable)
    ensures var rs := RecordsOf(data, padding, types);
            && ((exists rounds :: !ReadAll(rs, o, rounds).Running?) <==> NoOffsetTwice(rs, o))
            && (NoOffsetTwice(rs, o) <==> !ReadAll(rs, o, Enough(|data|)).Running?)
  {
    var rs := RecordsOf(data, padding, types);
    forall p | rs.at(p).Some? ensures p >= -(rs.size as int) {
      ReadFromInside(data, p, padding, types);
    }
    EndsExactlyWhen(rs, o);
  }

  // ----- exactly when a record leads forward -----

  function Ceiling(n: nat, block: nat): nat
    requires block > 0
  {
    (n + block - 1) / block
  }

  /**
   * A condition on the numbers in a record: of the true count of bytes, 64 bits are left. Below 2^63 the record leads
   * forward unless the next offset itself is too large; above, it does only if what is missing to 2^64 is less than what
   * head, dimensions, name and padding take.
   */
  predicate LeadsForward(t: TensorInfo, o: int, quants: QuantSizes) {
    && t.dtype in quants && quants[t.dtype].0 > 0
    && LeftLeadsForward(TrueCount(t.dims, quants[t.dtype]) % TWO_64, quants[t.dtype].0, t.start, o)
  }

  predicate LeftLeadsForward(w: nat, block: nat, start: int, o: int)
    requires block > 0 && w < TWO_64
  {
    if w < TWO_63 then start + w / block < TWO_63 else o < start - Ceiling(TWO_64 - w, block) < TWO_63
  }

  lemma FloorIsCeiling(n: nat, block: nat)
    requires block > 0
    ensures (0 - n) / block == 0 - Ceiling(n, block)
  {
    var q, r := (0 - n) / block, (0 - n) % block;
    FloorNotPositive(n, block);
    TimesIs(0 - q, block);
    assert n + block - 1 == Times(0 - q, block) + (block - 1 - r);
    DivModUnique(0 - q, block, block - 1 - r);
  }

  lemma FloorNotPositive(n: nat, block: nat)
    requires block > 0
    ensures (0 - n) / block <= 0
  {
  }

  lemma NextAhead(start: int, size: int, o: int)
    requires 0 <= o < start <= o + 5000 && -TWO_63 <= size < TWO_63
    ensures Wrap64(start + size) > o <==> o < start + size < TWO_63
  {
    var k := WrapLeavesWhole(start + size);
  }

  /** The place of a record's data, for any table of types. */
  lemma RecordPlace(data: Bytes, o: int, padding: bool, types: TypeTable)
    requires ReadTensor(data, o, padding, types).Some?
    ensures var (t, next) := ReadTensor(data, o, padding, types).value;
            && next == Next(t) && t.dtype in types.known && t.size == types.bytes(t.dtype, t.dims)
            && o + 12 <= t.start <= o + 5000 && (padding ==> t.start % 32 == 0)
  {
    var head, dims := RecordParts(data, o, padding, types);
  }

  lemma LeftExactlyWhen(dims: seq<nat>, quant: (nat, nat), start: int, o: int)
    requires quant.0 > 0 && 0 <= o < start <= o + 5000
    ensures Wrap64(start + SizeOf(dims, quant)) > o <==> LeftLeadsForward(TrueCount(dims, quant) % TWO_64, quant.0, start, o)
  {
    var w := TrueCount(dims, quant) % TWO_64;
    SizeIsRemainder(dims, quant);
    SizeInRange(dims, quant);
    NextAhead(start, SizeOf(dims, quant), o);
    if w < TWO_63 {
      NotNegative(w, 1, quant.0);
    } else {
      FloorIsCeiling(TWO_64 - w, quant.0);
    }
  }

  /** A record leads forward exactly when that condition holds, for every record at an offset of any file. */
  lemma RecordAdvancesExactlyWhen(data: Bytes, o: nat, padding: bool, quants: QuantSizes)
    requires SaneSizes(quants) && ReadTensor(data, o, padding, TypesOf(quants)).Some?
    ensures var (t, next) := ReadTensor(data, o, padding, TypesOf(quants)).value; next > o <==> LeadsForward(t, o, quants)
  {
    RecordPlace(data, o, padding, TypesOf(quants));
    var t := ReadTensor(data, o, padding, TypesOf(quants)).value.0;
    LeftExactlyWhen(t.dims, quants[t.dtype], t.start, o);
  }

  /** In particular one whose true size fits: the next record starts behind its data. */
  lemma RecordAdvances(data: Bytes, o: nat, padding: bool, quants: QuantSizes)
    requires SaneSizes(quants) && ReadTensor(data, o, padding, TypesOf(quants)).Some?
    requires var t := ReadTensor(data, o, padding, TypesOf(quants)).value.0;
             t.dtype in quants && t.start + TrueCount(t.dims, quants[t.dtype]) < TWO_63
    ensures var (t, next) := ReadTensor(data, o, padding, TypesOf(quants)).value;
            next == t.start + TrueCount(t.dims, quants[t.dtype]) / quants[t.dtype].0 && next >= o + 12
  {
    RecordPlace(data, o, padding, TypesOf(quants));
    var t := ReadTensor(data, o, padding, TypesOf(quants)).value.0;
    SizeIsExact(t.dims, quants[t.dtype]);
    QuotientBelow(TrueCount(t.dims, quants[t.dtype]), quants[t.dtype].0);
  }

  lemma QuotientBelow(x: nat, block: nat)
    requires block > 0
    ensures x / block <= x
  {
    DivModSplit(x, block);
    TimesIs(x / block, block);
    AtLeast(x / block, block);
  }

  lemma SizeInRange(dims: seq<nat>, quant: (nat, nat))
    requires quant.0 > 0
    ensures -TWO_63 <= SizeOf(dims, quant) < TWO_63
  {
    QuotientInRange(Wrap64(Wrap64(Product(dims)) * quant.1), quant.0);
  }

  lemma QuotientInRange(x: int, block: nat)
    requires block > 0 && -TWO_63 <= x < TWO_63
    ensures -TWO_63 <= x / block < TWO_63
  {
  }

  // ----- a run in which every record leads forward -----

  predicate AllLeadForward(rs: Records, o: int, rounds: nat, quants: QuantSizes)
    decreases rounds
  {
    o >= rs.size || rounds == 0
    || match rs.at(o)
       case None => true
       case Some(r) => LeadsForward(r.0, o, quants) && AllLeadForward(rs, r.1, rounds - 1, quants)
  }

  ghost predicate ForwardIs(rs: Records, quants: QuantSizes) {
    forall o: nat :: rs.at(o).Some? ==> (rs.at(o).value.1 > o <==> LeadsForward(rs.at(o).value.0, o, quants))
  }

  lemma {:induction false} AscendingEnds(rs: Records, o: nat, rounds: nat, quants: QuantSizes)
    requires ForwardIs(rs, quants) && AllLeadForward(rs, o, rounds, quants) && rounds >= rs.size - o
    ensures !ReadAll(rs, o, rounds).Running?
    decreases rounds
  {
    if o < rs.size && rs.at(o).Some? {
      var left := rounds - 1;
      AscendingEnds(rs, rs.at(o).value.1, left, quants);
    }
  }

  /** If every record met leads forward, the loop ends within as many rounds as bytes are left. */
  lemma ForwardRunEnds(data: Bytes, o: nat, padding: bool, quants: QuantSizes, rounds: nat)
    requires SaneSizes(quants) && rounds >= |data| - o
    requires AllLeadForward(RecordsOf(data, padding, TypesOf(quants)), o, rounds, quants)
    ensures !ReadAll(RecordsOf(data, padding, TypesOf(quants)), o, rounds).Running?
  {
    var rs := RecordsOf(data, padding, TypesOf(quants));
    forall o: nat | rs.at(o).Some? ensures rs.at(o).value.1 > o <==> LeadsForward(rs.at(o).value.0, o, quants) {
      RecordAdvancesExactlyWhen(data, o, padding, quants);
    }
    AscendingEnds(rs, o, rounds, quants);
  }

  // ----- exactly when the tensors lie in order -----

  /** Records that follow each other as the reader goes, in 64 bits. */
  predicate Linked(o: int, ts: seq<TensorInfo>, end: int, padding: bool)
    decreases |ts|
  {
    if ts == [] then end == o
    else o + 12 <= ts[0].start && (padding ==> ts[0].start % 32 == 0) && Linked(Next(ts[0]), ts[1..], end, padding)
  }

  ghost predicate GoodPlaces(rs: Records, padding: bool) {
    forall o: int :: rs.at(o).Some? ==> var (t, next) := rs.at(o).value;
                                        o + 12 <= t.start && next == Next(t) && (padding ==> t.start % 32 == 0)
  }

  lemma {:induction false} ReadIsLinked(rs: Records, o: int, rounds: nat, padding: bool)
    requires GoodPlaces(rs, padding) && ReadAll(rs, o, rounds).Done?
    ensures var (ts, end) := ReadAll(rs, o, rounds).value; Linked(o, ts, end, padding) && end >= rs.size
    decreases rounds
  {
    if o < rs.size {
      var (t, next) := rs.at(o).value;
      ReadIsLinked(rs, next, rounds - 1, padding);
      var rest := ReadAll(rs, next, rounds - 1).value;
      assert ([t] + rest.0)[1..] == rest.0;
    }
  }

  /** No size is negative or too large for 64 bits, as one can check on the tensors read. */
  predicate Honest(ts: seq<TensorInfo>) {
    forall i :: 0 <= i < |ts| ==> ts[i].size >= 0 && ts[i].start + ts[i].size < TWO_63
  }

  /** No data reaches into the head of a later record, and all data ends where the last record does. */
  predicate Tiles(ts: seq<TensorInfo>, end: int) {
    && (forall i :: 0 <= i < |ts| ==> ts[i].size >= 0)
    && (forall i, j :: 0 <= i < j < |ts| ==> ts[i].start + ts[i].size + 12 <= ts[j].start)
    && (ts != [] ==> end == ts[|ts| - 1].start + ts[|ts| - 1].size)
  }

  lemma {:induction false} HonestTiles(o: int, ts: seq<TensorInfo>, end: int, padding: bool)
    requires o >= 0 && Linked(o, ts, end, padding) && Honest(ts)
    ensures Tiles(ts, end) && o <= end && forall i :: 0 <= i < |ts| ==> o + 12 <= ts[i].start
    decreases |ts|
  {
    if ts != [] {
      var rest := ts[1..];
      assert forall i :: 0 <= i < |rest| ==> rest[i] == ts[i + 1];
      HonestTiles(Next(ts[0]), rest, end, padding);
      assert forall i :: 0 < i < |ts| ==> ts[i] == rest[i - 1];
    }
  }

  lemma {:induction false} LinkedEnd(o: int, ts: seq<TensorInfo>, end: int, padding: bool)
    requires ts != [] && Linked(o, ts, end, padding)
    ensures end == Next(ts[|ts| - 1])
    ensures padding ==> forall i :: 0 <= i < |ts| ==> ts[i].start % 32 == 0
    decreases |ts|
  {
    if |ts| > 1 {
      LinkedEnd(Next(ts[0]), ts[1..], end, padding);
      assert forall i :: 0 < i < |ts| ==> ts[i] == ts[1..][i - 1];
    }
  }

  lemma TilesAreHonest(o: int, ts: seq<TensorInfo>, end: int, padding: bool)
    requires ts != [] && Linked(o, ts, end, padding) && Tiles(ts, end)
    ensures Honest(ts)
  {
    LinkedEnd(o, ts, end, padding);
    var last := |ts| - 1;
    forall i | 0 <= i < last ensures ts[i].start + ts[i].size < TWO_63 {
      assert ts[i].start + ts[i].size + 12 <= ts[last].start;
    }
  }

  lemma InFileExactlyWhen(ts: seq<TensorInfo>, end: int, size: nat)
    requires ts != [] && Tiles(ts, end) && end >= size
    ensures (forall i :: 0 <= i < |ts| ==> ts[i].start + ts[i].size <= size) <==> end == size
  {
    var last := |ts| - 1;
    forall i | 0 <= i < last ensures ts[i].start + ts[i].size <= end {
      assert ts[i].start + ts[i].size + 12 <= ts[last].start;
    }
  }

  /**
   * In every model that is read, the reader has come to the end of the file or behind it, and the data starts at multiples
   * of 32 in the GGJT format. The data of the tensors is disjoint, in the order of the records and reaches to that offset
   * exactly if no size is negative or too large; then it is all in the file exactly if the offset is its end. The reader
   * checks neither.
   */
  lemma TensorsTileExactlyWhen(data: Bytes, o: nat, types: TypeTable, rounds: nat)
    requires ReadModel(data, o, types, rounds).Done?
    ensures var m := ReadModel(data, o, types, rounds).value;
            && m.tensors != [] && m.end >= |data|
            && (m.header.format == GGJT ==> forall i :: 0 <= i < |m.tensors| ==> m.tensors[i].start % 32 == 0)
            && (Tiles(m.tensors, m.end) <==> Honest(m.tensors))
            && (Honest(m.tensors) ==>
                  ((forall i :: 0 <= i < |m.tensors| ==> m.tensors[i].start + m.tensors[i].size <= |data|) <==> m.end == |data|))
  {
    var from := TensorsRead(data, o, types, rounds);
    var m := ReadModel(data, o, types, rounds).value;
    var padding := m.header.format == GGJT;
    PlacesAreGood(data, padding, types);
    ReadIsLinked(RecordsOf(data, padding, types), from, rounds, padding);
    LinkedEnd(from, m.tensors, m.end, padding);
    if Honest(m.tensors) {
      HonestTiles(from, m.tensors, m.end, padding);
      InFileExactlyWhen(m.tensors, m.end, |data|);
    } else if Tiles(m.tensors, m.end) {
      TilesAreHonest(from, m.tensors, m.end, padding);
    }
  }

  lemma PlacesAreGood(data: Bytes, padding: bool, types: TypeTable)
    ensures GoodPlaces(RecordsOf(data, padding, types), padding)
  {
    var rs := RecordsOf(data, padding, types);
    forall o: int | rs.at(o).Some?
      ensures var (t, next) := rs.at(o).value; o + 12 <= t.start && next == Next(t) && (padding ==> t.start % 32 == 0)
    {
      RecordPlace(data, o, padding, types);
    }
  }

  lemma TensorsRead(data: Bytes, o: nat, types: TypeTable, rounds: nat) returns (from: nat)
    requires ReadModel(data, o, types, rounds).Done?
    ensures var m := ReadModel(data, o, types, rounds).value;
            Ends(ReadAll(RecordsOf(data, m.header.format == GGJT, types), from, rounds), m.tensors, m.end) && m.tensors != []
  {
    var (header, hyper, at) := ReadHeads(data, o).value;
    var vocab := ReadVocab(data, at, hyper.nVocab, header.format != GGML).value;
    from := vocab.1;
    ContentsFrom(data, at, header, hyper, types, rounds, vocab.0, from);
    SomeTensor(ReadModel(data, o, types, rounds).value.tensors);
  }

  lemma SomeTensor(tensors: seq<TensorInfo>)
    requires FeedForwardSize(tensors).Some?
    ensures tensors != []
  {
    assert FF_NAME in TensorMap(tensors);
  }

  // ----- files that do not lead forward -----

  const NO_HYPER: Hyper := Hyper(0, 0, 0, 0, 0, 0, 0)

  /** A file without a vocabulary, and with one record of 32-bit floats without data. */
  function OneRecordFile(t: Stored): File {
    File(GGML, 1, NO_HYPER, [], [t])
  }

  function OneRecords(t: Stored, types: TypeTable): Records {
    RecordsOf(Write(OneRecordFile(t)), false, types)
  }

  lemma OneRecordModel(t: Stored, types: TypeTable, rounds: nat)
    ensures ReadModel(Write(OneRecordFile(t)), 0, types, rounds)
            == Completed(Header(GGML, 1, 4), NO_HYPER, [], ReadAll(OneRecords(t, types), 32, rounds))
  {
    var f := OneRecordFile(t);
    var data := Write(f);
    ReadsHeads(data, f);
    assert Gives(ReadVocab(data, 32, 0, false), [], 32);
    ContentsFrom(data, 32, HeaderOf(f), NO_HYPER, types, rounds, [], 32);
  }

  lemma OneRecordAt(t: Stored)
    ensures |Write(OneRecordFile(t))| == EndOf(32, t, false) && Holds(Write(OneRecordFile(t)), 32, WriteTensor(32, t, false))
  {
    var f := OneRecordFile(t);
    FileParts(f);
    var next := FirstAndRest(Write(f), 32, f.tensors, false);
  }

  /** The reader goes from the record to where its computed size leads. */
  lemma OneRecordRead(t: Stored, types: TypeTable)
    requires Writable(t, types)
    ensures var rs := OneRecords(t, types);
            && rs.size == EndOf(32, t, false) && rs.at(32).Some?
            && rs.at(32).value.1 == Wrap64(Named(32, t) + types.bytes(t.dtype, t.dims))
  {
    OneRecordAt(t);
    ReadsRecord(Write(OneRecordFile(t)), 32, t, false, types);
  }

  function SpinningRecord(): Stored {
    Stored(Zeros(40), [16, 0x1fff_ffff, 0x2000_0001], 0, [])
  }

  /** A record that goes back before the file. */
  function BackwardRecord(): Stored {
    Stored([], [0xffff_ffff, 0x8000_0000], 0, [])
  }

  lemma Product2(a: nat, b: nat)
    ensures Product([a, b]) == a * b
  {
    assert [a, b][1..] == [b] && [b][1..] == [];
    TimesIs(b, 1);
    assert Product([b]) == b;
    TimesIs(a, b);
  }

  lemma Product3(a: nat, b: nat, c: nat)
    ensures Product([a, b, c]) == a * (b * c)
  {
    assert [a, b, c][1..] == [b, c];
    Product2(b, c);
    TimesIs(a, b * c);
  }

  lemma SpinningSize(a: nat, b: nat, c: nat)
    requires a == 16 && b == 0x1fff_ffff && c == 0x2000_0001
    ensures SizeOf([a, b, c], (1, 4)) == -64
  {
    Product3(a, b, c);
    assert a * (b * c) == 0x3fff_ffff_ffff_fff0;
  }

  lemma BackwardSize(a: nat, b: nat)
    requires a == 0xffff_ffff && b == 0x8000_0000
    ensures SizeOf([a, b], (1, 4)) == -0x2_0000_0000
  {
    Product2(a, b);
    assert a * b == 0x7fff_ffff_8000_0000;
    WrapDropsWhole(-0x2_0000_0000, 2);
  }

  lemma SizesOfFloats()
    ensures 0 in GGML_QUANT_SIZES && GGML_QUANT_SIZES[0] == (1, 4)
  {
  }

  lemma SpinningRecordRead(quants: QuantSizes)
    requires 0 in quants && quants[0] == (1, 4)
    ensures var rs := OneRecords(SpinningRecord(), TypesOf(quants)); rs.size == 96 && rs.at(32).Some? && rs.at(32).value.1 == 32
  {
    var t := SpinningRecord();
    OneRecordRead(t, TypesOf(quants));
    SpinningSize(t.dims[0], t.dims[1], t.dims[2]);
  }

  lemma BackwardRecordRead(quants: QuantSizes)
    requires 0 in quants && quants[0] == (1, 4)
    ensures var rs := OneRecords(BackwardRecord(), TypesOf(quants));
            rs.size == 52 && rs.at(32).Some? && rs.at(32).value.1 == 52 - 0x2_0000_0000
  {
    var t := BackwardRecord();
    OneRecordRead(t, TypesOf(quants));
    BackwardSize(t.dims[0], t.dims[1]);
  }

  /** A file of 96 bytes whose record of 64 bytes has the size -64, so that the reader never ends. */
  lemma SpinningFileRunsForever(rounds: nat)
    ensures ReadModel(Write(OneRecordFile(SpinningRecord())), 0, TypesOf(GGML_QUANT_SIZES), rounds).Running?
  {
    var types := TypesOf(GGML_QUANT_SIZES);
    var rs := OneRecords(SpinningRecord(), types);
    SizesOfFloats();
    SpinningRecordRead(GGML_QUANT_SIZES);
    assert Meets(rs, 32, 0, 32) && OffsetAfter(rs, 32, 1) == Some(32);
    TwiceRunsForever(rs, 32, 0, 1, 32, rounds);
    OneRecordModel(SpinningRecord(), types, rounds);
  }

  lemma RaisesNext(rs: Records, o: int, next: int, rounds: nat)
    requires o < rs.size && rs.at(o).Some? && rs.at(o).value.1 == next && next < rs.size && rs.at(next).None? && rounds >= 2
    ensures ReadAll(rs, o, rounds).Exception?
  {
    var left := rounds - 1;
    assert ReadAll(rs, next, left).Exception?;
  }

  /** Not every step back is taken again: from so far before the file nothing can be read, and an exception ends the loop. */
  lemma BackwardFileRaises(rounds: nat)
    requires rounds >= 2
    ensures ReadModel(Write(OneRecordFile(BackwardRecord())), 0, TypesOf(GGML_QUANT_SIZES), rounds).Exception?
  {
    var types := TypesOf(GGML_QUANT_SIZES);
    var rs := OneRecords(BackwardRecord(), types);
    SizesOfFloats();
    BackwardRecordRead(GGML_QUANT_SIZES);
    var next := rs.at(32).value.1;
    if rs.at(next).Some? {
      ReadFromInside(Write(OneRecordFile(BackwardRecord())), next, false, types);
    }
    RaisesNext(rs, 32, next, rounds);
    OneRecordModel(BackwardRecord(), types, rounds);
  }
}
