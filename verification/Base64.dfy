/**
 * base64.hpp: the encoder and the bit-accumulating decoder, against the groups of 24 bits of section 4 of RFC 4648. Text
 * is modelled as its bytes.
 */
module Base64 {
  import opened StringUtils

  datatype Alphabet = Auto | Standard | UrlFilenameSafe

  datatype Behavior = Moderate | Loose

  const PAD: bv8 := 0x3d
  const PLUS: bv8 := 0x2b
  const SLASH: bv8 := 0x2f
  const MINUS: bv8 := 0x2d
  const UNDERSCORE: bv8 := 0x5f

  // ----- one character -----

  /** Entry v of the encoder's table: A to Z, a to z, 0 to 9, and two characters that depend on the alphabet. */
  function Symbol(a: Alphabet, v: bv8): bv8
    requires v < 64
  {
    if v < 26 then 0x41 + v
    else if v < 52 then 0x61 + (v - 26)
    else if v < 62 then 0x30 + (v - 52)
    else if v == 62 then (if a.UrlFilenameSafe? then MINUS else PLUS)
    else (if a.UrlFilenameSafe? then UNDERSCORE else SLASH)
  }

  /** _base64_value: the value of a character and the alphabet from then on; None stands for the exception. */
  function ValueOf(a: Alphabet, c: bv8): (r: Option<(bv8, Alphabet)>)
    ensures r.Some? ==> r.value.0 < 64
  {
    if 0x41 <= c <= 0x5a then Some((c - 0x41, a))
    else if 0x61 <= c <= 0x7a then Some((c - 0x61 + 26, a))
    else if 0x30 <= c <= 0x39 then Some((c - 0x30 + 52, a))
    else
      match a
      case Standard => if c == PLUS then Some((62, a)) else if c == SLASH then Some((63, a)) else None
      case UrlFilenameSafe => if c == MINUS then Some((62, a)) else if c == UNDERSCORE then Some((63, a)) else None
      case Auto =>
        if c == PLUS then Some((62, Standard)) else if c == SLASH then Some((63, Standard))
        else if c == MINUS then Some((62, UrlFilenameSafe)) else if c == UNDERSCORE then Some((63, UrlFilenameSafe))
        else None
  }

  /** Decoding with this alphabet reads what was encoded with that one. */
  predicate Reads(decoding: Alphabet, encoding: Alphabet) {
    decoding == encoding || decoding == Auto || (decoding == Standard && encoding == Auto)
  }

  lemma ValueOfSymbol(d: Alphabet, e: Alphabet, v: bv8)
    requires v < 64 && Reads(d, e)
    ensures Symbol(e, v) != PAD
    ensures var r := ValueOf(d, Symbol(e, v)); r.Some? && r.value.0 == v && Reads(r.value.1, e)
  {
  }

  /** Decoding reads no other characters, and the first one that only one alphabet has decides between them. */
  lemma OnlySymbolsAreRead(a: Alphabet, c: bv8)
    ensures ValueOf(a, c).Some? ==>
              var (v, left) := ValueOf(a, c).value;
              && (c == Symbol(Standard, v) || c == Symbol(UrlFilenameSafe, v))
              && (a != Auto ==> left == a && c == Symbol(a, v))
              && (a == Auto ==> left == if v < 62 then Auto else if c == Symbol(Standard, v) then Standard else UrlFilenameSafe)
  {
  }

  // ----- groups of 24 bits -----

  function OfBytes(a: bv8, b: bv8, c: bv8): bv24 {
    (a as bv24 << 16) | (b as bv24 << 8) | c as bv24
  }

  function OfValues(a: bv8, b: bv8, c: bv8, d: bv8): bv24 {
    ((a & 0x3f) as bv24 << 18) | ((b & 0x3f) as bv24 << 12) | ((c & 0x3f) as bv24 << 6) | (d & 0x3f) as bv24
  }

  /** The k-th byte of a group, k from 0. */
  function ByteAt(x: bv24, k: nat): bv8
    requires k < 3
  {
    if k == 0 then ((x >> 16) & 0xff) as bv8 else if k == 1 then ((x >> 8) & 0xff) as bv8 else (x & 0xff) as bv8
  }

  /** The k-th 6-bit value of a group. */
  function ValueAt(x: bv24, k: nat): (v: bv8)
    requires k < 4
    ensures v < 64
  {
    if k == 0 then ((x >> 18) & 0x3f) as bv8
    else if k == 1 then ((x >> 12) & 0x3f) as bv8
    else if k == 2 then ((x >> 6) & 0x3f) as bv8
    else (x & 0x3f) as bv8
  }

  lemma GroupRoundTrip(a: bv8, b: bv8, c: bv8)
    ensures var x := OfBytes(a, b, c);
            && OfValues(ValueAt(x, 0), ValueAt(x, 1), ValueAt(x, 2), ValueAt(x, 3)) == x
            && ByteAt(x, 0) == a && ByteAt(x, 1) == b && ByteAt(x, 2) == c
  {
  }

  // ----- encoding -----

  /** Sections 4 and 5 of RFC 4648: four characters a group, the last group filled with zero bits and padded. */
  function Encoded(a: Alphabet, bytes: seq<bv8>): seq<bv8> {
    if bytes == [] then []
    else if |bytes| == 1 then
      var x := OfBytes(bytes[0], 0, 0);
      [Symbol(a, ValueAt(x, 0)), Symbol(a, ValueAt(x, 1)), PAD, PAD]
    else if |bytes| == 2 then
      var x := OfBytes(bytes[0], bytes[1], 0);
      [Symbol(a, ValueAt(x, 0)), Symbol(a, ValueAt(x, 1)), Symbol(a, ValueAt(x, 2)), PAD]
    else
      var x := OfBytes(bytes[0], bytes[1], bytes[2]);
      [Symbol(a, ValueAt(x, 0)), Symbol(a, ValueAt(x, 1)), Symbol(a, ValueAt(x, 2)), Symbol(a, ValueAt(x, 3))]
      + Encoded(a, bytes[3..])
  }

  /** The encoder's masks and shifts take the values of a group. */
  lemma MasksAreValues(i0: bv8, i1: bv8, i2: bv8)
    ensures var x := OfBytes(i0, i1, i2);
            && (i0 >> 2) & 0x3f == ValueAt(x, 0)
            && ((i0 & 0x3) << 4) | ((i1 >> 4) & 0x0f) == ValueAt(x, 1)
            && ((i1 & 0xf) << 2) | ((i2 >> 6) & 0x03) == ValueAt(x, 2)
            && i2 & 0x3f == ValueAt(x, 3)
    ensures (i0 & 0x3) << 4 == ValueAt(OfBytes(i0, 0, 0), 1)
    ensures (i1 & 0xf) << 2 == ValueAt(OfBytes(i0, i1, 0), 2)
    ensures ValueAt(OfBytes(i0, 0, 0), 0) == ValueAt(OfBytes(i0, i1, 0), 0) == ValueAt(OfBytes(i0, i1, i2), 0)
    ensures ValueAt(OfBytes(i0, i1, 0), 1) == ValueAt(OfBytes(i0, i1, i2), 1)
  {
  }

  lemma Append4<T>(s: seq<T>, a: T, b: T, c: T, d: T)
    ensures s + [a] + [b] + [c] + [d] == s + [a, b, c, d]
  {
  }

  // the groups the encoder writes

  lemma LastByteAlone(a: Alphabet, bytes: seq<bv8>, i: nat, i0: bv8)
    requires i + 1 == |bytes| && i0 == bytes[i]
    ensures Encoded(a, bytes[i..]) == [Symbol(a, (i0 >> 2) & 0x3f), Symbol(a, (i0 & 0x3) << 4), PAD, PAD]
  {
    MasksAreValues(i0, 0, 0);
  }

  lemma LastTwoBytes(a: Alphabet, bytes: seq<bv8>, i: nat, i0: bv8, i1: bv8)
    requires i + 2 == |bytes| && i0 == bytes[i] && i1 == bytes[i + 1]
    ensures Encoded(a, bytes[i..])
         == [Symbol(a, (i0 >> 2) & 0x3f), Symbol(a, ((i0 & 0x3) << 4) | ((i1 >> 4) & 0x0f)), Symbol(a, (i1 & 0xf) << 2), PAD]
  {
    MasksAreValues(i0, i1, 0);
  }

  lemma WholeGroup(a: Alphabet, bytes: seq<bv8>, i: nat, i0: bv8, i1: bv8, i2: bv8)
    requires i + 3 <= |bytes| && i0 == bytes[i] && i1 == bytes[i + 1] && i2 == bytes[i + 2]
    ensures Encoded(a, bytes[i..])
         == [Symbol(a, (i0 >> 2) & 0x3f), Symbol(a, ((i0 & 0x3) << 4) | ((i1 >> 4) & 0x0f)),
             Symbol(a, ((i1 & 0xf) << 2) | ((i2 >> 6) & 0x03)), Symbol(a, i2 & 0x3f)] + Encoded(a, bytes[i + 3..])
  {
    MasksAreValues(i0, i1, i2);
    assert bytes[i..][3..] == bytes[i + 3..];
  }

  method Encode(bytes: seq<bv8>, alphabet: Alphabet) returns (out: seq<bv8>)
    ensures out == Encoded(alphabet, bytes)
  {
    out := [];
    var next := 0;
    while next < |bytes|
      invariant next <= |bytes| && out + Encoded(alphabet, bytes[next..]) == Encoded(alphabet, bytes)
    {
      ghost var start, before := next, out;
      var i0, i1, i2: bv8 := bytes[next], 0, 0;
      next := next + 1;
      var s0 := Symbol(alphabet, (i0 >> 2) & 0x3f);
      out := out + [s0];

      if next == |bytes| {
        var s1 := Symbol(alphabet, (i0 & 0x3) << 4);
        out := out + [s1];
        out := out + [PAD];
        out := out + [PAD];
        Append4(before, s0, s1, PAD, PAD);
        LastByteAlone(alphabet, bytes, start, i0);
        return;
      }
      i1 := bytes[next];
      next := next + 1;
      var s1 := Symbol(alphabet, ((i0 & 0x3) << 4) | ((i1 >> 4) & 0x0f));
      out := out + [s1];

      if next == |bytes| {
        var s2 := Symbol(alphabet, (i1 & 0xf) << 2);
        out := out + [s2];
        out := out + [PAD];
        Append4(before, s0, s1, s2, PAD);
        LastTwoBytes(alphabet, bytes, start, i0, i1);
        return;
      }
      i2 := bytes[next];
      next := next + 1;
      var s2 := Symbol(alphabet, ((i1 & 0xf) << 2) | ((i2 >> 6) & 0x03));
      out := out + [s2];
      var s3 := Symbol(alphabet, i2 & 0x3f);
      out := out + [s3];
      Append4(before, s0, s1, s2, s3);
      WholeGroup(alphabet, bytes, start, i0, i1, i2);
      Assoc(before, [s0, s1, s2, s3], Encoded(alphabet, bytes[next..]));
    }
  }

  function RequiredEncodeSize(size: nat): nat {
    (size / 3 + if size % 3 != 0 then 1 else 0) * 4
  }

  function MaxDecodeSize(size: nat): nat {
    (size / 4 + if size % 4 != 0 then 1 else 0) * 3
  }

  lemma {:induction false} EncodedSize(a: Alphabet, bytes: seq<bv8>)
    ensures |Encoded(a, bytes)| == RequiredEncodeSize(|bytes|)
  {
    if |bytes| > 2 {
      EncodedSize(a, bytes[3..]);
    }
  }

  // ----- decoding -----

  /** The values of the characters before the first padding character. */
  function Values(a: Alphabet, text: seq<bv8>): (r: Option<seq<bv8>>)
    ensures r.Some? ==> |r.value| <= |text| && forall i :: 0 <= i < |r.value| ==> r.value[i] < 64
    decreases |text|
  {
    if text == [] || text[0] == PAD then Some([])
    else
      var v :- ValueOf(a, text[0]);
      var rest :- Values(v.1, text[1..]);
      Some([v.0] + rest)
  }

  predicate OnlyPadding(text: seq<bv8>) {
    forall i :: 0 <= i < |text| ==> text[i] == PAD
  }

  /** Nothing but padding follows the first padding character. */
  predicate PaddingAtEnd(text: seq<bv8>) {
    if text == [] then true else if text[0] == PAD then OnlyPadding(text[1..]) else PaddingAtEnd(text[1..])
  }

  /** The bytes of groups of four values; in a shorter last group those that are whole. */
  function Bytes(vs: seq<bv8>): seq<bv8> {
    if |vs| < 2 then []
    else if |vs| == 2 then [ByteAt(OfValues(vs[0], vs[1], 0, 0), 0)]
    else if |vs| == 3 then
      var x := OfValues(vs[0], vs[1], vs[2], 0);
      [ByteAt(x, 0), ByteAt(x, 1)]
    else
      var x := OfValues(vs[0], vs[1], vs[2], vs[3]);
      [ByteAt(x, 0), ByteAt(x, 1), ByteAt(x, 2)] + Bytes(vs[4..])
  }

  function Decoded(a: Alphabet, behavior: Behavior, text: seq<bv8>): Option<seq<bv8>> {
    var vs :- Values(a, text);
    if behavior.Moderate? && !PaddingAtEnd(text) then None else Some(Bytes(vs))
  }

  // the accumulator

  /**
   * The byte written when `bits` bits of the last value are still to be used: that value shifted left by 8 - bits, joined
   * with the new one shifted right by bits - 2, for the three numbers of bits there can be.
   */
  function Joined(last: bv8, part: bv8, bits: nat): bv8
    requires bits == 2 || bits == 4 || bits == 6
  {
    if bits == 2 then (last << 6) | part
    else if bits == 4 then (last << 4) | (part >> 2)
    else (last << 2) | (part >> 4)
  }

  predicate LegalBits(bits: nat) {
    bits == 0 || bits == 2 || bits == 4 || bits == 6
  }

  function BytesFrom(last: bv8, bits: nat, vs: seq<bv8>): seq<bv8>
    requires LegalBits(bits)
    decreases |vs|
  {
    if vs == [] then []
    else if bits + 6 >= 8 then [Joined(last, vs[0], bits)] + BytesFrom(vs[0], bits - 2, vs[1..])
    else BytesFrom(vs[0], bits + 6, vs[1..])
  }

  lemma JoinedInGroup(a: bv8, b: bv8, c: bv8, d: bv8)
    requires a < 64 && b < 64 && c < 64 && d < 64
    ensures var x := OfValues(a, b, c, d);
            Joined(a, b, 6) == ByteAt(x, 0) && Joined(b, c, 4) == ByteAt(x, 1) && Joined(c, d, 2) == ByteAt(x, 2)
  {
  }

  lemma JoinedInShortGroup(a: bv8, b: bv8, c: bv8)
    requires a < 64 && b < 64 && c < 64
    ensures Joined(a, b, 6) == ByteAt(OfValues(a, b, 0, 0), 0) && Joined(a, b, 6) == ByteAt(OfValues(a, b, c, 0), 0)
    ensures Joined(b, c, 4) == ByteAt(OfValues(a, b, c, 0), 1)
  {
  }

  /** Accumulating bits gives the bytes of the groups, whatever the last value was before the first. */
  lemma {:induction false} AccumulatorIsGroups(last: bv8, vs: seq<bv8>)
    requires forall i :: 0 <= i < |vs| ==> vs[i] < 64
    ensures BytesFrom(last, 0, vs) == Bytes(vs)
    decreases |vs|
  {
    if |vs| >= 4 {
      JoinedInGroup(vs[0], vs[1], vs[2], vs[3]);
      AccumulatorIsGroups(vs[3], vs[4..]);
      FourValues(last, vs);
    } else if |vs| == 3 {
      JoinedInShortGroup(vs[0], vs[1], vs[2]);
      assert vs == [vs[0], vs[1], vs[2]];
      assert BytesFrom(vs[1], 4, [vs[2]]) == [Joined(vs[1], vs[2], 4)];
      assert BytesFrom(vs[0], 6, [vs[1], vs[2]]) == [Joined(vs[0], vs[1], 6)] + [Joined(vs[1], vs[2], 4)];
      assert vs[1..] == [vs[1], vs[2]];
    } else if |vs| == 2 {
      JoinedInShortGroup(vs[0], vs[1], 0);
      assert BytesFrom(vs[0], 6, vs[1..]) == [Joined(vs[0], vs[1], 6)];
    } else if |vs| == 1 {
      assert BytesFrom(vs[0], 6, vs[1..]) == [];
    }
  }

  lemma FourValues(last: bv8, vs: seq<bv8>)
    requires |vs| >= 4
    ensures BytesFrom(last, 0, vs)
         == [Joined(vs[0], vs[1], 6), Joined(vs[1], vs[2], 4), Joined(vs[2], vs[3], 2)] + BytesFrom(vs[3], 0, vs[4..])
  {
    assert vs[1..][1..] == vs[2..] && vs[2..][1..] == vs[3..] && vs[3..][1..] == vs[4..];
    assert BytesFrom(vs[2], 2, vs[3..]) == [Joined(vs[2], vs[3], 2)] + BytesFrom(vs[3], 0, vs[4..]);
    assert BytesFrom(vs[1], 4, vs[2..]) == [Joined(vs[1], vs[2], 4)] + BytesFrom(vs[2], 2, vs[3..]);
    assert BytesFrom(vs[0], 6, vs[1..]) == [Joined(vs[0], vs[1], 6)] + BytesFrom(vs[1], 4, vs[2..]);
  }

  // ----- round trip -----

  /** One encoded character in front of more text. */
  lemma OneSymbol(d: Alphabet, e: Alphabet, v: bv8, rest: seq<bv8>) returns (left: Alphabet)
    requires v < 64 && Reads(d, e)
    ensures Reads(left, e)
    ensures Values(left, rest).Some? ==> Values(d, [Symbol(e, v)] + rest) == Some([v] + Values(left, rest).value)
    ensures PaddingAtEnd([Symbol(e, v)] + rest) == PaddingAtEnd(rest)
  {
    ValueOfSymbol(d, e, v);
    left := ValueOf(d, Symbol(e, v)).value.1;
    assert ([Symbol(e, v)] + rest)[1..] == rest;
  }

  function Symbols(e: Alphabet, vs: seq<bv8>): seq<bv8>
    requires forall i :: 0 <= i < |vs| ==> vs[i] < 64
  {
    if vs == [] then [] else [Symbol(e, vs[0])] + Symbols(e, vs[1..])
  }

  lemma {:induction false} ValuesOfSymbols(d: Alphabet, e: Alphabet, vs: seq<bv8>, rest: seq<bv8>) returns (left: Alphabet)
    requires (forall i :: 0 <= i < |vs| ==> vs[i] < 64) && Reads(d, e)
    ensures Reads(left, e)
    ensures Values(left, rest).Some? ==> Values(d, Symbols(e, vs) + rest) == Some(vs + Values(left, rest).value)
    ensures PaddingAtEnd(Symbols(e, vs) + rest) == PaddingAtEnd(rest)
    decreases |vs|
  {
    if vs == [] {
      left := d;
      assert Symbols(e, vs) + rest == rest;
      assert Values(d, rest).Some? ==> vs + Values(d, rest).value == Values(d, rest).value;
    } else {
      var tail := Symbols(e, vs[1..]) + rest;
      Assoc([Symbol(e, vs[0])], Symbols(e, vs[1..]), rest);
      var next := OneSymbol(d, e, vs[0], tail);
      left := ValuesOfSymbols(next, e, vs[1..], rest);
      if Values(left, rest).Some? {
        Assoc([vs[0]], vs[1..], Values(left, rest).value);
        assert [vs[0]] + vs[1..] == vs;
      }
    }
  }

  /** The values an encoded text stands for. */
  function AllValues(bytes: seq<bv8>): (vs: seq<bv8>)
    ensures forall i :: 0 <= i < |vs| ==> vs[i] < 64
  {
    if bytes == [] then []
    else if |bytes| == 1 then
      var x := OfBytes(bytes[0], 0, 0);
      [ValueAt(x, 0), ValueAt(x, 1)]
    else if |bytes| == 2 then
      var x := OfBytes(bytes[0], bytes[1], 0);
      [ValueAt(x, 0), ValueAt(x, 1), ValueAt(x, 2)]
    else
      var x := OfBytes(bytes[0], bytes[1], bytes[2]);
      [ValueAt(x, 0), ValueAt(x, 1), ValueAt(x, 2), ValueAt(x, 3)] + AllValues(bytes[3..])
  }

  function Padding(size: nat): seq<bv8> {
    if size % 3 == 1 then [PAD, PAD] else if size % 3 == 2 then [PAD] else []
  }

  lemma {:induction false} SymbolsAppend(e: Alphabet, vs: seq<bv8>, us: seq<bv8>)
    requires (forall i :: 0 <= i < |vs| ==> vs[i] < 64) && (forall i :: 0 <= i < |us| ==> us[i] < 64)
    ensures forall i :: 0 <= i < |vs + us| ==> (vs + us)[i] < 64
    ensures Symbols(e, vs + us) == Symbols(e, vs) + Symbols(e, us)
    decreases |vs|
  {
    if vs == [] {
      assert vs + us == us;
    } else {
      assert (vs + us)[1..] == vs[1..] + us;
      SymbolsAppend(e, vs[1..], us);
      Assoc([Symbol(e, vs[0])], Symbols(e, vs[1..]), Symbols(e, us));
    }
  }

  lemma SymbolsOfTwo(e: Alphabet, a: bv8, b: bv8)
    requires a < 64 && b < 64
    ensures Symbols(e, [a, b]) == [Symbol(e, a), Symbol(e, b)]
  {
    assert [a, b][1..] == [b] && [b][1..] == [] && Symbols(e, [b]) == [Symbol(e, b)];
  }

  lemma SymbolsOfThree(e: Alphabet, a: bv8, b: bv8, c: bv8)
    requires a < 64 && b < 64 && c < 64
    ensures Symbols(e, [a, b, c]) == [Symbol(e, a), Symbol(e, b), Symbol(e, c)]
  {
    SymbolsOfTwo(e, b, c);
    assert [a, b, c][1..] == [b, c];
  }

  lemma SymbolsOfFour(e: Alphabet, a: bv8, b: bv8, c: bv8, d: bv8)
    requires a < 64 && b < 64 && c < 64 && d < 64
    ensures Symbols(e, [a, b, c, d]) == [Symbol(e, a), Symbol(e, b), Symbol(e, c), Symbol(e, d)]
  {
    SymbolsOfThree(e, b, c, d);
    assert [a, b, c, d][1..] == [b, c, d];
  }

  lemma EncodedTail(e: Alphabet, a: bv8, b: bv8)
    ensures Encoded(e, [a]) == Symbols(e, AllValues([a])) + [PAD, PAD]
    ensures Encoded(e, [a, b]) == Symbols(e, AllValues([a, b])) + [PAD]
  {
    var x, y := OfBytes(a, 0, 0), OfBytes(a, b, 0);
    SymbolsOfTwo(e, ValueAt(x, 0), ValueAt(x, 1));
    SymbolsOfThree(e, ValueAt(y, 0), ValueAt(y, 1), ValueAt(y, 2));
  }

  lemma SymbolsOfGroup(e: Alphabet, a: bv8, b: bv8, c: bv8, d: bv8, rest: seq<bv8>, padding: seq<bv8>)
    requires a < 64 && b < 64 && c < 64 && d < 64 && forall i :: 0 <= i < |rest| ==> rest[i] < 64
    ensures forall i :: 0 <= i < |[a, b, c, d] + rest| ==> ([a, b, c, d] + rest)[i] < 64
    ensures Symbols(e, [a, b, c, d] + rest) + padding
         == [Symbol(e, a), Symbol(e, b), Symbol(e, c), Symbol(e, d)] + (Symbols(e, rest) + padding)
  {
    var group := [a, b, c, d];
    SymbolsOfFour(e, a, b, c, d);
    SymbolsAppend(e, group, rest);
    Assoc(Symbols(e, group), Symbols(e, rest), padding);
  }

  lemma EncodedGroup(e: Alphabet, bytes: seq<bv8>, padding: seq<bv8>)
    requires |bytes| > 2 && Encoded(e, bytes[3..]) == Symbols(e, AllValues(bytes[3..])) + padding
    ensures Encoded(e, bytes) == Symbols(e, AllValues(bytes)) + padding
  {
    var x := OfBytes(bytes[0], bytes[1], bytes[2]);
    SymbolsOfGroup(e, ValueAt(x, 0), ValueAt(x, 1), ValueAt(x, 2), ValueAt(x, 3), AllValues(bytes[3..]), padding);
  }

  /** Encoded text is the symbols of its values and the padding. */
  lemma {:induction false} EncodedIsSymbols(e: Alphabet, bytes: seq<bv8>)
    ensures Encoded(e, bytes) == Symbols(e, AllValues(bytes)) + Padding(|bytes|)
  {
    if |bytes| > 2 {
      EncodedIsSymbols(e, bytes[3..]);
      EncodedGroup(e, bytes, Padding(|bytes|));
    } else if bytes != [] {
      EncodedTail(e, bytes[0], bytes[|bytes| - 1]);
      assert bytes == if |bytes| == 1 then [bytes[0]] else [bytes[0], bytes[1]];
    }
  }

  lemma TailRoundTrip(a: bv8, b: bv8)
    ensures var x := OfBytes(a, 0, 0); ByteAt(OfValues(ValueAt(x, 0), ValueAt(x, 1), 0, 0), 0) == a
    ensures var x := OfBytes(a, b, 0);
            var y := OfValues(ValueAt(x, 0), ValueAt(x, 1), ValueAt(x, 2), 0); ByteAt(y, 0) == a && ByteAt(y, 1) == b
  {
  }

  lemma {:induction false} BytesOfAllValues(bytes: seq<bv8>)
    ensures Bytes(AllValues(bytes)) == bytes
  {
    if |bytes| == 1 {
      TailRoundTrip(bytes[0], 0);
    } else if |bytes| == 2 {
      TailRoundTrip(bytes[0], bytes[1]);
    } else if |bytes| > 2 {
      GroupRoundTrip(bytes[0], bytes[1], bytes[2]);
      BytesOfAllValues(bytes[3..]);
      assert AllValues(bytes)[4..] == AllValues(bytes[3..]);
    }
  }

  /** Decoding undoes encoding, with the same alphabet or with detection, for every byte sequence. */
  lemma RoundTrip(d: Alphabet, e: Alphabet, behavior: Behavior, bytes: seq<bv8>)
    requires Reads(d, e)
    ensures Decoded(d, behavior, Encoded(e, bytes)) == Some(bytes)
  {
    EncodedIsSymbols(e, bytes);
    var left := ValuesOfSymbols(d, e, AllValues(bytes), Padding(|bytes|));
    assert Values(left, Padding(|bytes|)) == Some([]) && PaddingAtEnd(Padding(|bytes|));
    assert AllValues(bytes) + [] == AllValues(bytes);
    BytesOfAllValues(bytes);
  }

  // ----- sizes -----

  lemma {:induction false} SizeOfBytes(vs: seq<bv8>)
    ensures |Bytes(vs)| == |vs| * 3 / 4
    decreases |vs|
  {
    if |vs| >= 4 {
      SizeOfBytes(vs[4..]);
    }
  }

  lemma DecodedSize(a: Alphabet, behavior: Behavior, text: seq<bv8>)
    ensures Decoded(a, behavior, text).Some? ==> |Decoded(a, behavior, text).value| <= MaxDecodeSize(|text|)
  {
    if Values(a, text).Some? {
      SizeOfBytes(Values(a, text).value);
    }
  }

  /** Encoded groups of three bytes decode to as many bytes as there can be, and no bound could be smaller. */
  lemma DecodedSizeIsReached(bytes: seq<bv8>, a: Alphabet)
    requires |bytes| % 3 == 0
    ensures |bytes| == MaxDecodeSize(|Encoded(a, bytes)|)
  {
    EncodedSize(a, bytes);
  }

  // ----- alphabet detection -----

  lemma {:induction false} AutoReadsMore(a: Alphabet, text: seq<bv8>)
    ensures Values(a, text).Some? ==> Values(Auto, text) == Values(a, text)
    decreases |text|
  {
    if text != [] && text[0] != PAD && Values(a, text).Some? {
      AutoReadsMore(a, text[1..]);
    }
  }

  lemma {:induction false} AutoReadsNoMore(text: seq<bv8>)
    ensures Values(Auto, text).Some? ==>
              Values(Auto, text) == Values(Standard, text) || Values(Auto, text) == Values(UrlFilenameSafe, text)
    decreases |text|
  {
    if text != [] && text[0] != PAD && Values(Auto, text).Some? {
      AutoReadsNoMore(text[1..]);
    }
  }

  /** Detection succeeds exactly when one of the two alphabets does, and then gives its bytes. */
  lemma AutoIsEither(behavior: Behavior, text: seq<bv8>)
    ensures var auto, std, url := Decoded(Auto, behavior, text), Decoded(Standard, behavior, text),
                                  Decoded(UrlFilenameSafe, behavior, text);
            && (auto.Some? <==> std.Some? || url.Some?)
            && (std.Some? ==> auto == std)
            && (url.Some? ==> auto == url)
  {
    AutoReadsMore(Standard, text);
    AutoReadsMore(UrlFilenameSafe, text);
    AutoReadsNoMore(text);
  }

  // ----- the decoder -----

  /** What is still to be written for a rest of the text, or None. */
  function Remaining(a: Alphabet, last: bv8, bits: nat, text: seq<bv8>): Option<seq<bv8>>
    requires LegalBits(bits)
  {
    var vs :- Values(a, text);
    Some(BytesFrom(last, bits, vs))
  }

  lemma RemainingIsDecoded(a: Alphabet, behavior: Behavior, text: seq<bv8>)
    ensures Decoded(a, behavior, text) ==
              if behavior.Moderate? && !PaddingAtEnd(text) then None else Remaining(a, 0, 0, text)
  {
    if Values(a, text).Some? {
      AccumulatorIsGroups(0, Values(a, text).value);
    }
  }

  /** One more character: what the loop body does to the rest. */
  lemma RemainingStep(a: Alphabet, last: bv8, bits: nat, text: seq<bv8>, i: nat)
    requires LegalBits(bits) && i < |text| && text[i] != PAD
    ensures ValueOf(a, text[i]).None? ==> Remaining(a, last, bits, text[i..]) == None
    ensures ValueOf(a, text[i]).Some? ==>
              var (part, left) := ValueOf(a, text[i]).value;
              if bits + 6 >= 8 then
                Remaining(a, last, bits, text[i..]) == Prefixed([Joined(last, part, bits)], Remaining(left, part, bits - 2, text[i + 1..]))
              else Remaining(a, last, bits, text[i..]) == Remaining(left, part, bits + 6, text[i + 1..])
    ensures PaddingAtEnd(text[i..]) == PaddingAtEnd(text[i + 1..])
  {
    assert text[i..][1..] == text[i + 1..];
    if ValueOf(a, text[i]).Some? {
      var (part, left) := ValueOf(a, text[i]).value;
      if Values(left, text[i + 1..]).Some? {
        assert ([part] + Values(left, text[i + 1..]).value)[1..] == Values(left, text[i + 1..]).value;
      }
    }
  }

  function Prefixed(out: seq<bv8>, rest: Option<seq<bv8>>): Option<seq<bv8>> {
    match rest
    case None => None
    case Some(r) => Some(out + r)
  }

  lemma PrefixedTwice(out: seq<bv8>, b: bv8, rest: Option<seq<bv8>>)
    ensures Prefixed(out, Prefixed([b], rest)) == Prefixed(out + [b], rest)
  {
    if rest.Some? {
      Assoc(out, [b], rest.value);
    }
  }

  function BitsAfter(bits: nat): (r: nat)
    requires LegalBits(bits)
    ensures LegalBits(r)
  {
    if bits + 6 >= 8 then bits - 2 else bits + 6
  }

  function Added(out: seq<bv8>, last: bv8, part: bv8, bits: nat): seq<bv8>
    requires LegalBits(bits)
  {
    if bits + 6 >= 8 then out + [Joined(last, part, bits)] else out
  }

  lemma NoValue(a: Alphabet, last: bv8, bits: nat, text: seq<bv8>, i: nat)
    requires LegalBits(bits) && i < |text| && text[i] != PAD && ValueOf(a, text[i]).None?
    ensures Remaining(a, last, bits, text[i..]) == None
  {
    RemainingStep(a, last, bits, text, i);
  }

  /** One round of the loop keeps what is written and what remains together. */
  lemma AccumulateStep(a: Alphabet, last: bv8, bits: nat, text: seq<bv8>, i: nat, next: nat, out: seq<bv8>, part: bv8,
                       left: Alphabet)
    requires LegalBits(bits) && i < |text| && next == i + 1 && text[i] != PAD && ValueOf(a, text[i]) == Some((part, left))
    ensures Prefixed(out, Remaining(a, last, bits, text[i..]))
         == Prefixed(Added(out, last, part, bits), Remaining(left, part, BitsAfter(bits), text[next..]))
    ensures PaddingAtEnd(text[i..]) == PaddingAtEnd(text[next..])
  {
    RemainingStep(a, last, bits, text, i);
    if bits + 6 >= 8 {
      PrefixedTwice(out, Joined(last, part, bits), Remaining(left, part, bits - 2, text[i + 1..]));
    }
  }

  /** Decoding into fresh memory. */
  method Decode(text: seq<bv8>, alphabet: Alphabet, behavior: Behavior) returns (r: Option<seq<bv8>>)
    ensures r == Decoded(alphabet, behavior, text)
  {
    var out: seq<bv8> := [];
    var current := alphabet;
    var last: bv8, bits: nat := 0, 0;
    var next := 0;
    RemainingIsDecoded(alphabet, behavior, text);
    assert text[0..] == text;
    PrefixedByNothing(Remaining(alphabet, 0, 0, text));
    while next < |text|
      invariant next <= |text| && LegalBits(bits)
      invariant Prefixed(out, Remaining(current, last, bits, text[next..])) == Remaining(alphabet, 0, 0, text)
      invariant PaddingAtEnd(text[next..]) == PaddingAtEnd(text)
    {
      var c := text[next];
      if c == PAD {
        break;
      }
      ghost var at := next;
      next := next + 1;
      var value := ValueOf(current, c);
      if value.None? {
        NoValue(current, last, bits, text, at);
        return None;
      }
      var part := value.value.0;
      AccumulateStep(current, last, bits, text, at, next, out, part, value.value.1);
      current := value.value.1;
      if bits + 6 >= 8 {
        out := out + [Joined(last, part, bits)];
        bits := bits - 2;
      } else {
        bits := bits + 6;
      }
      last := part;
    }
    assert Remaining(current, last, bits, text[next..]) == Some([]) && out + [] == out;
    if behavior != Loose {
      var checked := CheckPadding(text, next);
      if !checked {
        return None;
      }
    }
    return Some(out);
  }

  lemma PrefixedByNothing(rest: Option<seq<bv8>>)
    ensures Prefixed([], rest) == rest
  {
    if rest.Some? {
      assert [] + rest.value == rest.value;
    }
  }

  /** The loop over the characters from the first padding character on. */
  method CheckPadding(text: seq<bv8>, from: nat) returns (ok: bool)
    requires from <= |text| && (from < |text| ==> text[from] == PAD)
    ensures ok == PaddingAtEnd(text[from..])
  {
    var next := if from < |text| then from + 1 else from;
    ghost var start := next;
    while next < |text|
      invariant start <= next <= |text| && OnlyPadding(text[start..next])
    {
      if text[next] != PAD {
        assert text[start..][next - start] != PAD;
        return false;
      }
      assert text[start..next + 1] == text[start..next] + [text[next]];
      next := next + 1;
    }
    assert text[start..next] == text[start..];
    assert from < |text| ==> text[from..][1..] == text[start..];
    return true;
  }

  /** The branch of the loop that writes a byte if there are bits enough for one. */
  method AddPart(buffer: array<bv8>, out: nat, next: nat, last: bv8, part: bv8, bits: nat) returns (out': nat, bits': nat)
    requires out < next <= buffer.Length && LegalBits(bits)
    modifies buffer
    ensures buffer[..][next..] == old(buffer[..])[next..] && out' <= next
    ensures bits' == BitsAfter(bits) && buffer[..][..out'] == Added(old(buffer[..])[..out], last, part, bits)
  {
    if bits + 6 >= 8 {
      Written(buffer[..], out, Joined(last, part, bits), next);
      buffer[out] := Joined(last, part, bits);
      assert buffer[..] == old(buffer[..])[out := Joined(last, part, bits)];
      return out + 1, bits - 2;
    } else {
      return out, bits + 6;
    }
  }

  lemma UnreadStep<T>(now: seq<T>, before: seq<T>, next: nat)
    requires next < |now| == |before| && now[next..] == before[next..]
    ensures now[next] == before[next] && now[next + 1..] == before[next + 1..]
  {
    assert now[next..][0] == before[next..][0] && now[next..][1..] == before[next..][1..];
  }

  lemma Unread<T>(now: seq<T>, before: seq<T>, next: nat, size: nat)
    requires next <= size <= |now| == |before| && now[next..] == before[next..]
    ensures now[size..] == before[size..] && now[..size][next..] == before[..size][next..]
    ensures next < size ==> now[..size][next] == before[..size][next]
  {
    assert now[next..][size - next..] == before[next..][size - next..];
    assert now[next..][..size - next] == before[next..][..size - next];
    if next < size {
      UnreadStep(now, before, next);
    }
  }

  /** What is still to be read is as it was, and the character read. */
  lemma UnreadNext<T>(now: seq<T>, before: seq<T>, at: nat, next: nat, size: nat)
    requires at < size <= |now| == |before| && next == at + 1 && now[at..] == before[at..]
    ensures now[at] == before[..size][at] && now[next..] == before[next..]
  {
    UnreadStep(now, before, at);
  }

  /** The loop over the characters, up to the first padding character. */
  method DecodeCharacters(buffer: array<bv8>, size: nat, alphabet: Alphabet) returns (ok: bool, next: nat, out: nat)
    requires size <= buffer.Length
    modifies buffer
    ensures out <= next <= size && buffer[..][next..] == old(buffer[..])[next..]
    ensures !ok ==> Remaining(alphabet, 0, 0, old(buffer[..])[..size]) == None
    ensures var text := old(buffer[..])[..size];
            ok ==> && Remaining(alphabet, 0, 0, text) == Some(buffer[..][..out])
                   && PaddingAtEnd(text[next..]) == PaddingAtEnd(text) && (next < size ==> text[next] == PAD)
  {
    ghost var before := buffer[..];
    ghost var text := before[..size];
    ghost var whole := Remaining(alphabet, 0, 0, text);
    var current := alphabet;
    var last: bv8, bits: nat := 0, 0;
    next, out := 0, 0;
    assert text[0..] == text && buffer[..][..0] == [];
    PrefixedByNothing(whole);
    while next < size
      invariant out <= next <= size && LegalBits(bits)
      invariant buffer[..][next..] == before[next..]
      invariant Prefixed(buffer[..][..out], Remaining(current, last, bits, text[next..])) == whole
      invariant PaddingAtEnd(text[next..]) == PaddingAtEnd(text)
    {
      var c := buffer[next];
      ghost var at := next;
      UnreadNext(buffer[..], before, at, at + 1, size);
      if c == PAD {
        break;
      }
      next := next + 1;
      var value := ValueOf(current, c);
      if value.None? {
        NoValue(current, last, bits, text, at);
        return false, next, out;
      }
      var part := value.value.0;
      AccumulateStep(current, last, bits, text, at, next, buffer[..][..out], part, value.value.1);
      out, bits := AddPart(buffer, out, next, last, part, bits);
      current, last := value.value.1, part;
    }
    NothingRemains(current, last, bits, text[next..], buffer[..][..out]);
    return true, next, out;
  }

  lemma NothingRemains(a: Alphabet, last: bv8, bits: nat, rest: seq<bv8>, out: seq<bv8>)
    requires LegalBits(bits) && (rest != [] ==> rest[0] == PAD)
    ensures Prefixed(out, Remaining(a, last, bits, rest)) == Some(out)
  {
    assert out + [] == out;
  }

  /**
   * Decoding a buffer over itself: writing stays behind reading, so the result is that of decoding into fresh memory,
   * for every input; the buffer beyond the text is untouched.
   */
  method DecodeInPlace(buffer: array<bv8>, size: nat, alphabet: Alphabet, behavior: Behavior) returns (r: Option<nat>)
    requires size <= buffer.Length
    modifies buffer
    ensures buffer[..][size..] == old(buffer[..])[size..]
    ensures r.Some? <==> Decoded(alphabet, behavior, old(buffer[..])[..size]).Some?
    ensures r.Some? ==> r.value <= size && Some(buffer[..][..r.value]) == Decoded(alphabet, behavior, old(buffer[..])[..size])
  {
    ghost var before := buffer[..];
    RemainingIsDecoded(alphabet, behavior, before[..size]);
    var ok, next, out := DecodeCharacters(buffer, size, alphabet);
    Unread(buffer[..], before, next, size);
    if !ok {
      return None;
    }
    if behavior != Loose {
      var checked := CheckPadding(buffer[..][..size], next);
      if !checked {
        return None;
      }
    }
    return Some(out);
  }

  // ----- which texts are decoded -----

  /** Letters, digits, and two characters of the alphabet. */
  predicate HasSymbol(a: Alphabet, c: bv8) {
    var code := c as int;
    || 'A' as int <= code <= 'Z' as int || 'a' as int <= code <= 'z' as int || '0' as int <= code <= '9' as int
    || (if a.UrlFilenameSafe? then code == '-' as int || code == '_' as int else code == '+' as int || code == '/' as int)
  }

  lemma ReadExactlyWhen(a: Alphabet, c: bv8)
    requires a != Auto
    ensures ValueOf(a, c).Some? <==> HasSymbol(a, c)
    ensures ValueOf(a, c).Some? ==> ValueOf(a, c).value.1 == a
  {
  }

  predicate AllSymbols(a: Alphabet, body: seq<bv8>) {
    forall i :: 0 <= i < |body| ==> body[i] != PAD && HasSymbol(a, body[i])
  }

  lemma {:induction false} ValuesExactlyWhen(a: Alphabet, body: seq<bv8>, tail: seq<bv8>)
    requires a != Auto && (forall i :: 0 <= i < |body| ==> body[i] != PAD) && (tail == [] || tail[0] == PAD)
    ensures Values(a, body + tail).Some? <==> AllSymbols(a, body)
    ensures PaddingAtEnd(body + tail) <==> OnlyPadding(tail)
    decreases |body|
  {
    var text := body + tail;
    if body == [] {
      assert text == tail;
      if tail != [] {
        PaddingBehind(tail);
      }
    } else {
      assert text[1..] == body[1..] + tail;
      ReadExactlyWhen(a, body[0]);
      ValuesExactlyWhen(a, body[1..], tail);
      assert AllSymbols(a, body) <==> HasSymbol(a, body[0]) && AllSymbols(a, body[1..]) by {
        assert forall i :: 0 <= i < |body| - 1 ==> body[1..][i] == body[i + 1];
        assert forall i :: 1 <= i < |body| ==> body[i] == body[1..][i - 1];
      }
    }
  }

  lemma PaddingBehind(tail: seq<bv8>)
    requires tail != [] && tail[0] == PAD
    ensures OnlyPadding(tail) <==> OnlyPadding(tail[1..])
  {
    assert forall i :: 1 <= i < |tail| ==> tail[i] == tail[1..][i - 1];
    assert forall i :: 0 <= i < |tail| - 1 ==> tail[1..][i] == tail[i + 1];
  }

  /**
   * A text is decoded exactly if all characters before the first padding character are of one alphabet, the one asked for or
   * with detection either, and, unless the decoder is loose, nothing but padding follows.
   */
  lemma DecodesExactlyWhen(a: Alphabet, behavior: Behavior, body: seq<bv8>, tail: seq<bv8>)
    requires (forall i :: 0 <= i < |body| ==> body[i] != PAD) && (tail == [] || tail[0] == PAD)
    ensures Decoded(a, behavior, body + tail).Some?
            <==> && (|| (a != UrlFilenameSafe && AllSymbols(Standard, body)) || (a != Standard && AllSymbols(UrlFilenameSafe, body)))
                 && (behavior.Loose? || OnlyPadding(tail))
  {
    ValuesExactlyWhen(Standard, body, tail);
    ValuesExactlyWhen(UrlFilenameSafe, body, tail);
    if a == Auto {
      AutoIsEither(behavior, body + tail);
    }
  }
}
