/** string_process_escapes: backslash escapes, decoded over the text they stand in. */
module Escapes {
  import opened StringUtils

  predicate IsHex(c: char) {
    '0' <= c <= '9' || 'a' <= c <= 'f' || 'A' <= c <= 'F'
  }

  function HexValue(c: char): (v: nat)
    requires IsHex(c)
    ensures v < 16
  {
    if c <= '9' then c as int - '0' as int
    else if c <= 'F' then c as int - 'A' as int + 10
    else c as int - 'a' as int + 10
  }

  /** std::strtol in base 16 where it accepts both of two characters: digits, or a space or sign and a digit. */
  function TwoHex(c: char, d: char): Option<int> {
    if !IsHex(d) then None
    else if IsHex(c) then Some(16 * HexValue(c) + HexValue(d))
    else if IsSpace(c) || c == '+' then Some(HexValue(d))
    else if c == '-' then Some(-(HexValue(d) as int))
    else None
  }

  /** The cast of the value to a char of eight bits. */
  function ToChar(val: int): char {
    (val % 256) as char
  }

  /** The escapes with one character after the backslash. */
  function Simple(c: char): Option<char> {
    match c
    case 'n' => Some('\n')
    case 'r' => Some('\r')
    case 't' => Some('\t')
    case '\'' => Some('\'')
    case '\"' => Some('\"')
    case '\\' => Some('\\')
    case _ => None
  }

  /** Decoding from left to right; what is not an escape is kept as it is. */
  function Unescape(s: string): string {
    if s == "" then ""
    else if s[0] != '\\' || |s| == 1 then [s[0]] + Unescape(s[1..])
    else if Simple(s[1]).Some? then [Simple(s[1]).value] + Unescape(s[2..])
    else if s[1] == 'x' && |s| > 3 && TwoHex(s[2], s[3]).Some? then [ToChar(TwoHex(s[2], s[3]).value)] + Unescape(s[4..])
    else ['\\', s[1]] + Unescape(s[2..])
  }

  lemma Decodes(s: string, i: nat, whole: string, done: string)
    requires i < |s| && whole == done + Unescape(s[i..])
    ensures s[i] != '\\' || i + 1 == |s| ==> whole == done + [s[i]] + Unescape(s[i + 1..])
    ensures s[i] == '\\' && i + 1 < |s| && Simple(s[i + 1]).Some? ==>
              whole == done + [Simple(s[i + 1]).value] + Unescape(s[i + 2..])
    ensures s[i] == '\\' && i + 3 < |s| && s[i + 1] == 'x' && TwoHex(s[i + 2], s[i + 3]).Some? ==>
              whole == done + [ToChar(TwoHex(s[i + 2], s[i + 3]).value)] + Unescape(s[i + 4..])
    ensures s[i] == '\\' && i + 1 < |s| && Simple(s[i + 1]).None?
            && !(s[i + 1] == 'x' && i + 3 < |s| && TwoHex(s[i + 2], s[i + 3]).Some?) ==>
              whole == done + ['\\', s[i + 1]] + Unescape(s[i + 2..])
  {
    var t := s[i..];
    assert t[1..] == s[i + 1..];
    assert |t| > 1 ==> t[2..] == s[i + 2..];
    assert |t| > 3 ==> t[4..] == s[i + 4..];
  }

  /** The length of the decoded text at the front of the buffer; writing never reaches what is still to be read. */
  method ProcessEscapes(input: array<char>) returns (outputIdx: nat)
    modifies input
    ensures outputIdx <= input.Length && input[..][..outputIdx] == Unescape(old(input[..]))
  {
    ghost var s := input[..];
    outputIdx := 0;
    var inputIdx := 0;
    assert s[0..] == s;
    while inputIdx < input.Length
      invariant outputIdx <= inputIdx <= input.Length
      invariant input[..][inputIdx..] == s[inputIdx..]
      invariant Unescape(s) == input[..][..outputIdx] + Unescape(s[inputIdx..])
    {
      inputIdx, outputIdx := DecodeOne(input, inputIdx, outputIdx, s);
    }
    assert s[inputIdx..] == "" && input[..][..outputIdx] + "" == input[..][..outputIdx];
  }

  lemma Unread(now: string, s: string, i: nat, j: nat)
    requires i <= j <= |now| == |s| && now[i..] == s[i..]
    ensures now[j..] == s[j..] && forall k :: i <= k < |s| ==> now[k] == s[k]
  {
    assert now[i..][j - i..] == s[i..][j - i..];
    forall k | i <= k < |s| ensures now[k] == s[k] {
      assert now[i..][k - i] == s[i..][k - i];
    }
  }

  /** One round of the loop: reads a character or an escape, writes one or two characters. */
  method DecodeOne(input: array<char>, inputIdx: nat, outputIdx: nat, ghost s: string) returns (next: nat, out: nat)
    requires outputIdx <= inputIdx < input.Length == |s| && input[..][inputIdx..] == s[inputIdx..]
    requires Unescape(s) == input[..][..outputIdx] + Unescape(s[inputIdx..])
    modifies input
    ensures inputIdx < next <= input.Length && out <= next && input[..][next..] == s[next..]
    ensures Unescape(s) == input[..][..out] + Unescape(s[next..])
  {
    ghost var was := input[..];
    next, out := inputIdx + 1, outputIdx;
    Decodes(s, inputIdx, Unescape(s), was[..outputIdx]);
    Unread(was, s, inputIdx, inputIdx);
    if input[inputIdx] == '\\' && next < input.Length {
      var c := input[next];
      next := next + 1;
      Unread(was, s, inputIdx, next);
      if Simple(c).Some? {
        Put(input, out, Simple(c).value, next);
        out := out + 1;
        return;
      }
      if c == 'x' && next + 1 < input.Length {
        var val := TwoHex(input[next], input[next + 1]);
        if val.Some? {
          next := next + 2;
          Unread(was, s, inputIdx, next);
          Put(input, out, ToChar(val.value), next);
          out := out + 1;
          return;
        }
      }
      Put(input, out, '\\', next);
      Put(input, out + 1, c, next);
      assert was[..outputIdx] + ['\\'] + [c] == was[..outputIdx] + ['\\', c];
      out := out + 2;
    } else {
      Unread(was, s, inputIdx, next);
      var c := input[inputIdx];
      Put(input, out, c, next);
      out := out + 1;
    }
  }

  method Put(input: array<char>, out: nat, c: char, next: nat)
    requires out < next <= input.Length
    modifies input
    ensures input[..][..out + 1] == old(input[..])[..out] + [c] && input[..][next..] == old(input[..])[next..]
  {
    Written(input[..], out, c, next);
    input[out] := c;
    assert input[..] == old(input[..])[out := c];
  }

  // ----- what decoding means -----

  lemma {:induction false} UnescapeShrinks(s: string)
    ensures |Unescape(s)| <= |s|
  {
    if s != "" {
      if s[0] != '\\' || |s| == 1 {
        UnescapeShrinks(s[1..]);
      } else {
        UnescapeShrinks(s[2..]);
        if |s| > 3 {
          UnescapeShrinks(s[4..]);
        }
      }
    }
  }

  /** Every backslash written twice. */
  function Doubled(s: string): string {
    if s == "" then "" else (if s[0] == '\\' then "\\\\" else [s[0]]) + Doubled(s[1..])
  }

  /** Any text survives if its backslashes are doubled. */
  lemma {:induction false} UnescapeDoubled(s: string)
    ensures Unescape(Doubled(s)) == s
  {
    if s != "" {
      UnescapeDoubled(s[1..]);
      if s[0] == '\\' {
        assert Doubled(s)[2..] == Doubled(s[1..]);
      } else {
        assert Doubled(s)[1..] == Doubled(s[1..]);
      }
    }
  }

  const LETTERS := "nrt'\"\\"
  const LOWER := "0123456789abcdef"
  const UPPER := "0123456789ABCDEF"

  /** A hexadecimal digit, after another, a sign or a space. */
  predicate LooksHex(c: char, d: char) {
    (d in LOWER || d in UPPER) && (c in LOWER || c in UPPER || c in "+-" || IsSpace(c))
  }

  /** An escape is read at i, if reading gets there. */
  predicate StartsEscape(s: string, i: nat) {
    && i + 1 < |s| && s[i] == '\\'
    && (s[i + 1] in LETTERS || (s[i + 1] == 'x' && i + 3 < |s| && LooksHex(s[i + 2], s[i + 3])))
  }

  lemma EscapesAre(c: char, d: char)
    ensures Simple(c).Some? <==> c in LETTERS
    ensures TwoHex(c, d).Some? <==> LooksHex(c, d)
  {
    HexDigits(c);
    HexDigits(d);
  }

  lemma HexDigits(c: char)
    ensures IsHex(c) <==> c in LOWER || c in UPPER
    ensures IsHex(c) ==> HexValue(c) < 16 && (c == LOWER[HexValue(c)] || c == UPPER[HexValue(c)])
  {
    if IsHex(c) {
      assert c == LOWER[HexValue(c)] || c == UPPER[HexValue(c)];
    }
  }

  // ----- what each escape means -----

  /** A piece of escaped text: a character as it is, an escape, or a backslash that is kept with the next character. */
  datatype Piece =
    | Plain(c: char)
    | LineFeed
    | Return
    | Tab
    | SingleQuote
    | DoubleQuote
    | Backslash
    | Byte(value: nat, high: bool, low: bool)
    | Signed(sign: char, digit: nat, upper: bool)
    | Kept(c: char)

  function HexDigit(n: nat, upper: bool): char
    requires n < 16
  {
    if upper then UPPER[n] else LOWER[n]
  }

  predicate IsPiece(p: Piece) {
    && (p.Byte? ==> p.value < 256)
    && (p.Signed? ==> p.digit < 16 && (p.sign in "+-" || IsSpace(p.sign)))
  }

  /** How it is written; a byte with two digits in either case, or one after a sign or a space. */
  function TextOf(p: Piece): string
    requires IsPiece(p)
  {
    match p
    case Plain(c) => [c]
    case LineFeed => ['\\', 'n']
    case Return => ['\\', 'r']
    case Tab => ['\\', 't']
    case SingleQuote => ['\\', '\'']
    case DoubleQuote => ['\\', '"']
    case Backslash => ['\\', '\\']
    case Byte(value, high, low) => ['\\', 'x', HexDigit(value / 16, high), HexDigit(value % 16, low)]
    case Signed(sign, digit, upper) => ['\\', 'x', sign, HexDigit(digit, upper)]
    case Kept(c) => ['\\', c]
  }

  /** What it stands for; a negative byte counts back from 256. */
  function MeaningOf(p: Piece): string
    requires IsPiece(p)
  {
    match p
    case Plain(c) => [c]
    case LineFeed => [10 as char]
    case Return => [13 as char]
    case Tab => [9 as char]
    case SingleQuote => ['\'']
    case DoubleQuote => ['"']
    case Backslash => ['\\']
    case Byte(value, _, _) => [value as char]
    case Signed(sign, digit, _) => [(if sign == '-' && digit > 0 then 256 - digit else digit) as char]
    case Kept(c) => ['\\', c]
  }

  predicate ArePieces(ps: seq<Piece>) {
    forall p :: p in ps ==> IsPiece(p)
  }

  function Text(ps: seq<Piece>): string
    requires ArePieces(ps)
  {
    if ps == [] then "" else TextOf(ps[0]) + Text(ps[1..])
  }

  function Meaning(ps: seq<Piece>): string
    requires ArePieces(ps)
  {
    if ps == [] then "" else MeaningOf(ps[0]) + Meaning(ps[1..])
  }

  /** A backslash is plain only at the end, and kept only before what makes no escape. */
  predicate FitsBefore(p: Piece, rest: string) {
    match p
    case Plain(c) => c != '\\' || rest == ""
    case Kept(c) => c !in LETTERS && (c == 'x' ==> !StartsHex(rest))
    case _ => true
  }

  predicate IsWritten(ps: seq<Piece>) {
    ArePieces(ps) && (ps == [] || (FitsBefore(ps[0], Text(ps[1..])) && IsWritten(ps[1..])))
  }

  predicate StartsHex(rest: string) {
    |rest| > 1 && LooksHex(rest[0], rest[1])
  }

  /** Decoding any text gives what its pieces mean. */
  lemma {:induction false} UnescapeReadsPieces(ps: seq<Piece>)
    requires IsWritten(ps)
    ensures Unescape(Text(ps)) == Meaning(ps)
    decreases |ps|
  {
    if ps != [] {
      UnescapeReadsPieces(ps[1..]);
      UnescapeReadsPiece(ps[0], Text(ps[1..]));
    }
  }

  lemma UnescapeReadsPiece(p: Piece, rest: string)
    requires IsPiece(p) && FitsBefore(p, rest)
    ensures Unescape(TextOf(p) + rest) == MeaningOf(p) + Unescape(rest)
  {
    match p
    case Plain(c) =>
      assert ([c] + rest)[1..] == rest;
    case Byte(value, high, low) => UnescapeReadsByte(value / 16, high, value % 16, low, rest);
    case Signed(sign, digit, upper) => UnescapeReadsSigned(sign, digit, upper, rest);
    case Kept(c) => UnescapeKeepsPair(c, rest);
    case LineFeed => UnescapeReadsSimple('n', rest);
    case Return => UnescapeReadsSimple('r', rest);
    case Tab => UnescapeReadsSimple('t', rest);
    case SingleQuote => UnescapeReadsSimple('\'', rest);
    case DoubleQuote => UnescapeReadsSimple('"', rest);
    case Backslash => UnescapeReadsSimple('\\', rest);
  }

  lemma UnescapeReadsByte(i: nat, high: bool, k: nat, low: bool, rest: string)
    requires i < 16 && k < 16
    ensures Unescape(['\\', 'x', HexDigit(i, high), HexDigit(k, low)] + rest) == [(16 * i + k) as char] + Unescape(rest)
  {
    HexIsRead(i, high);
    HexIsRead(k, low);
    UnescapeReadsHex(HexDigit(i, high), HexDigit(k, low), rest);
  }

  lemma UnescapeReadsSigned(sign: char, digit: nat, upper: bool, rest: string)
    requires digit < 16 && (sign in "+-" || IsSpace(sign))
    ensures Unescape(['\\', 'x', sign, HexDigit(digit, upper)] + rest) == MeaningOf(Signed(sign, digit, upper)) + Unescape(rest)
  {
    HexIsRead(digit, upper);
    SignIsNoDigit(sign);
    UnescapeReadsHex(sign, HexDigit(digit, upper), rest);
  }

  lemma UnescapeReadsSimple(c: char, rest: string)
    requires Simple(c).Some?
    ensures Unescape(['\\', c] + rest) == [Simple(c).value] + Unescape(rest)
  {
    assert (['\\', c] + rest)[2..] == rest;
  }

  lemma UnescapeReadsHex(c: char, d: char, rest: string)
    requires TwoHex(c, d).Some?
    ensures Unescape(['\\', 'x', c, d] + rest) == [ToChar(TwoHex(c, d).value)] + Unescape(rest)
  {
    assert (['\\', 'x', c, d] + rest)[4..] == rest;
  }

  lemma PairIsKept(s: string)
    requires |s| > 1 && s[0] == '\\' && Simple(s[1]).None?
    requires s[1] == 'x' && |s| > 3 ==> TwoHex(s[2], s[3]).None?
    ensures Unescape(s) == s[..2] + Unescape(s[2..])
  {
  }

  lemma UnescapeKeepsPair(c: char, rest: string)
    requires c !in LETTERS && (c == 'x' ==> !StartsHex(rest))
    ensures Unescape(['\\', c] + rest) == ['\\', c] + Unescape(rest)
  {
    var s := ['\\', c] + rest;
    EscapesAre(c, c);
    if |rest| > 1 {
      EscapesAre(rest[0], rest[1]);
    }
    PairIsKept(s);
    assert s[..2] == ['\\', c] && s[2..] == rest;
  }

  lemma HexIsRead(n: nat, upper: bool)
    requires n < 16
    ensures IsHex(HexDigit(n, upper)) && HexValue(HexDigit(n, upper)) == n
  {
  }

  lemma SignIsNoDigit(c: char)
    requires c in "+-" || IsSpace(c)
    ensures !IsHex(c)
  {
  }

  /** And every text has such pieces, so that this says what decoding does to all texts. */
  lemma {:induction false} EveryTextIsWritten(s: string) returns (ps: seq<Piece>)
    ensures IsWritten(ps) && Text(ps) == s
    decreases |s|
  {
    if s == "" {
      ps := [];
    } else {
      var p := FirstPiece(s);
      var n := |TextOf(p)|;
      var rest := EveryTextIsWritten(s[n..]);
      ps := [p] + rest;
      assert s == s[..n] + s[n..];
    }
  }

  lemma FirstPiece(s: string) returns (p: Piece)
    requires s != ""
    ensures IsPiece(p) && TextOf(p) <= s && |TextOf(p)| > 0
    ensures FitsBefore(p, s[|TextOf(p)|..])
  {
    if s[0] != '\\' || |s| == 1 {
      p := Plain(s[0]);
    } else if s[1] in LETTERS {
      p := match s[1]
        case 'n' => LineFeed
        case 'r' => Return
        case 't' => Tab
        case '\'' => SingleQuote
        case '"' => DoubleQuote
        case _ => Backslash;
      assert s[1] == LETTERS[0] || s[1] == LETTERS[1] || s[1] == LETTERS[2] || s[1] == LETTERS[3] || s[1] == LETTERS[4]
          || s[1] == LETTERS[5];
    } else if s[1] == 'x' && StartsHex(s[2..]) {
      p := HexPiece(s);
    } else {
      p := Kept(s[1]);
    }
  }

  lemma HexPiece(s: string) returns (p: Piece)
    requires |s| > 3 && s[0] == '\\' && s[1] == 'x' && LooksHex(s[2], s[3])
    ensures IsPiece(p) && !p.Plain? && !p.Kept? && TextOf(p) == s[..4]
  {
    var low, lowUp := DigitIs(s[3]);
    if s[2] in LOWER || s[2] in UPPER {
      var high, highUp := DigitIs(s[2]);
      p := ByteOf(high, low, highUp, lowUp);
    } else {
      p := Signed(s[2], low, lowUp);
    }
  }

  lemma ByteOf(high: nat, low: nat, highUp: bool, lowUp: bool) returns (p: Piece)
    requires high < 16 && low < 16
    ensures p.Byte? && IsPiece(p) && TextOf(p) == ['\\', 'x', HexDigit(high, highUp), HexDigit(low, lowUp)]
  {
    var value := 16 * high + low;
    assert value / 16 == high && value % 16 == low;
    p := Byte(value, highUp, lowUp);
  }

  lemma DigitIs(c: char) returns (n: nat, upper: bool)
    requires c in LOWER || c in UPPER
    ensures n < 16 && HexDigit(n, upper) == c
  {
    if c in LOWER {
      var i :| 0 <= i < |LOWER| && LOWER[i] == c;
      n, upper := i, false;
    } else {
      var i :| 0 <= i < |UPPER| && UPPER[i] == c;
      n, upper := i, true;
    }
  }

  /** A printer: line feed, carriage return, tab, quotes and backslash as escapes, chosen bytes in hexadecimal. */
  function Escaped(s: string, hex: seq<bool>): (ps: seq<Piece>)
    requires |hex| == |s|
    ensures ArePieces(ps)
  {
    if s == "" then [] else [EscapedChar(s[0], hex[0])] + Escaped(s[1..], hex[1..])
  }

  function EscapedChar(c: char, hex: bool): (p: Piece)
    ensures IsPiece(p)
  {
    if hex && c as int < 256 then Byte(c as int, false, false)
    else match c
      case '\n' => LineFeed
      case '\r' => Return
      case '\t' => Tab
      case '\'' => SingleQuote
      case '"' => DoubleQuote
      case '\\' => Backslash
      case _ => Plain(c)
  }

  lemma TextOfCons(p: Piece, rest: seq<Piece>)
    requires IsPiece(p) && ArePieces(rest)
    ensures ArePieces([p] + rest) && Text([p] + rest) == TextOf(p) + Text(rest)
  {
    assert ([p] + rest)[1..] == rest;
  }

  lemma EscapedMeans(c: char, hex: bool)
    ensures MeaningOf(EscapedChar(c, hex)) == [c] && FitsBefore(EscapedChar(c, hex), "")
    ensures EscapedChar(c, hex).Plain? ==> c != '\\'
    ensures !EscapedChar(c, hex).Kept?
  {
  }

  /** Decoding undoes it, for every string and every choice. */
  lemma {:induction false} UnescapeEscaped(s: string, hex: seq<bool>)
    requires |hex| == |s|
    ensures Unescape(Text(Escaped(s, hex))) == s
    decreases |s|
  {
    if s != "" {
      var p, rest := EscapedChar(s[0], hex[0]), Escaped(s[1..], hex[1..]);
      UnescapeEscaped(s[1..], hex[1..]);
      EscapedMeans(s[0], hex[0]);
      UnescapeReadsPiece(p, Text(rest));
      TextOfCons(p, rest);
    }
  }

  lemma LaterEscape(s: string, k: nat, i: nat)
    requires k <= i
    ensures k <= |s| ==> (StartsEscape(s, i) <==> StartsEscape(s[k..], i - k))
  {
  }

  lemma CharIsKept(s: string)
    requires s != "" && (s[0] != '\\' || |s| == 1)
    ensures Unescape(s) == s[..1] + Unescape(s[1..])
  {
  }

  lemma NoEscape(s: string)
    requires !StartsEscape(s, 0) && |s| > 1 && s[0] == '\\'
    ensures Simple(s[1]).None? && (s[1] == 'x' && |s| > 3 ==> TwoHex(s[2], s[3]).None?)
  {
    EscapesAre(s[1], s[1]);
    if |s| > 3 {
      EscapesAre(s[2], s[3]);
    }
  }

  /** Reading goes on behind what is kept. */
  lemma KeepsFirst(s: string, k: nat)
    requires s != "" && !StartsEscape(s, 0) && k == if s[0] != '\\' || |s| == 1 then 1 else 2
    ensures Unescape(s) == s[..k] + Unescape(s[k..])
  {
    if k == 1 {
      CharIsKept(s);
    } else {
      NoEscape(s);
      PairIsKept(s);
    }
  }

  lemma ShortensFirst(s: string)
    requires StartsEscape(s, 0)
    ensures |Unescape(s)| < |s|
  {
    var c := s[1];
    EscapesAre(c, c);
    if c in LETTERS {
      UnescapeShrinks(s[2..]);
    } else {
      EscapesAre(s[2], s[3]);
      UnescapeShrinks(s[4..]);
    }
  }

  lemma {:induction false} UnescapeKeeps(s: string)
    requires forall i: nat :: !StartsEscape(s, i)
    ensures Unescape(s) == s
  {
    if s != "" {
      var k := if s[0] != '\\' || |s| == 1 then 1 else 2;
      assert !StartsEscape(s, 0);
      forall i: nat ensures !StartsEscape(s[k..], i) {
        LaterEscape(s, k, i + k);
      }
      KeepsFirst(s, k);
      UnescapeKeeps(s[k..]);
      assert s == s[..k] + s[k..];
    }
  }

  /** An escape that is not the first thing read is read behind it. */
  lemma EscapeBehind(s: string, k: nat, i: nat)
    requires StartsEscape(s, i) && !StartsEscape(s, 0) && k == if s[0] != '\\' then 1 else 2
    ensures k <= i && k <= |s| && StartsEscape(s[k..], i - k)
  {
    assert '\\' == LETTERS[5];
    LaterEscape(s, k, i);
  }

  lemma {:induction false} UnescapeShortens(s: string, i: nat)
    requires StartsEscape(s, i)
    ensures |Unescape(s)| < |s|
    decreases |s|
  {
    if StartsEscape(s, 0) {
      ShortensFirst(s);
    } else {
      var k := if s[0] != '\\' then 1 else 2;
      EscapeBehind(s, k, i);
      UnescapeShortens(s[k..], i - k);
      KeepsFirst(s, k);
    }
  }

  /** Text is left as it is exactly when no escape starts anywhere in it. */
  lemma UnescapeKeepsExactlyWhen(s: string)
    ensures Unescape(s) == s <==> forall i: nat :: !StartsEscape(s, i)
  {
    if i: nat :| StartsEscape(s, i) {
      UnescapeShortens(s, i);
    } else {
      UnescapeKeeps(s);
    }
  }
}
