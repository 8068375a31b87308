/** UTF-8, and the application/x-www-form-urlencoded format (section 5 of the WHATWG
    URL Standard) that `URLSearchParams` reads and writes. */
module UrlEncoding {
  import opened Splitting

  type Byte = n: nat | n < 256

  // ----- UTF-8 -----

  function Utf8Char(c: char): seq<Byte> {
    var n := c as int;
    if n < 0x80 then [n]
    else if n < 0x800 then [0xC0 + n / 64, 0x80 + n % 64]
    else if n < 0x1_0000 then [0xE0 + n / 4096, 0x80 + n / 64 % 64, 0x80 + n % 64]
    else [0xF0 + n / 262144, 0x80 + n / 4096 % 64, 0x80 + n / 64 % 64, 0x80 + n % 64]
  }

  function Utf8(s: string): seq<Byte> {
    if s == "" then [] else Utf8Char(s[0]) + Utf8(s[1..])
  }

  const REPLACEMENT: char := '\U{FFFD}'

  /** Byte `i` is there and within bounds. */
  predicate In(bs: seq<Byte>, i: nat, low: nat, high: nat) { i < |bs| && low <= bs[i] <= high }

  /** The bounds of the second byte, by the first. */
  function Low(b: Byte): nat { if b == 0xE0 then 0xA0 else if b == 0xF0 then 0x90 else 0x80 }

  function High(b: Byte): nat { if b == 0xED then 0x9F else if b == 0xF4 then 0x8F else 0xBF }

  /** One step of the decoder: a character, and how many bytes it took.  A sequence that
      breaks off becomes a replacement character, and the byte that broke it is read again. */
  datatype Decoded = Decoded(c: char, len: nat)

  /** The payload of a continuation byte. */
  function Payload(b: Byte): int { b - 0x80 }

  function DecodeOne(bs: seq<Byte>): (d: Decoded)
    requires bs != []
    ensures 0 < d.len <= |bs|
  {
    var b: int := bs[0];
    if b < 0x80 then Decoded(b as char, 1)
    else if 0xC2 <= b <= 0xDF then
      if !In(bs, 1, 0x80, 0xBF) then Decoded(REPLACEMENT, 1)
      else Decoded(((b - 0xC0) * 64 + Payload(bs[1])) as char, 2)
    else if 0xE0 <= b <= 0xEF then
      if !In(bs, 1, Low(b), High(b)) then Decoded(REPLACEMENT, 1)
      else if !In(bs, 2, 0x80, 0xBF) then Decoded(REPLACEMENT, 2)
      else Decoded(((b - 0xE0) * 4096 + Payload(bs[1]) * 64 + Payload(bs[2])) as char, 3)
    else if 0xF0 <= b <= 0xF4 then
      if !In(bs, 1, Low(b), High(b)) then Decoded(REPLACEMENT, 1)
      else if !In(bs, 2, 0x80, 0xBF) then Decoded(REPLACEMENT, 2)
      else if !In(bs, 3, 0x80, 0xBF) then Decoded(REPLACEMENT, 3)
      else Decoded(((b - 0xF0) * 262144 + Payload(bs[1]) * 4096 + Payload(bs[2]) * 64 + Payload(bs[3])) as char, 4)
    else Decoded(REPLACEMENT, 1)
  }

  function Utf8Decode(bs: seq<Byte>): string
    decreases |bs|
  {
    if bs == [] then ""
    else
      var d := DecodeOne(bs);
      [d.c] + Utf8Decode(bs[d.len..])
  }

  lemma DecodeOneChar(c: char, rest: seq<Byte>)
    ensures DecodeOne(Utf8Char(c) + rest) == Decoded(c, |Utf8Char(c)|)
  {
    var n := c as int;
    if n < 0x80 {
    } else if n < 0x800 {
      DecodeTwo(c, Utf8Char(c) + rest);
    } else if n < 0x1_0000 {
      DecodeThree(c, Utf8Char(c) + rest);
    } else {
      DecodeFour(c, Utf8Char(c) + rest);
    }
  }

  lemma DecodeTwo(c: char, bs: seq<Byte>)
    requires 0x80 <= c as int < 0x800 && |bs| >= 2
    requires bs[0] == 0xC0 + c as int / 64 && bs[1] == 0x80 + c as int % 64
    ensures DecodeOne(bs) == Decoded(c, 2)
  {
  }

  lemma DecodeThree(c: char, bs: seq<Byte>)
    requires 0x800 <= c as int < 0x1_0000 && |bs| >= 3
    requires bs[0] == 0xE0 + c as int / 4096 && bs[1] == 0x80 + c as int / 64 % 64 && bs[2] == 0x80 + c as int % 64
    ensures DecodeOne(bs) == Decoded(c, 3)
  {
    var n := c as int;
    assert n < 0xD800 || 0xE000 <= n;
    assert n == n / 4096 * 4096 + n / 64 % 64 * 64 + n % 64;
  }

  lemma DecodeFour(c: char, bs: seq<Byte>)
    requires 0x1_0000 <= c as int && |bs| >= 4
    requires bs[0] == 0xF0 + c as int / 262144 && bs[1] == 0x80 + c as int / 4096 % 64
    requires bs[2] == 0x80 + c as int / 64 % 64 && bs[3] == 0x80 + c as int % 64
    ensures DecodeOne(bs) == Decoded(c, 4)
  {
    var n := c as int;
    assert n < 0x11_0000;
    assert n == n / 262144 * 262144 + n / 4096 % 64 * 4096 + n / 64 % 64 * 64 + n % 64;
  }

  /** Decoding undoes encoding. */
  lemma {:induction false} Utf8RoundTrip(s: string)
    ensures Utf8Decode(Utf8(s)) == s
  {
    if s != "" {
      var head, rest := Utf8Char(s[0]), Utf8(s[1..]);
      DecodeOneChar(s[0], rest);
      assert (head + rest)[|head|..] == rest;
      Utf8RoundTrip(s[1..]);
      assert s == [s[0]] + s[1..];
    }
  }

  lemma EncodeTwo(a: int, b: int)
    requires 2 <= a < 32 && 0 <= b < 64
    ensures Utf8Char((a * 64 + b) as char) == [0xC0 + a, 0x80 + b]
  {
  }

  lemma EncodeThree(a: int, b: int, c: int)
    requires 0 <= a < 16 && 0 <= b < 64 && 0 <= c < 64 && a * 4096 + b * 64 >= 0x800
    requires a * 4096 + b * 64 + c < 0xD800 || 0xE000 <= a * 4096 + b * 64
    ensures Utf8Char((a * 4096 + b * 64 + c) as char) == [0xE0 + a, 0x80 + b, 0x80 + c]
  {
    var n := a * 4096 + b * 64 + c;
    assert n / 4096 == a && n / 64 == a * 64 + b && (a * 64 + b) % 64 == b && n % 64 == c;
  }

  lemma EncodeFour(a: int, b: int, c: int, d: int)
    requires 0 <= a < 5 && 0 <= b < 64 && 0 <= c < 64 && 0 <= d < 64
    requires 0x1_0000 <= a * 262144 + b * 4096 && a * 262144 + b * 4096 + c * 64 + d < 0x11_0000
    ensures Utf8Char((a * 262144 + b * 4096 + c * 64 + d) as char) == [0xF0 + a, 0x80 + b, 0x80 + c, 0x80 + d]
  {
    var n := a * 262144 + b * 4096 + c * 64 + d;
    assert n / 262144 == a && n / 4096 == a * 64 + b && n / 64 == (a * 64 + b) * 64 + c;
    assert (a * 64 + b) % 64 == b && ((a * 64 + b) * 64 + c) % 64 == c && n % 64 == d;
  }

  /** A character was there in full, or is replaced. */
  lemma DecodedInFull(bs: seq<Byte>)
    requires bs != []
    ensures var d := DecodeOne(bs); d.c == REPLACEMENT || Utf8Char(d.c) == bs[..d.len]
  {
    var b: int := bs[0];
    var d := DecodeOne(bs);
    if d.len == 2 && d.c != REPLACEMENT {
      EncodeTwo(b - 0xC0, Payload(bs[1]));
    } else if d.len == 3 && d.c != REPLACEMENT {
      EncodeThree(b - 0xE0, Payload(bs[1]), Payload(bs[2]));
    } else if d.len == 4 && d.c != REPLACEMENT {
      EncodeFour(b - 0xF0, Payload(bs[1]), Payload(bs[2]), Payload(bs[3]));
    }
  }

  /** Bytes that are no UTF-8 are never taken for other text: encoding gives them back, or
      there is a replacement character. */
  lemma {:induction false} DecodedOrReplaced(bs: seq<Byte>)
    ensures Utf8(Utf8Decode(bs)) == bs || REPLACEMENT in Utf8Decode(bs)
    decreases |bs|
  {
    if bs != [] {
      var d := DecodeOne(bs);
      DecodedInFull(bs);
      DecodedOrReplaced(bs[d.len..]);
      assert bs == bs[..d.len] + bs[d.len..];
      assert ([d.c] + Utf8Decode(bs[d.len..]))[1..] == Utf8Decode(bs[d.len..]);
    }
  }

  // ----- percent-encoding -----

  function HexDigit(n: nat): char
    requires n < 16
  {
    if n < 10 then (n + '0' as int) as char else (n - 10 + 'A' as int) as char
  }

  predicate IsHex(c: char) { '0' <= c <= '9' || 'A' <= c <= 'F' || 'a' <= c <= 'f' }

  function HexValue(c: char): (n: nat)
    requires IsHex(c)
    ensures n < 16
  {
    if c <= '9' then c as int - '0' as int
    else if c <= 'F' then c as int - 'A' as int + 10
    else c as int - 'a' as int + 10
  }

  /** Bytes the format leaves as they are. */
  predicate Plain(b: Byte) {
    '0' as int <= b <= '9' as int || 'A' as int <= b <= 'Z' as int || 'a' as int <= b <= 'z' as int
    || b == '*' as int || b == '-' as int || b == '.' as int || b == '_' as int
  }

  function EncodeByte(b: Byte): string {
    if b == ' ' as int then "+"
    else if Plain(b) then [b as char]
    else ['%', HexDigit(b / 16), HexDigit(b % 16)]
  }

  function EncodeBytes(bs: seq<Byte>): string {
    if bs == [] then "" else EncodeByte(bs[0]) + EncodeBytes(bs[1..])
  }

  function Encode(s: string): string { EncodeBytes(Utf8(s)) }

  function DecodeBytes(s: string): seq<Byte>
    decreases |s|
  {
    if s == "" then []
    else if s[0] == '+' then [' ' as int] + DecodeBytes(s[1..])
    else if s[0] == '%' && |s| >= 3 && IsHex(s[1]) && IsHex(s[2]) then
      [16 * HexValue(s[1]) + HexValue(s[2])] + DecodeBytes(s[3..])
    else Utf8Char(s[0]) + DecodeBytes(s[1..])
  }

  function Decode(s: string): string { Utf8Decode(DecodeBytes(s)) }

  lemma HexRoundTrip(n: nat)
    requires n < 16
    ensures IsHex(HexDigit(n)) && HexValue(HexDigit(n)) == n
  {
  }

  lemma DecodeByte(b: Byte, rest: string)
    ensures DecodeBytes(EncodeByte(b) + rest) == [b] + DecodeBytes(rest)
  {
    var e := EncodeByte(b);
    var s := e + rest;
    assert s[|e|..] == rest && s[0] == e[0];
    if |e| == 3 {
      HexRoundTrip(b / 16);
      HexRoundTrip(b % 16);
      assert s[1] == e[1] && s[2] == e[2];
    }
  }

  const HEX: string := "0123456789ABCDEF"

  /** Letters, digits, and four other characters. */
  predicate Unreserved(c: char) {
    'A' <= c <= 'Z' || 'a' <= c <= 'z' || '0' <= c <= '9' || c in "*-._"
  }

  /** A space is written as a plus sign, an unreserved character as itself, and any other
      byte as a percent sign and two upper-case hexadecimal digits. */
  lemma EncodedByte(b: Byte)
    ensures EncodeByte(b) == "+" <==> b as char == ' '
    ensures EncodeByte(b) == [b as char] <==> Unreserved(b as char)
    ensures b as char != ' ' && !Unreserved(b as char) ==> EncodeByte(b) == ['%', HEX[b / 16], HEX[b % 16]]
  {
    if b as char != ' ' && !Unreserved(b as char) {
      HexDigitIs(b / 16);
      HexDigitIs(b % 16);
    }
  }

  lemma HexDigitIs(n: nat)
    requires n < 16
    ensures HexDigit(n) == HEX[n]
  {
  }

  /** Unreserved text is written as it is. */
  lemma {:induction false} EncodedAsIs(s: string)
    requires forall k :: 0 <= k < |s| ==> Unreserved(s[k])
    ensures Encode(s) == s
  {
    if s != "" {
      EncodedAsIs(s[1..]);
      EncodedByte(s[0] as int);
      var rest := Utf8(s[1..]);
      assert Utf8Char(s[0]) + rest == [s[0] as int] + rest;
      assert ([s[0] as int] + rest)[1..] == rest;
      assert s == [s[0]] + s[1..];
    }
  }

  /** Text as it may be written by hand: a percent sign with two hexadecimal digits behind
      it is a byte. */
  lemma DecodeEscape(c: char, d: char, rest: string)
    requires IsHex(c) && IsHex(d)
    ensures DecodeBytes(['%', c, d] + rest) == [16 * HexValue(c) + HexValue(d)] + DecodeBytes(rest)
  {
    var s := ['%', c, d] + rest;
    assert s[0] == '%' && s[1] == c && s[2] == d && s[3..] == rest;
  }

  /** A plus sign is a space, and anything else, a percent sign without digits too, is itself. */
  lemma DecodeOther(c: char, rest: string)
    requires c == '%' ==> |rest| < 2 || !IsHex(rest[0]) || !IsHex(rest[1])
    ensures DecodeBytes([c] + rest) == Utf8Char(if c == '+' then ' ' else c) + DecodeBytes(rest)
  {
    var s := [c] + rest;
    assert s[1..] == rest && s[0] == c;
    assert |s| >= 3 ==> s[1] == rest[0] && s[2] == rest[1];
  }

  lemma {:induction false} DecodeEncodedBytes(bs: seq<Byte>)
    ensures DecodeBytes(EncodeBytes(bs)) == bs
  {
    if bs != [] {
      DecodeByte(bs[0], EncodeBytes(bs[1..]));
      DecodeEncodedBytes(bs[1..]);
      assert bs == [bs[0]] + bs[1..];
    }
  }

  /** The characters encoded text is made of. */
  predicate Safe(c: char) { IsHex(c) || 'G' <= c <= 'Z' || 'g' <= c <= 'z' || c in "+%*-._" }

  lemma {:induction false} EncodedIsSafe(bs: seq<Byte>)
    ensures forall k :: 0 <= k < |EncodeBytes(bs)| ==> Safe(EncodeBytes(bs)[k])
  {
    if bs != [] {
      EncodedIsSafe(bs[1..]);
      HexRoundTrip(bs[0] / 16);
      HexRoundTrip(bs[0] % 16);
    }
  }

  lemma DecodeEncoded(s: string)
    ensures Decode(Encode(s)) == s
    ensures forall k :: 0 <= k < |Encode(s)| ==> Safe(Encode(s)[k])
  {
    DecodeEncodedBytes(Utf8(s));
    Utf8RoundTrip(s);
    EncodedIsSafe(Utf8(s));
  }

  // ----- the format -----

  datatype Pair = Pair(name: string, value: string)

  function WritePair(p: Pair): string { Encode(p.name) + "=" + Encode(p.value) }

  function WritePairs(ps: seq<Pair>): (r: seq<string>)
    ensures |r| == |ps| && forall k :: 0 <= k < |r| ==> r[k] == WritePair(ps[k])
  {
    seq(|ps|, k requires 0 <= k < |ps| => WritePair(ps[k]))
  }

  /** `URLSearchParams.toString`. */
  function Write(ps: seq<Pair>): string { Join('&', WritePairs(ps)) }

  /** A piece between ampersands: split at its first `=`. */
  function ReadPair(piece: string): Pair {
    var parts := Split('=', piece);
    Pair(Decode(parts[0]), Decode(Join('=', parts[1..])))
  }

  /** The pairs of the pieces from `k` on; empty pieces are passed over. */
  function ReadPairs(pieces: seq<string>, k: nat): seq<Pair>
    requires k <= |pieces|
    decreases |pieces| - k
  {
    if k == |pieces| then []
    else if pieces[k] == "" then ReadPairs(pieces, k + 1)
    else [ReadPair(pieces[k])] + ReadPairs(pieces, k + 1)
  }

  /** `new URLSearchParams(query)`. */
  function Read(query: string): seq<Pair> { ReadPairs(Split('&', query), 0) }

  /** A piece is split at its first `=`, whatever comes after that; without one it is a name. */
  lemma ReadPairIs(name: string, value: string)
    requires '=' !in name
    ensures ReadPair(name + "=" + value) == Pair(Decode(name), Decode(value))
    ensures ReadPair(name) == Pair(Decode(name), "")
  {
    SplitFirst('=', name, value);
    assert name + ['='] + value == name + "=" + value;
    assert ([name] + Split('=', value))[1..] == Split('=', value);
    JoinSplit('=', value);
    SplitOnePart('=', name);
    assert Join('=', []) == "" && Decode("") == "";
  }

  lemma {:induction false} ReadFrom(first: string, rest: seq<string>, k: nat)
    requires k <= |rest|
    ensures ReadPairs([first] + rest, k + 1) == ReadPairs(rest, k)
    decreases |rest| - k
  {
    if k < |rest| {
      assert ([first] + rest)[k + 1] == rest[k];
      ReadFrom(first, rest, k + 1);
    }
  }

  /** The pairs of a query are those of its pieces, in order; an empty piece has none. */
  lemma ReadPieces(piece: string, rest: string)
    requires '&' !in piece
    ensures Read(piece + "&" + rest) == (if piece == "" then [] else [ReadPair(piece)]) + Read(rest)
    ensures Read(piece) == if piece == "" then [] else [ReadPair(piece)]
  {
    SplitFirst('&', piece, rest);
    assert piece + ['&'] + rest == piece + "&" + rest;
    ReadFrom(piece, Split('&', rest), 0);
    SplitOnePart('&', piece);
    assert ReadPairs([piece], 1) == [];
  }

  lemma ReadWrittenPair(p: Pair)
    ensures ReadPair(WritePair(p)) == p
  {
    var n, v := Encode(p.name), Encode(p.value);
    DecodeEncoded(p.name);
    DecodeEncoded(p.value);
    SplitTwo('=', n, v);
    assert n + ['='] + v == WritePair(p);
    assert [n, v][1..] == [v];
  }

  lemma WrittenPairIsPiece(p: Pair)
    ensures OnePart('&', WritePair(p)) && WritePair(p) != ""
  {
    DecodeEncoded(p.name);
    DecodeEncoded(p.value);
  }

  lemma FirstOfRest<T>(xs: seq<T>, k: nat)
    requires k < |xs|
    ensures xs[k..] == [xs[k]] + xs[k + 1..]
  {
  }

  lemma ReadNext(pieces: seq<string>, k: nat, p: Pair)
    requires k < |pieces| && pieces[k] == WritePair(p)
    ensures ReadPairs(pieces, k) == [p] + ReadPairs(pieces, k + 1)
  {
    ReadWrittenPair(p);
    WrittenPairIsPiece(p);
  }

  lemma {:induction false} ReadWrittenPairs(ps: seq<Pair>, k: nat)
    requires k <= |ps|
    ensures ReadPairs(WritePairs(ps), k) == ps[k..]
    decreases |ps| - k
  {
    if k < |ps| {
      ReadWrittenPairs(ps, k + 1);
      ReadNext(WritePairs(ps), k, ps[k]);
      FirstOfRest(ps, k);
    }
  }

  lemma WriteFew(p: Pair, q: Pair)
    ensures Write([]) == "" && Write([p]) == WritePair(p) && Write([p, q]) == WritePair(p) + "&" + WritePair(q)
  {
    var a, b := WritePair(p), WritePair(q);
    assert WritePairs([p, q]) == [a, b] && WritePairs([p]) == [a] && [a, b][1..] == [b];
    assert Join('&', [a, b]) == a + ['&'] + Join('&', [b]) && Join('&', [b]) == b;
    assert a + "&" + b == a + ['&'] + b;
  }

  /** A query as written has no other characters. */
  predicate QueryChars(s: string) { forall c :: c in s ==> Safe(c) || c == '=' || c == '&' }

  /** Reading gives back what was written, for every list of pairs. */
  lemma ReadUndoesWrite(ps: seq<Pair>)
    ensures Read(Write(ps)) == ps && QueryChars(Write(ps))
  {
    forall k | 0 <= k < |ps| ensures OnePart('&', WritePair(ps[k])) {
      WrittenPairIsPiece(ps[k]);
    }
    if ps == [] {
      assert ReadPairs([""], 1) == [];
    } else {
      SplitJoin('&', WritePairs(ps));
      ReadWrittenPairs(ps, 0);
    }
    WrittenChars(ps);
  }

  lemma {:induction false} WrittenChars(ps: seq<Pair>)
    ensures QueryChars(Write(ps))
  {
    if ps != [] {
      var rest := WritePairs(ps[1..]);
      DecodeEncoded(ps[0].name);
      DecodeEncoded(ps[0].value);
      assert QueryChars(WritePair(ps[0]));
      assert WritePairs(ps)[1..] == rest;
      WrittenChars(ps[1..]);
      assert Write(ps) == if |ps| == 1 then WritePair(ps[0]) else WritePair(ps[0]) + ['&'] + Join('&', rest);
    }
  }
}
