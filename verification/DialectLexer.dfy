/** The Dialect tokenizer (outdated/mcp-server/src/dialect/parser.rs). */
module DialectLexer {
  import opened Numerals

  datatype TokenKind =
    | Ident(name: string)
    | Integer(n: nat)
    | Boolean(b: bool)
    | Str(s: string)
    | Sym(c: char)

  /** A token and its span in bytes. */
  datatype Token = Token(kind: TokenKind, start: nat, end: nat)

  datatype ParseError =
    | UnexpectedEof(position: nat)
    | UnexpectedToken(token: TokenKind, position: nat)
    | UnexpectedIdent(position: nat)
    | ExpectedCloseParen(position: nat)
    | ExpectedCloseBracket(position: nat)
    | ExpectedCloseBrace(position: nat)
    | ExpectedColon(position: nat)
    | ExpectedStringOrIdent(position: nat)
    | UnterminatedString(position: nat)
    | InvalidEscape(c: char, position: nat)
    | UnterminatedEscape(position: nat)
    | UnexpectedChar(c: char, preceding: string, position: nat)

  /** A result, an error, or the panic of `num.parse().unwrap()` on a literal that
      does not fit 64 bits. */
  datatype Outcome<+T> = Ok(value: T) | Err(error: ParseError) | Panic

  const TWO_TO_THE_64: nat := 0x1_0000_0000_0000_0000

  /** The Unicode properties `char::is_alphabetic` and `char::is_whitespace`. */
  datatype Unicode = Unicode(alphabetic: char -> bool, whitespace: char -> bool)

  predicate AsciiLetter(c: char) { 'a' <= c <= 'z' || 'A' <= c <= 'Z' }

  predicate IsQuote(c: char) { c == '"' || c == '\'' || c == '`' }

  predicate IsSymbol(c: char) { c in "[]{}(),:" }

  /** What is known of the two properties: their ASCII members, and disjointness. */
  ghost predicate Standard(u: Unicode) {
    && (forall c: char :: c < 128 as char ==> (u.alphabetic(c) <==> AsciiLetter(c)))
    && (forall c: char :: c < 128 as char ==> (u.whitespace(c) <==> c == ' ' || 9 as char <= c <= 13 as char))
    && (forall c: char :: !(u.alphabetic(c) && u.whitespace(c)))
  }

  /** Length in UTF-8. */
  function Utf8Len(c: char): nat {
    var n := c as int;
    if n < 0x80 then 1 else if n < 0x800 then 2 else if n < 0x1_0000 then 3 else 4
  }

  function Bytes(s: string): nat {
    if s == "" then 0 else Bytes(s[..|s| - 1]) + Utf8Len(s[|s| - 1])
  }

  lemma {:induction false} BytesAppend(a: string, b: string)
    ensures Bytes(a + b) == Bytes(a) + Bytes(b)
    decreases |b|
  {
    if b == "" {
      assert a + b == a;
    } else {
      var n := |b| - 1;
      assert (a + b)[..|a + b| - 1] == a + b[..n];
      BytesAppend(a, b[..n]);
    }
  }

  function WordKind(text: string): TokenKind {
    if text == "true" then Boolean(true) else if text == "false" then Boolean(false) else Ident(text)
  }

  /** What a character after a backslash stands for. */
  function Unescape(c: char): string {
    if c == 'n' then "\n" else if c == 't' then "\t" else if c == 'r' then "\r"
    else if IsQuote(c) || c == '\\' then [c]
    else ""
  }

  /** The rest of a string literal: closed, with the index after the closing quote,
      or not closed, or stopped at the index of a backslash. */
  datatype Scanned = Closed(end: nat, value: string) | NoClose | BadEscape(at: nat, c: char) | CutEscape(at: nat)
  {
    function After(text: string): Scanned {
      if Closed? then Closed(end, text + value) else this
    }

    function Shift(k: nat): Scanned {
      match this
      case Closed(end, value) => Closed(end + k, value)
      case NoClose => NoClose
      case BadEscape(at, c) => BadEscape(at + k, c)
      case CutEscape(at) => CutEscape(at + k)
    }
  }

  /** One character of a string body, or an escape: how many characters it takes
      and what it stands for, if it stands for anything. */
  datatype Bit = Good(len: nat, text: string) | Bad | Dangling

  function BitAt(s: string, i: nat): (b: Bit)
    requires i < |s|
    ensures b.Good? ==> 0 < b.len <= |s| - i
    ensures b.Bad? ==> i + 1 < |s|
  {
    if s[i] != '\\' then Good(1, [s[i]])
    else if i + 1 == |s| then Dangling
    else if Unescape(s[i + 1]) == "" then Bad
    else Good(2, Unescape(s[i + 1]))
  }

  /** Read a string literal on from index `i`. */
  function Scan(quote: char, s: string, i: nat): (r: Scanned)
    requires i <= |s|
    ensures r.Closed? ==> i < r.end <= |s|
    ensures r.BadEscape? || r.CutEscape? ==> i <= r.at < |s|
    decreases |s| - i
  {
    if i == |s| then NoClose
    else if s[i] == quote then Closed(i + 1, "")
    else
      match BitAt(s, i)
      case Good(len, text) => Scan(quote, s, i + len).After(text)
      case Bad => BadEscape(i, s[i + 1])
      case Dangling => CutEscape(i)
  }

  function Prepend<T>(xs: seq<T>, r: Outcome<seq<T>>): Outcome<seq<T>> {
    match r
    case Ok(ys) => Ok(xs + ys)
    case _ => r
  }

  /** A token's kind and how many characters it takes. */
  datatype Piece = Piece(kind: TokenKind, len: nat)

  predicate Skipped(u: Unicode, c: char) { !IsDigit(c) && !u.alphabetic(c) && u.whitespace(c) }

  /** What scanning the string literal at the front of `rest` amounts to. */
  function Literal(before: string, rest: string, scanned: Scanned): (r: Outcome<Piece>)
    requires scanned.BadEscape? || scanned.CutEscape? ==> scanned.at <= |rest|
    ensures r.Ok? <==> scanned.Closed?
    ensures r.Ok? ==> r.value.len == scanned.end
  {
    match scanned
    case Closed(end, value) => Ok(Piece(Str(value), end))
    case NoClose => Err(UnterminatedString(Bytes(before)))
    case BadEscape(at, e) => Err(InvalidEscape(e, Bytes(before + rest[..at])))
    case CutEscape(at) => Err(UnterminatedEscape(Bytes(before + rest[..at])))
  }

  /** The token at the front of `rest`, the part of the input after `before`. */
  function First(u: Unicode, before: string, rest: string): (r: Outcome<Piece>)
    requires rest != "" && !Skipped(u, rest[0])
    ensures r.Ok? ==> 0 < r.value.len <= |rest|
  {
    var c := rest[0];
    if IsDigit(c) then
      var n := LeadingRun(IsDigit, rest);
      if Decimal(rest[..n]) >= TWO_TO_THE_64 then Panic else Ok(Piece(Integer(Decimal(rest[..n])), n))
    else if u.alphabetic(c) then
      var n := LeadingRun(u.alphabetic, rest);
      Ok(Piece(WordKind(rest[..n]), n))
    else if IsQuote(c) then
      Literal(before, rest, Scan(c, rest, 1))
    else if IsSymbol(c) then Ok(Piece(Sym(c), 1))
    else Err(UnexpectedChar(c, before, Bytes(before)))
  }

  /** The tokens of `rest`, the part of the input after `before`. */
  function Lex(u: Unicode, before: string, rest: string): Outcome<seq<Token>>
    decreases |rest|
  {
    if rest == "" then Ok([])
    else if Skipped(u, rest[0]) then Lex(u, before + rest[..1], rest[1..])
    else
      match First(u, before, rest)
      case Err(e) => Err(e)
      case Panic => Panic
      case Ok(p) =>
        var next := before + rest[..p.len];
        Prepend([Token(p.kind, Bytes(before), Bytes(next))], Lex(u, next, rest[p.len..]))
  }

  // ----- the tokenizer's loops -----

  lemma BytesNext(input: string, k: nat)
    requires k < |input|
    ensures Bytes(input[..k + 1]) == Bytes(input[..k]) + Utf8Len(input[k])
  {
    assert input[..k + 1][..k] == input[..k];
  }

  /** Keep taking characters while `p` holds; character and byte index of the end. */
  method TakeChars(input: string, start: nat, startAt: nat, p: char -> bool) returns (end: nat, endAt: nat)
    requires start < |input| && p(input[start]) && startAt == Bytes(input[..start])
    ensures end == start + LeadingRun(p, input[start..]) && endAt == Bytes(input[..end])
  {
    end := start + 1;
    endAt := startAt + Utf8Len(input[start]);
    BytesNext(input, start);
    while end < |input| && p(input[end])
      invariant start < end <= |input| && endAt == Bytes(input[..end])
      invariant forall k :: start <= k < end ==> p(input[k])
    {
      BytesNext(input, end);
      endAt := endAt + Utf8Len(input[end]);
      end := end + 1;
    }
    LeadingRunUnique(p, input[start..], end - start);
  }

  lemma AfterAfter(r: Scanned, a: string, b: string)
    ensures r.After(b).After(a) == r.After(a + b)
  {
    if r.Closed? {
      assert a + (b + r.value) == (a + b) + r.value;
    }
  }

  /** One more character or escape in the buffer. */
  lemma ScanOn(quote: char, input: string, i: nat, buffer: string)
    requires i < |input| && input[i] != quote && BitAt(input, i).Good?
    ensures var b := BitAt(input, i);
            Scan(quote, input, i).After(buffer) == Scan(quote, input, i + b.len).After(buffer + b.text)
  {
    var b := BitAt(input, i);
    AfterAfter(Scan(quote, input, i + b.len), buffer, b.text);
  }

  /** Fill the string buffer up to the closing quote. */
  method ScanString(quote: char, input: string, start: nat) returns (r: Scanned)
    requires start <= |input|
    ensures r == Scan(quote, input, start)
  {
    var buffer := "";
    var i := start;
    while i < |input| && input[i] != quote
      invariant start <= i <= |input|
      invariant Scan(quote, input, start) == Scan(quote, input, i).After(buffer)
    {
      match BitAt(input, i) {
        case Bad => return BadEscape(i, input[i + 1]);
        case Dangling => return CutEscape(i);
        case Good(len, text) =>
          ScanOn(quote, input, i, buffer);
          buffer := buffer + text;
          i := i + len;
      }
    }
    if i == |input| {
      return NoClose;
    }
    return Closed(i + 1, buffer);
  }

  lemma BitShift(input: string, s: string, k: nat, i: nat)
    requires k <= |input| && s == input[k..] && i < |s|
    ensures s[i] == input[k + i] && BitAt(s, i) == BitAt(input, k + i)
    ensures i + 1 < |s| ==> s[i + 1] == input[k + i + 1]
  {
  }

  /** Whether the scan goes on behind what is at `i`. */
  predicate GoesOn(quote: char, s: string, i: nat) { i < |s| && s[i] != quote && BitAt(s, i).Good? }

  lemma ScanGood(quote: char, s: string, i: nat)
    requires GoesOn(quote, s, i)
    ensures var b := BitAt(s, i); Scan(quote, s, i) == Scan(quote, s, i + b.len).After(b.text)
  {
  }

  lemma StopShift(quote: char, input: string, s: string, k: nat, i: nat)
    requires k <= |input| && s == input[k..] && i <= |s| && !GoesOn(quote, s, i)
    ensures Scan(quote, input, k + i) == Scan(quote, s, i).Shift(k)
  {
    if i < |s| {
      BitShift(input, s, k, i);
    }
  }

  /** Scanning does not depend on where the text starts. */
  lemma {:induction false} ScanShift(quote: char, input: string, s: string, k: nat, i: nat)
    requires k <= |input| && s == input[k..] && i <= |s|
    ensures Scan(quote, input, k + i) == Scan(quote, s, i).Shift(k)
    decreases |s| - i
  {
    if GoesOn(quote, s, i) {
      var b := BitAt(s, i);
      BitShift(input, s, k, i);
      ScanGood(quote, s, i);
      ScanGood(quote, input, k + i);
      ScanShift(quote, input, s, k, i + b.len);
      AfterShift(Scan(quote, s, i + b.len), b.text, k);
    } else {
      StopShift(quote, input, s, k, i);
    }
  }

  lemma AfterShift(r: Scanned, text: string, k: nat)
    ensures r.Shift(k).After(text) == r.After(text).Shift(k)
  {
  }

  lemma PrependPrepend<T>(xs: seq<T>, ys: seq<T>, r: Outcome<seq<T>>)
    ensures Prepend(xs, Prepend(ys, r)) == Prepend(xs + ys, r)
  {
    if r.Ok? {
      assert xs + (ys + r.value) == (xs + ys) + r.value;
    }
  }

  lemma PrependNothing<T>(r: Outcome<seq<T>>)
    ensures Prepend([], r) == r
  {
    if r.Ok? {
      assert [] + r.value == r.value;
    }
  }

  /** `before + rest` cut at `k`, when it is the input. */
  lemma Cut(input: string, k: nat, n: nat)
    requires k + n <= |input|
    ensures input[..k] + input[k..][..n] == input[..k + n] && input[k..][n..] == input[k + n..]
  {
  }

  /** A number or a word. */
  method TakeRun(u: Unicode, input: string, k: nat, at: nat) returns (r: Outcome<Piece>)
    requires k < |input| && at == Bytes(input[..k]) && (IsDigit(input[k]) || u.alphabetic(input[k]))
    ensures r == First(u, input[..k], input[k..])
  {
    if IsDigit(input[k]) {
      var end, endAt := TakeChars(input, k, at, IsDigit);
      var text := input[k..end];
      assert text == input[k..][..end - k];
      r := if Decimal(text) >= TWO_TO_THE_64 then Panic else Ok(Piece(Integer(Decimal(text)), end - k));
    } else {
      var end, endAt := TakeChars(input, k, at, u.alphabetic);
      assert input[k..end] == input[k..][..end - k];
      r := Ok(Piece(WordKind(input[k..end]), end - k));
    }
  }

  /** A string literal. */
  method TakeString(u: Unicode, input: string, k: nat, at: nat) returns (r: Outcome<Piece>)
    requires k < |input| && at == Bytes(input[..k]) && IsQuote(input[k])
    requires !IsDigit(input[k]) && !u.alphabetic(input[k]) && !u.whitespace(input[k])
    ensures r == First(u, input[..k], input[k..])
  {
    var scanned := ScanString(input[k], input, k + 1);
    ghost var rest := input[k..];
    ghost var local := Scan(rest[0], rest, 1);
    ScanShift(input[k], input, rest, k, 1);
    r := LiteralAt(input, k, at, scanned, local);
    assert r == Literal(input[..k], rest, local);
  }

  /** The token or error for a scanned literal that starts at `k`. */
  method LiteralAt(input: string, k: nat, at: nat, scanned: Scanned, ghost local: Scanned) returns (r: Outcome<Piece>)
    requires k < |input| && at == Bytes(input[..k]) && scanned == local.Shift(k)
    requires local.BadEscape? || local.CutEscape? ==> local.at <= |input| - k
    ensures r == Literal(input[..k], input[k..], local)
  {
    match scanned {
      case NoClose => r := Err(UnterminatedString(at));
      case BadEscape(p, e) =>
        Cut(input, k, p - k);
        r := Err(InvalidEscape(e, Bytes(input[..p])));
      case CutEscape(p) =>
        Cut(input, k, p - k);
        r := Err(UnterminatedEscape(Bytes(input[..p])));
      case Closed(end, value) =>
        r := Ok(Piece(Str(value), end - k));
    }
  }

  /** One turn of the loop, when it is not skipping white space. */
  method TakeToken(u: Unicode, input: string, k: nat, at: nat) returns (r: Outcome<Piece>)
    requires k < |input| && at == Bytes(input[..k]) && !Skipped(u, input[k])
    ensures r == First(u, input[..k], input[k..])
  {
    var c := input[k];
    if IsDigit(c) || u.alphabetic(c) {
      r := TakeRun(u, input, k, at);
    } else if IsQuote(c) {
      r := TakeString(u, input, k, at);
    } else if IsSymbol(c) {
      r := Ok(Piece(Sym(c), 1));
    } else {
      r := Err(UnexpectedChar(c, input[..k], at));
    }
  }

  lemma LexSkip(u: Unicode, input: string, k: nat)
    requires k < |input| && Skipped(u, input[k])
    ensures Lex(u, input[..k], input[k..]) == Lex(u, input[..k + 1], input[k + 1..])
  {
    Cut(input, k, 1);
  }

  lemma LexTake(u: Unicode, input: string, k: nat)
    requires k < |input| && !Skipped(u, input[k])
    ensures match First(u, input[..k], input[k..])
            case Err(e) => Lex(u, input[..k], input[k..]) == Err(e)
            case Panic => Lex(u, input[..k], input[k..]) == Panic
            case Ok(p) =>
              Lex(u, input[..k], input[k..])
              == Prepend([Token(p.kind, Bytes(input[..k]), Bytes(input[..k + p.len]))],
                         Lex(u, input[..k + p.len], input[k + p.len..]))
  {
    var first := First(u, input[..k], input[k..]);
    if first.Ok? {
      Cut(input, k, first.value.len);
    }
  }

  /** One turn of the loop, in terms of the whole input. */
  lemma LexStep(u: Unicode, input: string, k: nat)
    requires k < |input|
    ensures Skipped(u, input[k]) ==> Lex(u, input[..k], input[k..]) == Lex(u, input[..k + 1], input[k + 1..])
    ensures !Skipped(u, input[k]) ==>
      match First(u, input[..k], input[k..])
      case Err(e) => Lex(u, input[..k], input[k..]) == Err(e)
      case Panic => Lex(u, input[..k], input[k..]) == Panic
      case Ok(p) =>
        Lex(u, input[..k], input[k..])
        == Prepend([Token(p.kind, Bytes(input[..k]), Bytes(input[..k + p.len]))],
                   Lex(u, input[..k + p.len], input[k + p.len..]))
  {
    if Skipped(u, input[k]) {
      LexSkip(u, input, k);
    } else {
      LexTake(u, input, k);
    }
  }

  /** `tokenize`. */
  method Tokenize(u: Unicode, input: string) returns (r: Outcome<seq<Token>>)
    ensures r == Lex(u, "", input)
  {
    var tokens: seq<Token> := [];
    var k, at := 0, 0;
    ghost var spec, rest := Lex(u, "", input), Lex(u, "", input);
    assert input[..0] == "" && input[0..] == input;
    PrependNothing(spec);
    while k < |input|
      invariant k <= |input| && at == Bytes(input[..k])
      invariant rest == Lex(u, input[..k], input[k..]) && spec == Prepend(tokens, rest)
    {
      LexStep(u, input, k);
      if Skipped(u, input[k]) {
        BytesNext(input, k);
        at := at + Utf8Len(input[k]);
        k := k + 1;
      } else {
        var piece := TakeToken(u, input, k, at);
        match piece {
          case Err(e) => return Err(e);
          case Panic => return Panic;
          case Ok(p) =>
            var end := k + p.len;
            var token := Token(p.kind, at, Bytes(input[..end]));
            rest := Lex(u, input[..end], input[end..]);
            PrependPrepend(tokens, [token], rest);
            tokens := tokens + [token];
            k, at := end, token.end;
        }
      }
    }
    assert tokens + [] == tokens;
    return Ok(tokens);
  }
}
