/** Where the Dialect tokenizer stops with an error and which, stated without it
    (outdated/mcp-server/src/dialect/parser.rs). */
module DialectLexErrors {
  import opened Numerals
  import opened DialectLexer
  import opened DialectStrings
  import opened DialectSpelling
  import UrlEncoding

  /** The first `k` characters are an opening quote and the beginning of a string. */
  ghost predicate Opened(text: string, k: nat) {
    1 <= k <= |text| && IsQuote(text[0]) && exists s: string :: SpellsBody(text[0], text[1..k], s)
  }

  /** A backslash at `k`, in a string that has begun. */
  ghost predicate Backslash(text: string, k: nat) { Opened(text, k) && k < |text| && text[k] == '\\' }

  /** No token can be read at the front of `bad`, which comes after `before`: it begins with
      a character that begins nothing, or with a string that is not closed, or that has a
      backslash with the wrong character behind it, or with none. */
  ghost predicate Fails(u: Unicode, before: string, bad: string, e: ParseError) {
    && bad != ""
    && match e
       case UnexpectedChar(c, preceding, position) =>
         && c == bad[0] && !IsDigit(c) && !u.alphabetic(c) && !u.whitespace(c) && !IsQuote(c) && !IsSymbol(c)
         && preceding == before && position == Bytes(before)
       case UnterminatedString(position) => Opened(bad, |bad|) && position == Bytes(before)
       case InvalidEscape(c, position) =>
         exists k: nat ::
           && Backslash(bad, k) && k + 1 < |bad| && bad[k + 1] == c && (forall d :: !Escapes(c, d))
           && position == Bytes(before + bad[..k])
       case UnterminatedEscape(position) =>
         exists k: nat :: Backslash(bad, k) && k + 1 == |bad| && position == Bytes(before + bad[..k])
       case _ => false
  }

  // ----- strings -----

  lemma AfterNothing(r: Scanned)
    ensures r.After("") == r
  {
    if r.Closed? {
      assert "" + r.value == r.value;
    }
  }

  /** One character or escape, as it spells. */
  lemma BitSpells(quote: char, text: string, i: nat, k: nat, s: string)
    requires IsQuote(quote) && i < k <= |text|
    requires BitAt(text, i).Good? && i + BitAt(text, i).len <= k && text[i] != quote
    requires SpellsBody(quote, text[i + BitAt(text, i).len..k], s)
    ensures SpellsBody(quote, text[i..k], BitAt(text, i).text + s)
  {
    var b := BitAt(text, i);
    var body := text[i..k];
    if text[i] == '\\' {
      var e := Unescape(text[i + 1]);
      UnescapeIsEscapes(text[i + 1], e[0]);
      assert e == [e[0]] && body[1] == text[i + 1] && body[2..] == text[i + 2..k];
      assert (e + s)[1..] == s;
    } else {
      assert body[1..] == text[i + 1..k] && ([text[i]] + s)[1..] == s;
    }
  }

  /** Every scan goes some way along a body and stops. */
  lemma {:induction false} ScanStops(quote: char, text: string, i: nat) returns (k: nat, s: string)
    requires IsQuote(quote) && i <= |text|
    ensures i <= k <= |text| && SpellsBody(quote, text[i..k], s) && !GoesOn(quote, text, k)
    ensures Scan(quote, text, i) == Scan(quote, text, k).After(s)
    decreases |text| - i
  {
    if GoesOn(quote, text, i) {
      var b := BitAt(text, i);
      var more;
      k, more := ScanStops(quote, text, i + b.len);
      BitSpells(quote, text, i, k, more);
      ScanOn(quote, text, i, "");
      AfterNothing(Scan(quote, text, i));
      AfterAfter(Scan(quote, text, k), b.text, more);
      assert "" + b.text == b.text;
      s := b.text + more;
    } else {
      k, s := i, "";
      AfterNothing(Scan(quote, text, i));
    }
  }

  /** The front of a body, as the scanner takes it. */
  lemma SpelledBit(quote: char, text: string, i: nat, k: nat, s: string)
    requires IsQuote(quote) && i < k <= |text| && SpellsBody(quote, text[i..k], s)
    ensures s != "" && GoesOn(quote, text, i)
    ensures var b := BitAt(text, i);
            b.text == [s[0]] && i + b.len <= k && SpellsBody(quote, text[i + b.len..k], s[1..])
  {
    var body := text[i..k];
    assert body[0] == text[i];
    if text[i] == '\\' {
      assert body[1] == text[i + 1] && body[2..] == text[i + 2..k];
      UnescapeIsEscapes(text[i + 1], s[0]);
    } else {
      assert body[1..] == text[i + 1..k];
    }
  }

  /** A scan passes over what spells. */
  lemma {:induction false} ScanPasses(quote: char, text: string, i: nat, k: nat, s: string)
    requires IsQuote(quote) && i <= k <= |text| && SpellsBody(quote, text[i..k], s)
    ensures Scan(quote, text, i) == Scan(quote, text, k).After(s)
    decreases k - i
  {
    if i < k {
      SpelledBit(quote, text, i, k, s);
      var b := BitAt(text, i);
      ScanPasses(quote, text, i + b.len, k, s[1..]);
      ScanOn(quote, text, i, "");
      AfterNothing(Scan(quote, text, i));
      assert "" + b.text == b.text && s == b.text + s[1..];
      AfterAfter(Scan(quote, text, k), b.text, s[1..]);
    } else {
      assert s == "";
      AfterNothing(Scan(quote, text, i));
    }
  }

  lemma NoEscape(c: char)
    ensures Unescape(c) == "" <==> forall d :: !Escapes(c, d)
  {
    if Unescape(c) != "" {
      UnescapeIsEscapes(c, Unescape(c)[0]);
      assert Unescape(c) == [Unescape(c)[0]];
    } else {
      forall d ensures !Escapes(c, d) {
        UnescapeIsEscapes(c, d);
      }
    }
  }

  // ----- the token at the front -----

  lemma StringFails(u: Unicode, before: string, bad: string)
    requires bad != "" && IsQuote(bad[0]) && Literal(before, bad, Scan(bad[0], bad, 1)).Err?
    ensures Fails(u, before, bad, Literal(before, bad, Scan(bad[0], bad, 1)).error)
  {
    var k, s := ScanStops(bad[0], bad, 1);
    assert Opened(bad, k);
    if k < |bad| && bad[k] == '\\' {
      assert Backslash(bad, k);
      if k + 1 < |bad| {
        NoEscape(bad[k + 1]);
      }
    }
  }

  lemma FirstFails(u: Unicode, before: string, bad: string)
    requires bad != "" && !Skipped(u, bad[0]) && First(u, before, bad).Err?
    ensures Fails(u, before, bad, First(u, before, bad).error)
  {
    if IsQuote(bad[0]) && !IsDigit(bad[0]) && !u.alphabetic(bad[0]) {
      StringFails(u, before, bad);
    }
  }

  lemma OpenedScan(text: string, k: nat)
    requires Opened(text, k)
    ensures Scan(text[0], text, k).NoClose? ==> Scan(text[0], text, 1) == NoClose
    ensures Scan(text[0], text, k).BadEscape? || Scan(text[0], text, k).CutEscape? ==>
              Scan(text[0], text, 1) == Scan(text[0], text, k)
  {
    var s: string :| SpellsBody(text[0], text[1..k], s);
    ScanPasses(text[0], text, 1, k, s);
  }

  lemma FailsFirst(u: Unicode, before: string, bad: string, e: ParseError)
    requires Standard(u) && Fails(u, before, bad, e)
    ensures !Skipped(u, bad[0]) && First(u, before, bad) == Err(e)
    ensures !IsDigit(bad[0]) && !u.alphabetic(bad[0])
  {
    Ascii(u, bad[0]);
    match e
    case UnterminatedString(_) => OpenedScan(bad, |bad|);
    case InvalidEscape(c, position) =>
      var k: nat :| Backslash(bad, k) && k + 1 < |bad| && bad[k + 1] == c && (forall d :: !Escapes(c, d))
                    && position == Bytes(before + bad[..k]);
      NoEscape(c);
      OpenedScan(bad, k);
    case UnterminatedEscape(position) =>
      var k: nat :| Backslash(bad, k) && k + 1 == |bad| && position == Bytes(before + bad[..k]);
      OpenedScan(bad, k);
    case _ =>
  }

  // ----- the whole input -----

  /** The input is laid out up to where the error is. */
  ghost predicate StopsAt(u: Unicode, before: string, rest: string, e: ParseError, lead: string, words: seq<Word>,
                          bad: string)
  {
    && Blank(u, lead) && LaidOut(u, words) && rest == lead + (Text(words) + bad)
    && Fails(u, before + lead + Text(words), bad, e)
  }

  lemma {:induction false} LexFails(u: Unicode, before: string, rest: string)
    returns (lead: string, words: seq<Word>, bad: string)
    requires Standard(u) && Lex(u, before, rest).Err?
    ensures StopsAt(u, before, rest, Lex(u, before, rest).error, lead, words, bad)
    decreases |rest|
  {
    if Skipped(u, rest[0]) {
      lead, words, bad := LexFails(u, before + rest[..1], rest[1..]);
      assert before + rest[..1] + lead == before + (rest[..1] + lead);
      lead := MoreBlank(u, rest, lead, Text(words) + bad);
    } else if First(u, before, rest).Err? {
      lead, words, bad := "", [], rest;
      FirstFails(u, before, rest);
      assert before + "" + "" == before && "" + ("" + rest) == rest;
    } else {
      var p := First(u, before, rest).value;
      var more, tail;
      more, tail, bad := LexFails(u, before + rest[..p.len], rest[p.len..]);
      lead := "";
      words := WordInFront(u, before, rest, p, more, tail, bad);
      assert before + "" == before && "" + (Text(words) + bad) == Text(words) + bad;
    }
  }

  lemma Regroup(a: string, b: string, c: string, d: string)
    ensures a + (b + (c + d)) == a + b + c + d && a + (b + c) + d == a + (b + (c + d))
  {
  }

  lemma WordInFront(u: Unicode, before: string, rest: string, p: Piece, more: string, tail: seq<Word>, bad: string)
    returns (words: seq<Word>)
    requires Standard(u) && rest != "" && !Skipped(u, rest[0]) && First(u, before, rest) == Ok(p)
    requires Blank(u, more) && LaidOut(u, tail) && rest[p.len..] == more + (Text(tail) + bad)
    ensures LaidOut(u, words) && rest == Text(words) + bad
    ensures before + Text(words) == before + rest[..p.len] + more + Text(tail)
  {
    var w := Word(p.kind, rest[..p.len], more);
    words := [w] + tail;
    FirstSpells(u, before, rest);
    StopsBefore(u, p.kind, more, Text(tail), bad);
    FrontWord(u, w, tail);
    TextCons(w, tail);
    assert rest == rest[..p.len] + rest[p.len..];
    Regroup(w.text, w.gap, Text(tail), bad);
    Regroup(before, w.text, w.gap, Text(tail));
  }

  lemma StopsBefore(u: Unicode, kind: TokenKind, gap: string, text: string, bad: string)
    requires Stops(u, kind, gap + (text + bad))
    ensures Stops(u, kind, gap + text)
  {
    if gap + text != "" {
      assert (gap + (text + bad))[0] == (gap + text)[0];
    }
  }

  lemma WordStops(u: Unicode, w: Word, tail: seq<Word>, bad: string)
    requires Standard(u) && LaidOut(u, [w] + tail) && bad != "" && !IsDigit(bad[0]) && !u.alphabetic(bad[0])
    ensures Stops(u, w.kind, w.gap + (Text(tail) + bad))
  {
    TextStops(u, w, tail);
    if w.gap + Text(tail) != "" {
      assert (w.gap + (Text(tail) + bad))[0] == (w.gap + Text(tail))[0];
    } else {
      assert w.gap + (Text(tail) + bad) == bad;
    }
  }

  lemma {:induction false} LexStops(u: Unicode, before: string, words: seq<Word>, bad: string, e: ParseError)
    requires Standard(u) && LaidOut(u, words) && Fails(u, before + Text(words), bad, e)
    ensures Lex(u, before, Text(words) + bad) == Err(e)
    decreases |words|
  {
    FailsFirst(u, before + Text(words), bad, e);
    if words == [] {
      assert before + "" == before && "" + bad == bad;
    } else {
      var w, tail := words[0], words[1..];
      assert words == [w] + tail;
      LaidOutCons(u, w, tail);
      WordStops(u, w, tail, bad);
      TextCons(w, tail);
      Regroup(before, w.text, w.gap, Text(tail));
      Regroup(w.text, w.gap, Text(tail), bad);
      LexWordAndGap(u, before, w, Text(tail) + bad);
      LexStops(u, before + w.text + w.gap, tail, bad, e);
    }
  }

  /** Tokenizing ends in an error exactly when the input is laid out up to where no token
      can be read, and the error says what is wrong there, and where. */
  lemma ErrorIffStopped(u: Unicode, input: string, e: ParseError)
    requires Standard(u)
    ensures Lex(u, "", input) == Err(e) <==> exists lead, words, bad :: StopsAt(u, "", input, e, lead, words, bad)
  {
    if Lex(u, "", input) == Err(e) {
      var lead, words, bad := LexFails(u, "", input);
    }
    if lead, words, bad :| StopsAt(u, "", input, e, lead, words, bad) {
      SkipBlank(u, "", lead, Text(words) + bad);
      assert "" + lead == lead;
      LexStops(u, lead, words, bad, e);
    }
  }

  /** Positions count the bytes of UTF-8. */
  lemma {:induction false} PositionsAreBytes(s: string)
    ensures Bytes(s) == |UrlEncoding.Utf8(s)|
  {
    if s != "" {
      PositionsAreBytes(s[1..]);
      BytesAppend([s[0]], s[1..]);
      assert s == [s[0]] + s[1..] && [s[0]][..0] == "";
    }
  }
}
