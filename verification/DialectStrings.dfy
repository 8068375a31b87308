/** How string literals are written, stated without the scanner: between two equal
    quotes, each character as itself or as an escape. */
module DialectStrings {
  import opened DialectLexer

  /** The character after a backslash, and the character the two stand for. */
  predicate Escapes(e: char, c: char) {
    || (e == 'n' && c == '\n')
    || (e == 't' && c == '\t')
    || (e == 'r' && c == '\r')
    || (e == c && (c == '"' || c == '\'' || c == '`' || c == '\\'))
  }

  /** `text` is a way to write the characters of `s` between quotes. */
  predicate SpellsBody(quote: char, text: string, s: string)
    decreases |s|
  {
    if s == "" then text == ""
    else if text == "" then false
    else if text[0] == '\\' then
      |text| >= 2 && Escapes(text[1], s[0]) && SpellsBody(quote, text[2..], s[1..])
    else
      text[0] != quote && text[0] == s[0] && SpellsBody(quote, text[1..], s[1..])
  }

  predicate SpellsString(text: string, s: string) {
    && |text| >= 2 && IsQuote(text[0]) && text[|text| - 1] == text[0]
    && SpellsBody(text[0], text[1..|text| - 1], s)
  }

  lemma UnescapeIsEscapes(e: char, c: char)
    ensures Unescape(e) == [c] <==> Escapes(e, c)
    ensures Unescape(e) == "" || |Unescape(e)| == 1
  {
    assert Unescape(e) != "" ==> Unescape(e) == [Unescape(e)[0]];
  }

  /** What a scan from index `i` closes with, at the end of the text. */
  ghost predicate Closes(quote: char, text: string, i: nat, s: string) {
    i < |text| && text[|text| - 1] == quote && SpellsBody(quote, text[i..|text| - 1], s)
  }

  /** The scanner closes a literal at the end of the text, with a value, exactly when
      the text spells that value and ends in the quote. */
  lemma {:induction false} ScanIffSpelled(quote: char, text: string, i: nat, s: string)
    requires IsQuote(quote) && i <= |text|
    ensures Scan(quote, text, i) == Closed(|text|, s) <==> Closes(quote, text, i, s)
    decreases |text| - i
  {
    if i < |text| && text[i] != quote {
      if text[i] == '\\' {
        ScanEscape(quote, text, i, s);
        if i + 2 <= |text| && s != "" {
          ScanIffSpelled(quote, text, i + 2, s[1..]);
        }
      } else {
        ScanPlain(quote, text, i, s);
        if s != "" {
          ScanIffSpelled(quote, text, i + 1, s[1..]);
        }
      }
    } else if i < |text| - 1 {
      assert text[i..|text| - 1][0] == quote;
    }
  }

  /** One plain character. */
  lemma ScanPlain(quote: char, text: string, i: nat, s: string)
    requires IsQuote(quote) && i < |text| && text[i] != quote && text[i] != '\\'
    ensures Scan(quote, text, i) == Closed(|text|, s) <==>
            s != "" && text[i] == s[0] && Scan(quote, text, i + 1) == Closed(|text|, s[1..])
    ensures Closes(quote, text, i, s) <==> s != "" && text[i] == s[0] && Closes(quote, text, i + 1, s[1..])
  {
    AfterOne(Scan(quote, text, i + 1), text[i], |text|, s);
    if i < |text| - 1 {
      var body := text[i..|text| - 1];
      assert body[0] == text[i] && body[1..] == text[i + 1..|text| - 1];
    }
  }

  lemma AfterOne(r: Scanned, c: char, end: nat, s: string)
    ensures r.After([c]) == Closed(end, s) <==> s != "" && c == s[0] && r == Closed(end, s[1..])
  {
    if r.Closed? {
      assert ([c] + r.value)[0] == c && ([c] + r.value)[1..] == r.value;
      assert s != "" ==> s == [s[0]] + s[1..];
    }
  }

  /** One escape. */
  lemma ScanEscape(quote: char, text: string, i: nat, s: string)
    requires IsQuote(quote) && i < |text| && text[i] == '\\'
    ensures Scan(quote, text, i) == Closed(|text|, s) <==>
            && i + 2 <= |text| && s != "" && Escapes(text[i + 1], s[0])
            && Scan(quote, text, i + 2) == Closed(|text|, s[1..])
    ensures Closes(quote, text, i, s) <==>
            i + 2 <= |text| && s != "" && Escapes(text[i + 1], s[0]) && Closes(quote, text, i + 2, s[1..])
  {
    if i + 1 < |text| {
      var e := Unescape(text[i + 1]);
      UnescapeIsEscapes(text[i + 1], if s != "" then s[0] else 'n');
      if e != "" {
        assert e == [e[0]];
        AfterOne(Scan(quote, text, i + 2), e[0], |text|, s);
      }
      var body := text[i..|text| - 1];
      assert body[0] == text[i];
      if |body| >= 2 {
        assert body[1] == text[i + 1] && body[2..] == text[i + 2..|text| - 1];
      }
    }
  }

  /** A literal is read as the value it spells, and as nothing else. */
  lemma StringScanned(text: string, s: string)
    requires text != "" && IsQuote(text[0])
    ensures Scan(text[0], text, 1) == Closed(|text|, s) <==> SpellsString(text, s)
  {
    ScanIffSpelled(text[0], text, 1, s);
  }
}
