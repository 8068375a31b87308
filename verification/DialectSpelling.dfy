/** What the tokenizer accepts, stated without it: texts laid out as words
    separated by white space.  Tokenizing succeeds exactly on those. */
module DialectSpelling {
  import opened Numerals
  import opened DialectLexer
  import opened DialectStrings

  /** A token as written, and the white space after it. */
  datatype Word = Word(kind: TokenKind, text: string, gap: string)

  predicate AllLetters(u: Unicode, s: string) { forall k :: 0 <= k < |s| ==> u.alphabetic(s[k]) }

  predicate Blank(u: Unicode, s: string) { forall k :: 0 <= k < |s| ==> u.whitespace(s[k]) }

  /** `text` is a way to write `kind`. */
  predicate Spells(u: Unicode, text: string, kind: TokenKind) {
    match kind
    case Integer(n) => text != "" && AllDigits(text) && Decimal(text) == n && n < TWO_TO_THE_64
    case Ident(name) => text == name != "" && AllLetters(u, text) && text != "true" && text != "false"
    case Boolean(b) => text == if b then "true" else "false"
    case Str(s) => SpellsString(text, s)
    case Sym(c) => text == [c] && IsSymbol(c)
  }

  predicate IsWord(kind: TokenKind) { kind.Ident? || kind.Boolean? }

  /** Written without a gap, the two would be read as one token. */
  predicate Merge(a: TokenKind, b: TokenKind) {
    (a.Integer? && b.Integer?) || (IsWord(a) && IsWord(b))
  }

  /** Word `k` is spelled, and a gap keeps it from merging with the next one. */
  predicate WordOk(u: Unicode, words: seq<Word>, k: nat)
    requires k < |words|
  {
    && Spells(u, words[k].text, words[k].kind)
    && Blank(u, words[k].gap)
    && (k + 1 < |words| && Merge(words[k].kind, words[k + 1].kind) ==> words[k].gap != "")
  }

  predicate LaidOut(u: Unicode, words: seq<Word>) {
    forall k :: 0 <= k < |words| ==> WordOk(u, words, k)
  }

  function Text(words: seq<Word>): string {
    if words == [] then "" else words[0].text + words[0].gap + Text(words[1..])
  }

  function Kinds(words: seq<Word>): (r: seq<TokenKind>)
    ensures |r| == |words|
    ensures forall k :: 0 <= k < |r| ==> r[k] == words[k].kind
  {
    seq(|words|, k requires 0 <= k < |words| => words[k].kind)
  }

  /** The tokens with the byte spans their texts have after `before`. */
  function Spans(before: string, words: seq<Word>): seq<Token>
    decreases |words|
  {
    if words == [] then []
    else
      var w := words[0];
      [Token(w.kind, Bytes(before), Bytes(before + w.text))] + Spans(before + w.text + w.gap, words[1..])
  }

  // ----- every layout is tokenized -----

  lemma Ascii(u: Unicode, c: char)
    requires Standard(u)
    ensures IsDigit(c) || IsQuote(c) || IsSymbol(c) ==> !u.alphabetic(c) && !u.whitespace(c)
    ensures AsciiLetter(c) ==> u.alphabetic(c)
    ensures u.alphabetic(c) || u.whitespace(c) ==> !IsDigit(c) && !IsQuote(c) && !IsSymbol(c)
    ensures IsDigit(c) ==> !IsQuote(c) && !IsSymbol(c)
    ensures IsQuote(c) ==> !IsSymbol(c)
    ensures u.alphabetic(c) ==> !u.whitespace(c)
  {
  }

  /** The first character of a token's text tells its class. */
  lemma FirstChar(u: Unicode, text: string, kind: TokenKind)
    requires Standard(u) && Spells(u, text, kind)
    ensures text != ""
    ensures kind.Integer? <==> IsDigit(text[0])
    ensures IsWord(kind) <==> u.alphabetic(text[0])
    ensures kind.Str? <==> IsQuote(text[0])
    ensures kind.Sym? <==> IsSymbol(text[0])
    ensures !u.whitespace(text[0])
    ensures IsWord(kind) ==> AllLetters(u, text) && WordKind(text) == kind
  {
    Ascii(u, text[0]);
    if kind.Boolean? {
      forall k | 0 <= k < |text| ensures u.alphabetic(text[k]) {
        assert AsciiLetter(text[k]);
      }
    }
  }

  /** What follows a string literal does not change how it is read. */
  lemma {:induction false} ScanLocal(quote: char, s: string, n: nat, i: nat)
    requires i <= n <= |s|
    ensures Scan(quote, s[..n], i).Closed? ==> Scan(quote, s, i) == Scan(quote, s[..n], i)
    ensures Scan(quote, s, i).Closed? && Scan(quote, s, i).end == n ==> Scan(quote, s[..n], i) == Scan(quote, s, i)
    decreases n - i
  {
    if i < n && s[i] != quote {
      var b := BitAt(s, i);
      if b.Good? && i + b.len <= n {
        assert BitAt(s[..n], i) == b;
        ScanLocal(quote, s, n, i + b.len);
      } else {
        assert !BitAt(s[..n], i).Good?;
      }
    }
  }

  lemma {:induction false} SkipBlank(u: Unicode, before: string, gap: string, rest: string)
    requires Standard(u) && Blank(u, gap)
    ensures Lex(u, before, gap + rest) == Lex(u, before + gap, rest)
    decreases |gap|
  {
    if gap == "" {
      assert gap + rest == rest && before + gap == before;
    } else {
      Ascii(u, gap[0]);
      assert (gap + rest)[1..] == gap[1..] + rest && (gap + rest)[..1] == gap[..1];
      assert before + gap[..1] + gap[1..] == before + gap;
      SkipBlank(u, before + gap[..1], gap[1..], rest);
    }
  }

  /** What follows a token's text does not extend it. */
  predicate Stops(u: Unicode, kind: TokenKind, rest: string) {
    rest == "" || ((kind.Integer? ==> !IsDigit(rest[0])) && (IsWord(kind) ==> !u.alphabetic(rest[0])))
  }

  lemma FirstWord(u: Unicode, before: string, text: string, kind: TokenKind, rest: string)
    requires Standard(u) && Spells(u, text, kind) && Stops(u, kind, rest)
    ensures text + rest != "" && !Skipped(u, (text + rest)[0])
    ensures First(u, before, text + rest) == Ok(Piece(kind, |text|))
  {
    var s := text + rest;
    var n := |text|;
    FirstChar(u, text, kind);
    Ascii(u, text[0]);
    assert s[..n] == text && s[n..] == rest && s[0] == text[0];
    match kind
    case Integer(_) => LeadingRunUnique(IsDigit, s, n);
    case Ident(_) => LeadingRunUnique(u.alphabetic, s, n);
    case Boolean(_) => LeadingRunUnique(u.alphabetic, s, n);
    case Str(v) =>
      StringScanned(text, v);
      ScanLocal(text[0], s, n, 1);
    case Sym(_) =>
  }

  lemma LexWord(u: Unicode, before: string, text: string, kind: TokenKind, rest: string)
    requires Standard(u) && Spells(u, text, kind) && Stops(u, kind, rest)
    ensures Lex(u, before, text + rest)
         == Prepend([Token(kind, Bytes(before), Bytes(before + text))], Lex(u, before + text, rest))
  {
    FirstWord(u, before, text, kind, rest);
    assert (text + rest)[..|text|] == text && (text + rest)[|text|..] == rest;
  }

  lemma TextStops(u: Unicode, w: Word, tail: seq<Word>)
    requires Standard(u) && LaidOut(u, [w] + tail)
    ensures Stops(u, w.kind, w.gap + Text(tail))
  {
    LaidOutCons(u, w, tail);
    var rest := w.gap + Text(tail);
    if w.gap != "" {
      assert u.whitespace(w.gap[0]) && rest[0] == w.gap[0];
      Ascii(u, rest[0]);
    } else if tail != [] {
      assert WordOk(u, tail, 0);
      FirstChar(u, tail[0].text, tail[0].kind);
      assert rest[0] == tail[0].text[0];
    } else {
      assert rest == "";
    }
  }

  lemma LexWordAndGap(u: Unicode, before: string, w: Word, rest: string)
    requires Standard(u) && Spells(u, w.text, w.kind) && Blank(u, w.gap) && Stops(u, w.kind, w.gap + rest)
    ensures Lex(u, before, w.text + (w.gap + rest))
         == Prepend([Token(w.kind, Bytes(before), Bytes(before + w.text))], Lex(u, before + w.text + w.gap, rest))
  {
    LexWord(u, before, w.text, w.kind, w.gap + rest);
    SkipBlank(u, before + w.text, w.gap, rest);
  }

  lemma LaidOutCons(u: Unicode, w: Word, tail: seq<Word>)
    ensures LaidOut(u, [w] + tail) <==> WordOk(u, [w] + tail, 0) && LaidOut(u, tail)
  {
    var words := [w] + tail;
    forall k | 0 <= k < |tail| ensures WordOk(u, words, k + 1) <==> WordOk(u, tail, k) {
    }
    if LaidOut(u, words) {
      forall k | 0 <= k < |tail| ensures WordOk(u, tail, k) {
        assert WordOk(u, words, k + 1);
      }
    }
    if LaidOut(u, tail) && WordOk(u, words, 0) {
      forall k | 0 <= k < |words| ensures WordOk(u, words, k) {
        if k > 0 {
          assert WordOk(u, tail, k - 1);
        }
      }
    }
  }

  lemma TextCons(w: Word, words: seq<Word>)
    ensures Text([w] + words) == w.text + (w.gap + Text(words))
  {
    assert ([w] + words)[1..] == words;
  }

  /** Every layout tokenizes, to its kinds, with the spans of its texts. */
  lemma {:induction false} LexLayout(u: Unicode, before: string, words: seq<Word>)
    requires Standard(u) && LaidOut(u, words)
    ensures Lex(u, before, Text(words)) == Ok(Spans(before, words))
    decreases |words|
  {
    if words != [] {
      var w, tail := words[0], words[1..];
      assert words == [w] + tail;
      LaidOutCons(u, w, tail);
      TextStops(u, w, tail);
      LexWordAndGap(u, before, w, Text(tail));
      LexLayout(u, before + w.text + w.gap, tail);
      TextCons(w, tail);
    }
  }

  // ----- nothing else is -----

  /** Whatever tokenizes is white space followed by a layout of its tokens. */
  lemma {:induction false} LexIsLayout(u: Unicode, before: string, rest: string)
    returns (lead: string, words: seq<Word>)
    requires Standard(u) && Lex(u, before, rest).Ok?
    ensures Blank(u, lead) && LaidOut(u, words) && rest == lead + Text(words)
    ensures Lex(u, before, rest).value == Spans(before + lead, words)
    decreases |rest|
  {
    if rest == "" {
      lead, words := "", [];
    } else if Skipped(u, rest[0]) {
      lead, words := LexIsLayout(u, before + rest[..1], rest[1..]);
      assert before + rest[..1] + lead == before + (rest[..1] + lead);
      lead := MoreBlank(u, rest, lead, Text(words));
    } else {
      var p := First(u, before, rest).value;
      var more, tail := LexIsLayout(u, before + rest[..p.len], rest[p.len..]);
      lead := "";
      words := PutInFront(u, before, rest, p, more, tail);
      assert before + "" == before;
    }
  }

  lemma MoreBlank(u: Unicode, rest: string, lead: string, text: string) returns (longer: string)
    requires rest != "" && Skipped(u, rest[0]) && Blank(u, lead) && rest[1..] == lead + text
    ensures longer == rest[..1] + lead && Blank(u, longer) && rest == longer + text
  {
    longer := rest[..1] + lead;
    assert rest == rest[..1] + rest[1..];
  }

  lemma PutInFront(u: Unicode, before: string, rest: string, p: Piece, more: string, tail: seq<Word>)
    returns (words: seq<Word>)
    requires Standard(u) && rest != "" && !Skipped(u, rest[0]) && First(u, before, rest) == Ok(p)
    requires Blank(u, more) && LaidOut(u, tail) && rest[p.len..] == more + Text(tail)
    ensures LaidOut(u, words) && rest == Text(words)
    ensures Spans(before, words) == [Token(p.kind, Bytes(before), Bytes(before + rest[..p.len]))]
                                    + Spans(before + rest[..p.len] + more, tail)
  {
    var w := Word(p.kind, rest[..p.len], more);
    words := [w] + tail;
    FirstSpells(u, before, rest);
    FrontWord(u, w, tail);
    TextCons(w, tail);
    assert words[1..] == tail;
    assert rest == rest[..p.len] + rest[p.len..];
  }

  /** A token in front of a layout makes a layout. */
  lemma FrontWord(u: Unicode, w: Word, tail: seq<Word>)
    requires Standard(u) && LaidOut(u, tail) && Spells(u, w.text, w.kind) && Blank(u, w.gap)
    requires Stops(u, w.kind, w.gap + Text(tail))
    ensures LaidOut(u, [w] + tail)
  {
    LaidOutCons(u, w, tail);
    if tail != [] && w.gap == "" {
      assert WordOk(u, tail, 0);
      FirstChar(u, tail[0].text, tail[0].kind);
      assert Text(tail)[0] == tail[0].text[0];
    }
  }

  /** The token at the front is spelled by its text, which is maximal. */
  lemma FirstSpells(u: Unicode, before: string, rest: string)
    requires Standard(u) && rest != "" && !Skipped(u, rest[0]) && First(u, before, rest).Ok?
    ensures var p := First(u, before, rest).value;
            Spells(u, rest[..p.len], p.kind) && Stops(u, p.kind, rest[p.len..])
  {
    var c := rest[0];
    var n := First(u, before, rest).value.len;
    Ascii(u, c);
    if !IsDigit(c) && !u.alphabetic(c) && IsQuote(c) {
      ScanLocal(c, rest, n, 1);
      StringScanned(rest[..n], Scan(c, rest, 1).value);
    }
  }

  /** Tokenizing succeeds exactly on layouts, and reads the layout off the text:
      the characters between the spans are white space, and runs are maximal. */
  lemma TokenizesIffLaidOut(u: Unicode, input: string, tokens: seq<Token>)
    requires Standard(u)
    ensures Lex(u, "", input) == Ok(tokens) <==>
      exists lead, words :: Blank(u, lead) && LaidOut(u, words) && input == lead + Text(words)
                            && tokens == Spans(lead, words)
  {
    if Lex(u, "", input) == Ok(tokens) {
      var lead, words := LexIsLayout(u, "", input);
      assert "" + lead == lead;
    }
    forall lead, words |
      Blank(u, lead) && LaidOut(u, words) && input == lead + Text(words) && tokens == Spans(lead, words)
      ensures Lex(u, "", input) == Ok(tokens)
    {
      SkipBlank(u, "", lead, Text(words));
      assert "" + lead == lead;
      LexLayout(u, lead, words);
    }
  }

  /** Spans are in order, disjoint, non-empty and inside the text. */
  lemma {:induction false} SpansOrdered(u: Unicode, before: string, words: seq<Word>)
    requires Standard(u) && LaidOut(u, words)
    ensures var ts := Spans(before, words);
            && |ts| == |words|
            && (forall k :: 0 <= k < |ts| ==> ts[k].kind == words[k].kind)
            && InOrder(ts, Bytes(before), Bytes(before) + Bytes(Text(words)))
    decreases |words|
  {
    if words != [] {
      var w, tail := words[0], words[1..];
      assert words == [w] + tail;
      LaidOutCons(u, w, tail);
      NonEmptyText(u, w);
      BytesOfThree(w.text, w.gap, Text(tail));
      BytesOfThree(before, w.text, w.gap);
      SpansOrdered(u, before + w.text + w.gap, tail);
      InOrderCons(Token(w.kind, Bytes(before), Bytes(before + w.text)), Spans(before + w.text + w.gap, tail),
                  Bytes(before + w.text + w.gap), Bytes(before) + Bytes(Text(words)));
    }
  }

  /** Spans are not empty, between two positions, ordered and disjoint. */
  predicate InOrder(ts: seq<Token>, low: nat, high: nat) {
    && (forall k :: 0 <= k < |ts| ==> low <= ts[k].start < ts[k].end <= high)
    && (forall j, k :: 0 <= j < k < |ts| ==> ts[j].end <= ts[k].start)
  }

  lemma InOrderCons(t: Token, ts: seq<Token>, low: nat, high: nat)
    requires InOrder(ts, low, high) && t.start < t.end <= low <= high
    ensures InOrder([t] + ts, t.start, high)
  {
  }

  lemma BytesOfThree(a: string, b: string, c: string)
    ensures Bytes(a + b) == Bytes(a) + Bytes(b)
    ensures Bytes(a + b + c) == Bytes(a) + Bytes(b) + Bytes(c)
  {
    BytesAppend(a, b);
    BytesAppend(a + b, c);
  }

  lemma NonEmptyText(u: Unicode, w: Word)
    requires Standard(u) && Spells(u, w.text, w.kind)
    ensures Bytes(w.text) > 0
  {
    FirstChar(u, w.text, w.kind);
  }

  lemma TokenSpansOrdered(u: Unicode, input: string)
    requires Standard(u) && Lex(u, "", input).Ok?
    ensures InOrder(Lex(u, "", input).value, 0, Bytes(input))
  {
    var lead, words := LexIsLayout(u, "", input);
    assert "" + lead == lead;
    SpansOrdered(u, lead, words);
    BytesAppend(lead, Text(words));
  }

  /** Every lexer error points inside the input. */
  lemma {:induction false} LexErrorInside(u: Unicode, before: string, rest: string)
    requires Lex(u, before, rest).Err?
    ensures Lex(u, before, rest).error.position < Bytes(before + rest)
    decreases |rest|
  {
    var n := if Skipped(u, rest[0]) then 1
             else if First(u, before, rest).Ok? then First(u, before, rest).value.len
             else 0;
    if n > 0 {
      assert before + rest[..n] + rest[n..] == before + rest;
      LexErrorInside(u, before + rest[..n], rest[n..]);
    } else {
      FirstErrorInside(u, before, rest);
    }
  }

  lemma FirstErrorInside(u: Unicode, before: string, rest: string)
    requires rest != "" && !Skipped(u, rest[0]) && First(u, before, rest).Err?
    ensures First(u, before, rest).error.position < Bytes(before + rest)
  {
    BytesMonotone(before, rest, 0);
    assert before + rest[..0] == before;
    var r := Scan(rest[0], rest, 1);
    if r.BadEscape? || r.CutEscape? {
      BytesMonotone(before, rest, r.at);
    }
  }

  lemma BytesMonotone(before: string, rest: string, n: nat)
    requires n < |rest|
    ensures Bytes(before + rest[..n]) < Bytes(before + rest)
  {
    assert before + rest == (before + rest[..n]) + rest[n..];
    BytesAppend(before + rest[..n], rest[n..]);
    assert rest[n..] != "";
  }
}
