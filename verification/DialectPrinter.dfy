/** A printer for Dialect, and the proof that parsing undoes printing; the texts the
    whole front end accepts, and where its errors point. */
module DialectPrinter {
  import opened Numerals
  import opened DialectAst
  import opened SortedMap
  import opened DialectLexer
  import opened DialectStrings
  import opened DialectSpelling
  import opened DialectParser
  import opened DialectGrammar

  /** The tree a printer writes: commas between elements only, keys quoted. */
  function Canon(a: Ast): Cst
    decreases a, 1
  {
    match a
    case Call(name, args) => CCall(name, CanonItems(args))
    case Int(n) => CInt(n)
    case Str(s) => CStr(s)
    case Boolean(b) => CBool(b)
    case Array(elements) => CArray(CanonItems(elements))
    case Object(fields) => CObject(CanonFields(fields))
  }

  function CanonItems(xs: seq<Ast>): Items
    decreases xs, 0
  {
    if xs == [] then NoItems else Item(Canon(xs[0]), |xs| > 1, CanonItems(xs[1..]))
  }

  function CanonFields(xs: seq<Entry<Ast>>): Fields
    decreases xs, 0
  {
    if xs == [] then NoFields else Field(Quoted(xs[0].key), Canon(xs[0].value), |xs| > 1, CanonFields(xs[1..]))
  }

  /** How a character is written between quotes of the given style. */
  function EscapeChar(quote: char, c: char): string {
    if c == quote || c == '\\' then ['\\', c]
    else if c == '\n' then ['\\', 'n']
    else if c == '\t' then ['\\', 't']
    else if c == '\r' then ['\\', 'r']
    else [c]
  }

  function Escape(quote: char, s: string): string {
    if s == "" then "" else EscapeChar(quote, s[0]) + Escape(quote, s[1..])
  }

  function TokenText(quote: char, kind: TokenKind): string {
    match kind
    case Ident(name) => name
    case Integer(n) => Digits(n)
    case Boolean(b) => if b then "true" else "false"
    case Str(s) => [quote] + Escape(quote, s) + [quote]
    case Sym(c) => [c]
  }

  function WordOf(quote: char, kind: TokenKind): Word {
    Word(kind, TokenText(quote, kind), if kind == Sym(',') || kind == Sym(':') then " " else "")
  }

  function Words(quote: char, ks: seq<TokenKind>): (r: seq<Word>)
    ensures |r| == |ks| && forall k :: 0 <= k < |r| ==> r[k] == WordOf(quote, ks[k])
  {
    seq(|ks|, k requires 0 <= k < |ks| => WordOf(quote, ks[k]))
  }

  /** The canonical text of a value, strings in any of the three quote styles. */
  function Print(quote: char, a: Ast): string {
    Text(Words(quote, Yield(Canon(a))))
  }

  /** What the language can express: 64-bit integers, and call names that are
      alphabetic words other than the two literals. */
  predicate Printable(u: Unicode, a: Ast)
    decreases a
  {
    match a
    case Call(name, args) =>
      Spells(u, name, Ident(name)) && forall k :: 0 <= k < |args| ==> Printable(u, args[k])
    case Int(n) => n < TWO_TO_THE_64
    case Array(elements) => forall k :: 0 <= k < |elements| ==> Printable(u, elements[k])
    case Object(fields) => forall k :: 0 <= k < |fields| ==> Printable(u, fields[k].value)
    case _ => true
  }

  // ----- the printed tokens are spelled and kept apart -----

  /** An escaped string spells the string. */
  lemma {:induction false} EscapeSpells(quote: char, s: string)
    requires IsQuote(quote)
    ensures SpellsBody(quote, Escape(quote, s), s)
    decreases |s|
  {
    if s != "" {
      var e, text := EscapeChar(quote, s[0]), Escape(quote, s);
      EscapeSpells(quote, s[1..]);
      assert text[|e|..] == Escape(quote, s[1..]);
    }
  }

  /** Some text spells the token. */
  predicate Writable(u: Unicode, kind: TokenKind) {
    && (kind.Ident? ==> Spells(u, kind.name, kind))
    && (kind.Integer? ==> kind.n < TWO_TO_THE_64)
    && (kind.Sym? ==> IsSymbol(kind.c))
  }

  lemma TokenTextSpells(u: Unicode, quote: char, kind: TokenKind)
    requires IsQuote(quote) && Writable(u, kind)
    ensures Spells(u, TokenText(quote, kind), kind)
  {
    match kind
    case Integer(n) => DigitsDecimal(n);
    case Str(s) =>
      var text := TokenText(quote, kind);
      assert text[1..|text| - 1] == Escape(quote, s);
      EscapeSpells(quote, s);
    case _ =>
  }

  /** Every token can be written, and no two neighbours run together. */
  ghost predicate Clean(u: Unicode, ks: seq<TokenKind>) {
    && (forall k :: 0 <= k < |ks| ==> Writable(u, ks[k]))
    && (forall k :: 0 < k < |ks| ==> !Merge(ks[k - 1], ks[k]))
  }

  lemma CleanAppend(u: Unicode, a: seq<TokenKind>, b: seq<TokenKind>)
    requires Clean(u, a) && Clean(u, b) && (a != [] && b != [] ==> !Merge(a[|a| - 1], b[0]))
    ensures Clean(u, a + b)
  {
    var ks := a + b;
    forall k | 0 < k < |ks| ensures !Merge(ks[k - 1], ks[k]) {
      if k < |a| {
        assert ks[k - 1] == a[k - 1] && ks[k] == a[k];
      } else if k > |a| {
        assert ks[k - 1] == b[k - 1 - |a|] && ks[k] == b[k - |a|];
      }
    }
  }

  /** An inner list between two brackets. */
  lemma CleanBracket(u: Unicode, open: seq<TokenKind>, inner: seq<TokenKind>, close: char)
    requires Clean(u, open) && Clean(u, inner) && IsSymbol(close) && open != [] && open[|open| - 1].Sym?
    ensures Clean(u, open + inner + [Sym(close)])
  {
    CleanAppend(u, open, inner);
    CleanAppend(u, open + inner, [Sym(close)]);
  }

  lemma {:induction false} CanonClean(u: Unicode, a: Ast)
    requires Standard(u) && Printable(u, a)
    ensures Clean(u, Yield(Canon(a)))
    decreases a, 1
  {
    match a
    case Call(name, args) =>
      CanonItemsClean(u, args);
      CleanBracket(u, [Ident(name), Sym('(')], YieldItems(CanonItems(args)), ')');
    case Array(elements) =>
      CanonItemsClean(u, elements);
      CleanBracket(u, [Sym('[')], YieldItems(CanonItems(elements)), ']');
    case Object(fields) =>
      CanonFieldsClean(u, fields);
      CleanBracket(u, [Sym('{')], YieldFields(CanonFields(fields)), '}');
    case _ =>
  }

  /** An element followed, if at all, by a comma and more. */
  lemma CleanElement(u: Unicode, elem: seq<TokenKind>, comma: bool, more: seq<TokenKind>)
    requires Clean(u, elem) && Clean(u, more) && (more != [] ==> comma)
    ensures Clean(u, elem + Comma(comma) + more)
  {
    CleanAppend(u, elem, Comma(comma));
    CleanAppend(u, elem + Comma(comma), more);
  }

  lemma {:induction false} CanonItemsClean(u: Unicode, xs: seq<Ast>)
    requires Standard(u) && forall k :: 0 <= k < |xs| ==> Printable(u, xs[k])
    ensures Clean(u, YieldItems(CanonItems(xs)))
    decreases xs, 0
  {
    if xs != [] {
      CanonClean(u, xs[0]);
      CanonItemsClean(u, xs[1..]);
      CleanElement(u, Yield(Canon(xs[0])), |xs| > 1, YieldItems(CanonItems(xs[1..])));
    }
  }

  lemma {:induction false} CanonFieldsClean(u: Unicode, xs: seq<Entry<Ast>>)
    requires Standard(u) && forall k :: 0 <= k < |xs| ==> Printable(u, xs[k].value)
    ensures Clean(u, YieldFields(CanonFields(xs)))
    decreases xs, 0
  {
    if xs != [] {
      var head := [TokenKind.Str(xs[0].key), Sym(':')];
      var elem, more := Yield(Canon(xs[0].value)), YieldFields(CanonFields(xs[1..]));
      CanonClean(u, xs[0].value);
      CanonFieldsClean(u, xs[1..]);
      CleanElement(u, elem, |xs| > 1, more);
      CleanAppend(u, head, elem + Comma(|xs| > 1) + more);
      assert head + elem + Comma(|xs| > 1) + more == head + (elem + Comma(|xs| > 1) + more);
    }
  }

  lemma WordsLaidOut(u: Unicode, quote: char, ks: seq<TokenKind>)
    requires Standard(u) && IsQuote(quote) && Clean(u, ks)
    ensures LaidOut(u, Words(quote, ks))
  {
    var words := Words(quote, ks);
    assert u.whitespace(' ');
    forall k | 0 <= k < |words| ensures WordOk(u, words, k) {
      TokenTextSpells(u, quote, ks[k]);
      if k + 1 < |words| {
        assert !Merge(ks[k + 1 - 1], ks[k + 1]);
      }
    }
  }

  // ----- round trip -----

  lemma {:induction false} CanonErase(a: Ast)
    requires WellFormed(a)
    ensures Erase(Canon(a)) == a
    decreases a, 1
  {
    match a
    case Call(_, args) => CanonItemsErase(args);
    case Array(elements) => CanonItemsErase(elements);
    case Object(fields) =>
      CanonFieldsErase(fields);
      InsertAllSorted(fields);
    case _ =>
  }

  lemma {:induction false} CanonItemsErase(xs: seq<Ast>)
    requires forall k :: 0 <= k < |xs| ==> WellFormed(xs[k])
    ensures EraseItems(CanonItems(xs)) == xs
    decreases xs, 0
  {
    if xs != [] {
      CanonErase(xs[0]);
      CanonItemsErase(xs[1..]);
    }
  }

  lemma {:induction false} CanonFieldsErase(xs: seq<Entry<Ast>>)
    requires forall k :: 0 <= k < |xs| ==> WellFormed(xs[k].value)
    ensures EraseFields(CanonFields(xs)) == xs
    decreases xs, 0
  {
    if xs != [] {
      CanonErase(xs[0].value);
      CanonFieldsErase(xs[1..]);
    }
  }

  /** What the whole front end accepts: any layout of the yield of any tree, and the
      result is the meaning of the tree. */
  lemma ParsesIffLaidOutTree(u: Unicode, input: string, a: Ast)
    requires Standard(u)
    ensures Parse(u, input) == Ok(a) <==>
      exists lead, words, c ::
        Blank(u, lead) && LaidOut(u, words) && input == lead + Text(words) && Kinds(words) == Yield(c) && Erase(c) == a
  {
    if Parse(u, input) == Ok(a) {
      var lead, words := LexIsLayout(u, "", input);
      assert "" + lead == lead;
      var ts := Spans(lead, words);
      var c := TreeOf(ts, 0, Bytes(input));
      SpansOrdered(u, lead, words);
      assert Kinds(words) == Yield(c);
    }
    forall lead, words, c |
      Blank(u, lead) && LaidOut(u, words) && input == lead + Text(words) && Kinds(words) == Yield(c) && Erase(c) == a
      ensures Parse(u, input) == Ok(a)
    {
      LayoutParses(u, input, lead, words, c);
    }
  }

  lemma LayoutParses(u: Unicode, input: string, lead: string, words: seq<Word>, c: Cst)
    requires Standard(u) && Blank(u, lead) && LaidOut(u, words)
    requires input == lead + Text(words) && Kinds(words) == Yield(c)
    ensures Parse(u, input) == Ok(Erase(c))
  {
    SkipBlank(u, "", lead, Text(words));
    assert "" + lead == lead;
    LexLayout(u, lead, words);
    SpansOrdered(u, lead, words);
    var ts := Spans(lead, words);
    forall k | 0 <= k < |ts| ensures ts[k].kind == Yield(c)[k] {
      assert Kinds(words)[k] == words[k].kind;
    }
    ParsesTree(ts, 0, |ts|, Bytes(input), c);
  }

  /** Printing and parsing undo each other: in each of the three quote styles, for
      every value the language can express, through escapes and sorted objects. */
  lemma ParseUndoesPrint(u: Unicode, quote: char, a: Ast)
    requires Standard(u) && IsQuote(quote) && WellFormed(a) && Printable(u, a)
    ensures Parse(u, Print(quote, a)) == Ok(a)
  {
    var ks := Yield(Canon(a));
    CanonClean(u, a);
    WordsLaidOut(u, quote, ks);
    assert Kinds(Words(quote, ks)) == ks;
    assert "" + Text(Words(quote, ks)) == Print(quote, a);
    LayoutParses(u, Print(quote, a), "", Words(quote, ks), Canon(a));
    CanonErase(a);
  }

  /** Whatever was parsed has its objects sorted by key, at every depth. */
  lemma ParsedIsWellFormed(u: Unicode, input: string)
    requires Standard(u) && Parse(u, input).Ok?
    ensures WellFormed(Parse(u, input).value)
  {
    var ts := Lex(u, "", input).value;
    var c := TreeOf(ts, 0, Bytes(input));
    EraseWellFormed(c);
  }

  /** Every error of the front end points into the input. */
  lemma ErrorsPointInside(u: Unicode, input: string)
    requires Standard(u) && Parse(u, input).Err?
    ensures GoodError(Parse(u, input).error, Bytes(input))
  {
    assert "" + input == input;
    if Lex(u, "", input).Err? {
      LexErrorInside(u, "", input);
      LexErrorKind(u, "", input);
    } else {
      var ts := Lex(u, "", input).value;
      TokenSpansOrdered(u, input);
      if !ParseAst(ts, 0, Bytes(input)).Ok? {
        ErrorsInside(ts, 0, Bytes(input));
      }
    }
  }

  lemma {:induction false} LexErrorKind(u: Unicode, before: string, rest: string)
    requires Lex(u, before, rest).Err?
    ensures !Lex(u, before, rest).error.ExpectedCloseParen? && !Lex(u, before, rest).error.ExpectedCloseBracket?
    decreases |rest|
  {
    if Skipped(u, rest[0]) {
      LexErrorKind(u, before + rest[..1], rest[1..]);
    } else if First(u, before, rest).Ok? {
      var n := First(u, before, rest).value.len;
      LexErrorKind(u, before + rest[..n], rest[n..]);
    }
  }
}
