/** What a syntax error of the Dialect parser points at: the first token with which no
    program goes on (outdated/mcp-server/src/dialect/parser.rs). */
module DialectBlame {
  import opened DialectLexer
  import opened DialectParser
  import opened DialectGrammar

  /** Some program begins with these tokens. */
  ghost predicate Viable(ks: seq<TokenKind>) { exists c: Cst :: ks <= Yield(c) }

  function KindsOf(ts: seq<Token>): (r: seq<TokenKind>)
    ensures |r| == |ts| && forall k :: 0 <= k < |r| ==> r[k] == ts[k].kind
  {
    seq(|ts|, k requires 0 <= k < |ts| => ts[k].kind)
  }

  predicate IsKey(kind: TokenKind) { kind.Str? || kind.Ident? }

  /** The error is about token `j`, or the end of the input if there is none: it gives its
      place, or that of the word or the brace before it that it does not go with. */
  predicate Blames(ts: seq<Token>, len: nat, e: ParseError, j: nat)
    requires j <= |ts|
  {
    match e
    case UnexpectedEof(p) => j == |ts| && p == len
    case UnexpectedToken(kind, p) => j < |ts| && kind == ts[j].kind && p == ts[j].start
    case UnexpectedIdent(p) => 0 < j && ts[j - 1].kind.Ident? && p == ts[j - 1].start && !At(ts, j, '(')
    case ExpectedStringOrIdent(p) => j < |ts| && !IsKey(ts[j].kind) && p == ts[j].start
    case ExpectedColon(p) =>
      0 < j && IsKey(ts[j - 1].kind) && !At(ts, j, ':') && p == if j < |ts| then ts[j].start else len
    case ExpectedCloseBrace(p) => j == |ts| && (p == len || (0 < j && At(ts, j - 1, '{') && p == ts[j - 1].end))
    case _ => false
  }

  // ----- the token blamed -----

  ghost function BlamedAst(ts: seq<Token>, i: nat, len: nat): (j: nat)
    requires i <= |ts| && ParseAst(ts, i, len).Err?
    ensures i <= j <= |ts|
    decreases |ts| - i, 0
  {
    if i == |ts| then i
    else
      match ts[i].kind
      case Ident(_) => if At(ts, i + 1, '(') then BlamedList(ts, i + 2, len, ')') else i + 1
      case Sym(c) =>
        if c == '[' then BlamedList(ts, i + 1, len, ']')
        else if c == '{' then BlamedFields(ts, i + 1, len, ts[i].end, true)
        else i
      case _ => i
  }

  ghost function BlamedList(ts: seq<Token>, i: nat, len: nat, close: char): (j: nat)
    requires i <= |ts| && ParseList(ts, i, len, close).Err?
    ensures i <= j <= |ts|
    decreases |ts| - i, 1
  {
    match ParseAst(ts, i, len)
    case Err(_) => BlamedAst(ts, i, len)
    case Ok(a) => BlamedList(ts, SkipComma(ts, a.next), len, close)
    case Panic => i
  }

  ghost function BlamedEntry(ts: seq<Token>, i: nat, len: nat, openEnd: nat, first: bool): (j: nat)
    requires i <= |ts| && ParseEntry(ts, i, len, openEnd, first).Err?
    ensures i <= j <= |ts|
    decreases |ts| - i, 0
  {
    if i == |ts| || !IsKey(ts[i].kind) then i
    else if !At(ts, i + 1, ':') then i + 1
    else BlamedAst(ts, i + 2, len)
  }

  ghost function BlamedFields(ts: seq<Token>, i: nat, len: nat, openEnd: nat, first: bool): (j: nat)
    requires i <= |ts| && ParseFields(ts, i, len, openEnd, first).Err?
    ensures i <= j <= |ts|
    decreases |ts| - i, 1
  {
    match ParseEntry(ts, i, len, openEnd, first)
    case Err(_) => BlamedEntry(ts, i, len, openEnd, first)
    case Ok(entry) => BlamedFields(ts, SkipComma(ts, entry.next), len, openEnd, false)
    case Panic => i
  }

  /** The parser itself never panics. */
  lemma {:induction false} NoPanic(ts: seq<Token>, i: nat, len: nat)
    requires i <= |ts|
    ensures !ParseAst(ts, i, len).Panic?
    decreases |ts| - i, 0
  {
    if i < |ts| {
      match ts[i].kind
      case Ident(_) => if At(ts, i + 1, '(') { NoPanicList(ts, i + 2, len, ')'); }
      case Sym(c) =>
        if c == '[' {
          NoPanicList(ts, i + 1, len, ']');
        } else if c == '{' {
          NoPanicFields(ts, i + 1, len, ts[i].end, true);
        }
      case _ =>
    }
  }

  lemma {:induction false} NoPanicList(ts: seq<Token>, i: nat, len: nat, close: char)
    requires i <= |ts|
    ensures !ParseList(ts, i, len, close).Panic?
    decreases |ts| - i, 1
  {
    if !At(ts, i, close) {
      NoPanic(ts, i, len);
      if ParseAst(ts, i, len).Ok? {
        NoPanicList(ts, SkipComma(ts, ParseAst(ts, i, len).value.next), len, close);
      }
    }
  }

  lemma {:induction false} NoPanicFields(ts: seq<Token>, i: nat, len: nat, openEnd: nat, first: bool)
    requires i <= |ts|
    ensures !ParseFields(ts, i, len, openEnd, first).Panic?
    decreases |ts| - i, 1
  {
    if !At(ts, i, '}') && ParseKey(ts, i, len, openEnd, first).Ok? {
      NoPanic(ts, i + 2, len);
      if ParseAst(ts, i + 2, len).Ok? {
        NoPanicFields(ts, SkipComma(ts, ParseAst(ts, i + 2, len).value.next), len, openEnd, false);
      }
    }
  }

  // ----- the tokens before it begin a program -----

  /** The tokens from `i` up to `j` are the first of `ks`. */
  ghost predicate Begins(ts: seq<Token>, i: nat, j: nat, ks: seq<TokenKind>) {
    i <= j <= |ts| && j - i <= |ks| && forall k :: i <= k < j ==> ts[k].kind == ks[k - i]
  }

  lemma BeginsAfter(ts: seq<Token>, i: nat, j: nat, k: nat, a: seq<TokenKind>, b: seq<TokenKind>)
    requires Seg(ts, i, j, a) && Begins(ts, j, k, b)
    ensures Begins(ts, i, k, a + b)
  {
  }

  lemma BeginsMore(ts: seq<Token>, i: nat, j: nat, a: seq<TokenKind>, b: seq<TokenKind>)
    requires Begins(ts, i, j, a)
    ensures Begins(ts, i, j, a + b)
  {
  }

  lemma {:induction false} BlameAst(ts: seq<Token>, i: nat, len: nat) returns (c: Cst)
    requires i <= |ts| && ParseAst(ts, i, len).Err?
    ensures Blames(ts, len, ParseAst(ts, i, len).error, BlamedAst(ts, i, len))
    ensures Begins(ts, i, BlamedAst(ts, i, len), Yield(c))
    decreases |ts| - i, 0
  {
    c := CInt(0);
    if i < |ts| {
      match ts[i].kind
      case Ident(name) =>
        var items := NoItems;
        if At(ts, i + 1, '(') {
          items := BlameList(ts, i + 2, len, ')');
        }
        c := CCall(name, items);
        BeginsCall(ts, i, BlamedAst(ts, i, len), items, name);
      case Sym(s) =>
        if s == '[' {
          var items := BlameList(ts, i + 1, len, ']');
          c := CArray(items);
          BracketYield(c);
          BeginsBracket(ts, i, BlamedAst(ts, i, len), '[', YieldItems(items), ']');
        } else if s == '{' {
          var fields := BlameFields(ts, i + 1, len, ts[i].end, true);
          c := CObject(fields);
          BracketYield(c);
          BeginsBracket(ts, i, BlamedAst(ts, i, len), '{', YieldFields(fields), '}');
        }
      case _ =>
    }
  }

  lemma BeginsBracket(ts: seq<Token>, i: nat, j: nat, open: char, inner: seq<TokenKind>, close: char)
    requires At(ts, i, open) && Begins(ts, i + 1, j, inner)
    ensures Begins(ts, i, j, [Sym(open)] + (inner + [Sym(close)]))
  {
    BeginsMore(ts, i + 1, j, inner, [Sym(close)]);
    BeginsAfter(ts, i, i + 1, j, [Sym(open)], inner + [Sym(close)]);
  }

  lemma BeginsCall(ts: seq<Token>, i: nat, j: nat, items: Items, name: string)
    requires i < |ts| && ts[i].kind == Ident(name)
    requires if At(ts, i + 1, '(') then Begins(ts, i + 2, j, YieldItems(items)) else j == i + 1
    ensures Begins(ts, i, j, Yield(CCall(name, items)))
  {
    BracketYield(CCall(name, items));
    if At(ts, i + 1, '(') {
      BeginsMore(ts, i + 2, j, YieldItems(items), [Sym(')')]);
      assert Seg(ts, i, i + 2, [Ident(name), Sym('(')]);
      BeginsAfter(ts, i, i + 2, j, [Ident(name), Sym('(')], YieldItems(items) + [Sym(')')]);
    }
  }

  lemma {:induction false} BlameList(ts: seq<Token>, i: nat, len: nat, close: char) returns (items: Items)
    requires i <= |ts| && ParseList(ts, i, len, close).Err? && (close == ')' || close == ']')
    ensures Blames(ts, len, ParseList(ts, i, len, close).error, BlamedList(ts, i, len, close))
    ensures Begins(ts, i, BlamedList(ts, i, len, close), YieldItems(items))
    decreases |ts| - i, 1
  {
    NoPanic(ts, i, len);
    if ParseAst(ts, i, len).Err? {
      var c := BlameAst(ts, i, len);
      items := Item(c, false, NoItems);
      BeginsMore(ts, i, BlamedAst(ts, i, len), Yield(c), []);
      assert YieldItems(items) == Yield(c) + [] + [];
    } else {
      var n := ParseAst(ts, i, len).value.next;
      var m := SkipComma(ts, n);
      var elem := TreeOf(ts, i, len);
      var rest := BlameList(ts, m, len, close);
      items := Item(elem, At(ts, n, ','), rest);
      SegJoin(ts, i, n, m, Yield(elem), Comma(At(ts, n, ',')));
      BeginsAfter(ts, i, m, BlamedList(ts, m, len, close), Yield(elem) + Comma(At(ts, n, ',')), YieldItems(rest));
    }
  }

  /** The key of an entry, and its colon. */
  lemma EntryHead(ts: seq<Token>, i: nat, len: nat, openEnd: nat, first: bool) returns (key: Key)
    requires i < |ts| && IsKey(ts[i].kind)
    ensures KeyToken(key) == ts[i].kind
    ensures At(ts, i + 1, ':') <==> ParseKey(ts, i, len, openEnd, first).Ok?
    ensures At(ts, i + 1, ':') ==> Seg(ts, i, i + 2, [KeyToken(key), Sym(':')])
    ensures Begins(ts, i, i + 1, [KeyToken(key), Sym(':')])
  {
    key := if ts[i].kind.Str? then Quoted(ts[i].kind.s) else Bare(ts[i].kind.name);
  }

  lemma OneField(key: Key, c: Cst)
    ensures YieldFields(Field(key, c, false, NoFields)) == [KeyToken(key), Sym(':')] + Yield(c)
  {
    assert [KeyToken(key), Sym(':')] + Yield(c) + [] + [] == [KeyToken(key), Sym(':')] + Yield(c);
  }

  lemma {:induction false} BlameEntry(ts: seq<Token>, i: nat, len: nat, openEnd: nat, first: bool)
    returns (fields: Fields)
    requires 0 < i <= |ts| && ParseEntry(ts, i, len, openEnd, first).Err?
    requires first ==> At(ts, i - 1, '{') && openEnd == ts[i - 1].end
    ensures Blames(ts, len, ParseEntry(ts, i, len, openEnd, first).error, BlamedEntry(ts, i, len, openEnd, first))
    ensures Begins(ts, i, BlamedEntry(ts, i, len, openEnd, first), YieldFields(fields))
    decreases |ts| - i, 0
  {
    fields := NoFields;
    if i < |ts| && IsKey(ts[i].kind) {
      var key := EntryHead(ts, i, len, openEnd, first);
      var c := CInt(0);
      if At(ts, i + 1, ':') {
        c := BlameAst(ts, i + 2, len);
        BeginsAfter(ts, i, i + 2, BlamedAst(ts, i + 2, len), [KeyToken(key), Sym(':')], Yield(c));
      } else {
        BeginsMore(ts, i, i + 1, [KeyToken(key), Sym(':')], Yield(c));
      }
      fields := Field(key, c, false, NoFields);
      OneField(key, c);
    }
  }

  /** An entry and its comma, as they are in a tree. */
  lemma EntrySeg(ts: seq<Token>, i: nat, len: nat, openEnd: nat, first: bool) returns (key: Key, elem: Cst)
    requires i <= |ts| && ParseEntry(ts, i, len, openEnd, first).Ok?
    ensures var n := ParseEntry(ts, i, len, openEnd, first).value.next;
            Seg(ts, i, SkipComma(ts, n), [KeyToken(key), Sym(':')] + Yield(elem) + Comma(At(ts, n, ',')))
  {
    var n := ParseEntry(ts, i, len, openEnd, first).value.next;
    key := EntryHead(ts, i, len, openEnd, first);
    elem := TreeOf(ts, i + 2, len);
    SegJoin(ts, i, i + 2, n, [KeyToken(key), Sym(':')], Yield(elem));
    SegJoin(ts, i, n, SkipComma(ts, n), [KeyToken(key), Sym(':')] + Yield(elem), Comma(At(ts, n, ',')));
  }

  lemma {:induction false} BlameFields(ts: seq<Token>, i: nat, len: nat, openEnd: nat, first: bool)
    returns (fields: Fields)
    requires 0 < i <= |ts| && ParseFields(ts, i, len, openEnd, first).Err?
    requires first ==> At(ts, i - 1, '{') && openEnd == ts[i - 1].end
    ensures Blames(ts, len, ParseFields(ts, i, len, openEnd, first).error, BlamedFields(ts, i, len, openEnd, first))
    ensures Begins(ts, i, BlamedFields(ts, i, len, openEnd, first), YieldFields(fields))
    decreases |ts| - i, 1
  {
    if ParseEntry(ts, i, len, openEnd, first).Err? {
      fields := BlameEntry(ts, i, len, openEnd, first);
    } else {
      NoPanicFields(ts, i, len, openEnd, first);
      var n := ParseEntry(ts, i, len, openEnd, first).value.next;
      var m := SkipComma(ts, n);
      var key, elem := EntrySeg(ts, i, len, openEnd, first);
      var rest := BlameFields(ts, m, len, openEnd, false);
      fields := Field(key, elem, At(ts, n, ','), rest);
      BeginsAfter(ts, i, m, BlamedFields(ts, m, len, openEnd, false),
                  [KeyToken(key), Sym(':')] + Yield(elem) + Comma(At(ts, n, ',')), YieldFields(rest));
    }
  }

  // ----- with it they do not -----

  /** The first `n` tokens are of the same kinds. */
  predicate Agree(ts: seq<Token>, ts': seq<Token>, n: nat) {
    n <= |ts| && n <= |ts'| && forall k :: 0 <= k < n ==> ts'[k].kind == ts[k].kind
  }

  /** What is parsed does not depend on what comes after it. */
  lemma ParsedAlike(ts: seq<Token>, ts': seq<Token>, i: nat, len: nat, len': nat, n: nat)
    requires i <= |ts| && ParseAst(ts, i, len).Ok? && ParseAst(ts, i, len).value.next <= n && Agree(ts, ts', n)
    ensures i <= |ts'| && ParseAst(ts', i, len').Ok?
    ensures ParseAst(ts', i, len').value.next == ParseAst(ts, i, len).value.next
  {
    var c := TreeOf(ts, i, len);
    ParsesTree(ts', i, ParseAst(ts, i, len).value.next, len', c);
  }

  lemma {:induction false} StuckAst(ts: seq<Token>, ts': seq<Token>, i: nat, len: nat, len': nat)
    requires i <= |ts| && ParseAst(ts, i, len).Err? && Agree(ts, ts', BlamedAst(ts, i, len) + 1)
    ensures ParseAst(ts', i, len').Err?
    decreases |ts| - i, 0
  {
    match ts[i].kind
    case Ident(_) =>
      if At(ts, i + 1, '(') {
        StuckList(ts, ts', i + 2, len, len', ')');
      }
    case Sym(c) =>
      if c == '[' {
        StuckList(ts, ts', i + 1, len, len', ']');
      } else if c == '{' {
        StuckFields(ts, ts', i + 1, len, len', ts[i].end, ts'[i].end, true);
      }
    case _ =>
  }

  lemma {:induction false} StuckList(ts: seq<Token>, ts': seq<Token>, i: nat, len: nat, len': nat, close: char)
    requires i <= |ts| && ParseList(ts, i, len, close).Err? && Agree(ts, ts', BlamedList(ts, i, len, close) + 1)
    ensures ParseList(ts', i, len', close).Err?
    decreases |ts| - i, 1
  {
    NoPanic(ts, i, len);
    if ParseAst(ts, i, len).Err? {
      StuckAst(ts, ts', i, len, len');
    } else {
      var n := ParseAst(ts, i, len).value.next;
      ParsedAlike(ts, ts', i, len, len', n);
      StuckList(ts, ts', SkipComma(ts, n), len, len', close);
    }
  }

  lemma {:induction false} StuckEntry(ts: seq<Token>, ts': seq<Token>, i: nat, len: nat, len': nat, openEnd: nat,
                                      openEnd': nat, first: bool)
    requires i <= |ts| && ParseEntry(ts, i, len, openEnd, first).Err?
    requires Agree(ts, ts', BlamedEntry(ts, i, len, openEnd, first) + 1)
    ensures ParseEntry(ts', i, len', openEnd', first).Err?
    decreases |ts| - i, 0
  {
    if IsKey(ts[i].kind) && At(ts, i + 1, ':') {
      StuckAst(ts, ts', i + 2, len, len');
    }
  }

  lemma {:induction false} StuckFields(ts: seq<Token>, ts': seq<Token>, i: nat, len: nat, len': nat, openEnd: nat,
                                       openEnd': nat, first: bool)
    requires i <= |ts| && ParseFields(ts, i, len, openEnd, first).Err?
    requires Agree(ts, ts', BlamedFields(ts, i, len, openEnd, first) + 1)
    ensures ParseFields(ts', i, len', openEnd', first).Err?
    decreases |ts| - i, 1
  {
    NoPanicFields(ts, i, len, openEnd, first);
    if ParseEntry(ts, i, len, openEnd, first).Err? {
      StuckEntry(ts, ts', i, len, len', openEnd, openEnd', first);
    } else {
      var n := ParseEntry(ts, i, len, openEnd, first).value.next;
      ParsedAlike(ts, ts', i + 2, len, len', n);
      StuckFields(ts, ts', SkipComma(ts, n), len, len', openEnd, openEnd', false);
    }
  }

  // ----- whole programs -----

  /** Tokens of the kinds, wherever they are. */
  function Tokens(ks: seq<TokenKind>): (r: seq<Token>)
    ensures |r| == |ks| && forall k :: 0 <= k < |r| ==> r[k].kind == ks[k]
  {
    seq(|ks|, k requires 0 <= k < |ks| => Token(ks[k], 0, 0))
  }

  lemma TreeParses(ts: seq<Token>, j: nat, c: Cst)
    requires j <= |ts| && KindsOf(ts)[..j] <= Yield(c)
    ensures Agree(ts, Tokens(Yield(c)), j)
    ensures ParseAst(Tokens(Yield(c)), 0, 0) == Ok(Parsed(Erase(c), |Yield(c)|))
  {
    var ts' := Tokens(Yield(c));
    forall k | 0 <= k < j ensures ts'[k].kind == ts[k].kind {
      assert KindsOf(ts)[..j][k] == Yield(c)[k];
    }
    ParsesTree(ts', 0, |ts'|, 0, c);
  }

  lemma ViableUpTo(ts: seq<Token>, j: nat, c: Cst)
    requires Begins(ts, 0, j, Yield(c))
    ensures Viable(KindsOf(ts)[..j])
  {
    assert KindsOf(ts)[..j] == Yield(c)[..j];
    assert KindsOf(ts)[..j] <= Yield(c);
  }

  /** A syntax error is about the first token with which no program goes on, or about the
      end of an input that a program goes on from. */
  lemma FirstWrongToken(ts: seq<Token>, len: nat) returns (j: nat)
    requires ParseTokens(ts, len).Err?
    ensures j <= |ts| && Blames(ts, len, ParseTokens(ts, len).error, j)
    ensures Viable(KindsOf(ts)[..j]) && (j < |ts| ==> !Viable(KindsOf(ts)[..j + 1]))
  {
    if ParseAst(ts, 0, len).Err? {
      j := BlamedAst(ts, 0, len);
      var c := BlameAst(ts, 0, len);
      ViableUpTo(ts, j, c);
      if j < |ts| {
        forall d: Cst ensures !(KindsOf(ts)[..j + 1] <= Yield(d)) {
          if KindsOf(ts)[..j + 1] <= Yield(d) {
            TreeParses(ts, j + 1, d);
            StuckAst(ts, Tokens(Yield(d)), 0, len, 0);
          }
        }
      }
    } else {
      j := ParseAst(ts, 0, len).value.next;
      var c := TreeOf(ts, 0, len);
      ViableUpTo(ts, j, c);
      forall d: Cst ensures !(KindsOf(ts)[..j + 1] <= Yield(d)) {
        if KindsOf(ts)[..j + 1] <= Yield(d) {
          TreeParses(ts, j + 1, d);
          ParsedAlike(ts, Tokens(Yield(d)), 0, len, 0, j);
        }
      }
    }
  }
}
