/** The grammar of Dialect as syntax trees with their commas, independent of the
    parser, and the proof that the parser accepts exactly the yields of trees. */
module DialectGrammar {
  import opened Collections
  import opened DialectAst
  import opened SortedMap
  import opened DialectLexer
  import opened DialectParser

  /** A syntax tree.  Every element and field may be followed by a comma or not. */
  datatype Cst =
    | CInt(n: nat)
    | CBool(b: bool)
    | CStr(s: string)
    | CCall(name: string, args: Items)
    | CArray(items: Items)
    | CObject(fields: Fields)

  datatype Items = NoItems | Item(elem: Cst, comma: bool, rest: Items)

  datatype Key = Quoted(s: string) | Bare(name: string)

  datatype Fields = NoFields | Field(key: Key, elem: Cst, comma: bool, rest: Fields)

  function Comma(comma: bool): seq<TokenKind> { if comma then [Sym(',')] else [] }

  function KeyToken(k: Key): TokenKind {
    match k
    case Quoted(s) => TokenKind.Str(s)
    case Bare(name) => Ident(name)
  }

  function KeyName(k: Key): string {
    match k
    case Quoted(s) => s
    case Bare(name) => name
  }

  /** The tokens of a tree, left to right. */
  function Yield(c: Cst): (r: seq<TokenKind>)
    ensures r != []
  {
    match c
    case CInt(n) => [Integer(n)]
    case CBool(b) => [TokenKind.Boolean(b)]
    case CStr(s) => [TokenKind.Str(s)]
    case CCall(name, args) => [Ident(name), Sym('(')] + YieldItems(args) + [Sym(')')]
    case CArray(items) => [Sym('[')] + YieldItems(items) + [Sym(']')]
    case CObject(fields) => [Sym('{')] + YieldFields(fields) + [Sym('}')]
  }

  function YieldItems(items: Items): seq<TokenKind> {
    match items
    case NoItems => []
    case Item(elem, comma, rest) => Yield(elem) + Comma(comma) + YieldItems(rest)
  }

  function YieldFields(fields: Fields): seq<TokenKind> {
    match fields
    case NoFields => []
    case Field(key, elem, comma, rest) =>
      [KeyToken(key), Sym(':')] + Yield(elem) + Comma(comma) + YieldFields(rest)
  }

  /** The meaning of a tree: commas forgotten, fields inserted into a map in order. */
  function Erase(c: Cst): Ast {
    match c
    case CInt(n) => Int(n)
    case CBool(b) => Ast.Boolean(b)
    case CStr(s) => Ast.Str(s)
    case CCall(name, args) => Call(name, EraseItems(args))
    case CArray(items) => Array(EraseItems(items))
    case CObject(fields) => Object(InsertAll(EraseFields(fields)))
  }

  function EraseItems(items: Items): seq<Ast> {
    match items
    case NoItems => []
    case Item(elem, _, rest) => [Erase(elem)] + EraseItems(rest)
  }

  function EraseFields(fields: Fields): seq<Entry<Ast>> {
    match fields
    case NoFields => []
    case Field(key, elem, _, rest) => [Entry(KeyName(key), Erase(elem))] + EraseFields(rest)
  }

  /** The kinds of the tokens from index `i` up to `j` are `ks`. */
  ghost predicate Seg(ts: seq<Token>, i: nat, j: nat, ks: seq<TokenKind>) {
    i <= j <= |ts| && |ks| == j - i && forall k :: i <= k < j ==> ts[k].kind == ks[k - i]
  }

  lemma SegJoin(ts: seq<Token>, i: nat, j: nat, k: nat, a: seq<TokenKind>, b: seq<TokenKind>)
    requires Seg(ts, i, j, a) && Seg(ts, j, k, b)
    ensures Seg(ts, i, k, a + b)
  {
  }

  lemma SegSplit(ts: seq<Token>, i: nat, k: nat, a: seq<TokenKind>, b: seq<TokenKind>) returns (j: nat)
    requires Seg(ts, i, k, a + b)
    ensures Seg(ts, i, j, a) && Seg(ts, j, k, b)
    ensures a != [] ==> i < j && ts[i].kind == a[0]
    ensures a == [] ==> i == j
  {
    j := i + |a|;
    forall n | i <= n < j ensures ts[n].kind == a[n - i] {
      assert (a + b)[n - i] == a[n - i];
    }
    forall n | j <= n < k ensures ts[n].kind == b[n - j] {
      assert (a + b)[n - i] == b[n - j];
    }
  }

  // ----- every tree is parsed -----

  /** No tree begins with a closer or a separator. */
  lemma FirstToken(c: Cst)
    ensures Yield(c)[0].Sym? ==> Yield(c)[0].c == '[' || Yield(c)[0].c == '{'
  {
  }

  lemma BracketYield(c: Cst)
    ensures c.CCall? ==> Yield(c) == [Ident(c.name), Sym('(')] + (YieldItems(c.args) + [Sym(')')])
    ensures c.CArray? ==> Yield(c) == [Sym('[')] + (YieldItems(c.items) + [Sym(']')])
    ensures c.CObject? ==> Yield(c) == [Sym('{')] + (YieldFields(c.fields) + [Sym('}')])
  {
  }

  lemma {:induction false} ParsesTree(ts: seq<Token>, i: nat, j: nat, len: nat, c: Cst)
    requires Seg(ts, i, j, Yield(c))
    ensures ParseAst(ts, i, len) == Ok(Parsed(Erase(c), j))
    decreases c, 1
  {
    match c
    case CCall(name, args) => ParsesCall(ts, i, j, len, c);
    case CArray(_) => ParsesArray(ts, i, j, len, c);
    case CObject(_) => ParsesObject(ts, i, j, len, c);
    case _ => ParsesPlain(ts, i, j, len, c);
  }

  lemma ParsesPlain(ts: seq<Token>, i: nat, j: nat, len: nat, c: Cst)
    requires Seg(ts, i, j, Yield(c)) && !c.CCall? && !c.CArray? && !c.CObject?
    ensures ParseAst(ts, i, len) == Ok(Parsed(Erase(c), j))
  {
  }

  lemma {:induction false} ParsesArray(ts: seq<Token>, i: nat, j: nat, len: nat, c: Cst)
    requires c.CArray? && Seg(ts, i, j, Yield(c))
    ensures ParseAst(ts, i, len) == Ok(Parsed(Erase(c), j))
    decreases c, 0
  {
    BracketYield(c);
    var m := SegSplit(ts, i, j, [Sym('[')], YieldItems(c.items) + [Sym(']')]);
    ParsesItems(ts, m, j, len, c.items, ']');
  }

  lemma {:induction false} ParsesObject(ts: seq<Token>, i: nat, j: nat, len: nat, c: Cst)
    requires c.CObject? && Seg(ts, i, j, Yield(c))
    ensures ParseAst(ts, i, len) == Ok(Parsed(Erase(c), j))
    decreases c, 0
  {
    BracketYield(c);
    var m := SegSplit(ts, i, j, [Sym('{')], YieldFields(c.fields) + [Sym('}')]);
    ParsesFields(ts, m, j, len, c.fields, ts[i].end, true);
  }

  lemma {:induction false} ParsesCall(ts: seq<Token>, i: nat, j: nat, len: nat, c: Cst)
    requires c.CCall? && Seg(ts, i, j, Yield(c))
    ensures ParseAst(ts, i, len) == Ok(Parsed(Erase(c), j))
    decreases c, 0
  {
    var open := [Ident(c.name), Sym('(')];
    BracketYield(c);
    var m := SegSplit(ts, i, j, open, YieldItems(c.args) + [Sym(')')]);
    assert m == i + 2 && ts[i + 1].kind == open[1];
    ParsesItems(ts, m, j, len, c.args, ')');
  }

  /** An element, its comma and more: the comma is skipped, and a missing comma is
      not invented. */
  lemma SplitElement(ts: seq<Token>, i: nat, k: nat, elem: seq<TokenKind>, comma: bool, more: seq<TokenKind>)
    returns (j: nat)
    requires Seg(ts, i, k, elem + (Comma(comma) + more)) && elem != [] && more != [] && more[0] != Sym(',')
    ensures Seg(ts, i, j, elem) && i < |ts| && ts[i].kind == elem[0]
    ensures Seg(ts, SkipComma(ts, j), k, more)
  {
    j := SegSplit(ts, i, k, elem, Comma(comma) + more);
    var m := SegSplit(ts, j, k, Comma(comma), more);
    assert ts[m].kind == more[0];
  }

  lemma Regroup<T>(a: seq<T>, b: seq<T>, c: seq<T>, d: seq<T>)
    ensures a + b + c + d == a + (b + (c + d))
  {
  }

  lemma ItemYield(items: Items, close: char)
    requires items.Item? && (close == ')' || close == ']')
    ensures var more := YieldItems(items.rest) + [Sym(close)];
            && YieldItems(items) + [Sym(close)] == Yield(items.elem) + (Comma(items.comma) + more)
            && more[0] != Sym(',')
  {
    Regroup(Yield(items.elem), Comma(items.comma), YieldItems(items.rest), [Sym(close)]);
    MoreBegins(items.rest, close);
  }

  lemma MoreBegins(rest: Items, close: char)
    requires close == ')' || close == ']'
    ensures (YieldItems(rest) + [Sym(close)])[0] != Sym(',')
  {
    if rest.Item? {
      FirstToken(rest.elem);
      assert YieldItems(rest)[0] == Yield(rest.elem)[0];
    }
  }

  lemma {:induction false} ParsesItems(ts: seq<Token>, i: nat, k: nat, len: nat, items: Items, close: char)
    requires close == ')' || close == ']'
    requires Seg(ts, i, k, YieldItems(items) + [Sym(close)])
    ensures ParseList(ts, i, len, close) == Ok(Parsed(EraseItems(items), k))
    decreases items, 2
  {
    match items
    case NoItems =>
      assert ts[i].kind == (YieldItems(items) + [Sym(close)])[0];
    case Item(elem, comma, rest) =>
      ItemYield(items, close);
      var j := SplitElement(ts, i, k, Yield(elem), comma, YieldItems(rest) + [Sym(close)]);
      FirstToken(elem);
      ParsesTree(ts, i, j, len, elem);
      ParsesItems(ts, SkipComma(ts, j), k, len, rest, close);
      ListStep(ts, i, len, close, Parsed(Erase(elem), j), Parsed(EraseItems(rest), k));
  }

  /** One turn of the list loop. */
  lemma ListStep(ts: seq<Token>, i: nat, len: nat, close: char, a: Parsed<Ast>, rest: Parsed<seq<Ast>>)
    requires i <= |ts| && !At(ts, i, close) && ParseAst(ts, i, len) == Ok(a)
    requires ParseList(ts, SkipComma(ts, a.next), len, close) == Ok(rest)
    ensures ParseList(ts, i, len, close) == Ok(Parsed([a.part] + rest.part, rest.next))
  {
  }

  lemma FieldYield(fields: Fields)
    requires fields.Field?
    ensures var more := YieldFields(fields.rest) + [Sym('}')];
            && YieldFields(fields) + [Sym('}')]
               == [KeyToken(fields.key), Sym(':')] + (Yield(fields.elem) + (Comma(fields.comma) + more))
            && more[0] != Sym(',')
  {
    if fields.rest.Field? {
      assert YieldFields(fields.rest)[0] == KeyToken(fields.rest.key);
    }
  }

  lemma SplitHead(ts: seq<Token>, i: nat, k: nat, key: Key, more: seq<TokenKind>, len: nat, openEnd: nat, first: bool)
    requires Seg(ts, i, k, [KeyToken(key), Sym(':')] + more)
    ensures i + 2 <= |ts| && Seg(ts, i + 2, k, more) && !At(ts, i, '}')
    ensures ParseKey(ts, i, len, openEnd, first) == Ok(Parsed(KeyName(key), i + 2))
  {
    var head := [KeyToken(key), Sym(':')];
    var j := SegSplit(ts, i, k, head, more);
    assert j == i + 2 && ts[i].kind == head[0] && ts[i + 1].kind == head[1];
  }

  /** The first field of an object, and the rest. */
  lemma SplitField(ts: seq<Token>, i: nat, k: nat, fields: Fields, len: nat, openEnd: nat, first: bool) returns (j: nat)
    requires fields.Field? && Seg(ts, i, k, YieldFields(fields) + [Sym('}')])
    ensures i + 2 <= |ts| && !At(ts, i, '}')
    ensures ParseKey(ts, i, len, openEnd, first) == Ok(Parsed(KeyName(fields.key), i + 2))
    ensures Seg(ts, i + 2, j, Yield(fields.elem)) && Seg(ts, SkipComma(ts, j), k, YieldFields(fields.rest) + [Sym('}')])
  {
    var more := YieldFields(fields.rest) + [Sym('}')];
    FieldYield(fields);
    SplitHead(ts, i, k, fields.key, Yield(fields.elem) + (Comma(fields.comma) + more), len, openEnd, first);
    j := SplitElement(ts, i + 2, k, Yield(fields.elem), fields.comma, more);
  }

  lemma {:induction false} ParsesEntry(ts: seq<Token>, i: nat, k: nat, len: nat, fields: Fields, openEnd: nat,
                                       first: bool)
    returns (j: nat)
    requires fields.Field? && Seg(ts, i, k, YieldFields(fields) + [Sym('}')])
    ensures i <= |ts| && !At(ts, i, '}')
    ensures ParseEntry(ts, i, len, openEnd, first) == Ok(Parsed(Entry(KeyName(fields.key), Erase(fields.elem)), j))
    ensures j <= |ts| && Seg(ts, SkipComma(ts, j), k, YieldFields(fields.rest) + [Sym('}')])
    decreases fields, 1
  {
    j := SplitField(ts, i, k, fields, len, openEnd, first);
    ParsesTree(ts, i + 2, j, len, fields.elem);
  }

  lemma {:induction false} ParsesFields(ts: seq<Token>, i: nat, k: nat, len: nat, fields: Fields, openEnd: nat,
                                        first: bool)
    requires Seg(ts, i, k, YieldFields(fields) + [Sym('}')])
    ensures ParseFields(ts, i, len, openEnd, first) == Ok(Parsed(EraseFields(fields), k))
    decreases fields, 2
  {
    match fields
    case NoFields =>
      assert ts[i].kind == (YieldFields(fields) + [Sym('}')])[0];
    case Field(key, elem, comma, rest) =>
      var j := ParsesEntry(ts, i, k, len, fields, openEnd, first);
      ParsesFields(ts, SkipComma(ts, j), k, len, rest, openEnd, false);
      FieldStep(ts, i, len, openEnd, first, Parsed(Entry(KeyName(key), Erase(elem)), j), Parsed(EraseFields(rest), k));
  }

  /** One turn of the object loop. */
  lemma FieldStep(ts: seq<Token>, i: nat, len: nat, openEnd: nat, first: bool,
                  entry: Parsed<Entry<Ast>>, rest: Parsed<seq<Entry<Ast>>>)
    requires i <= |ts| && !At(ts, i, '}') && ParseEntry(ts, i, len, openEnd, first) == Ok(entry)
    requires ParseFields(ts, SkipComma(ts, entry.next), len, openEnd, false) == Ok(rest)
    ensures ParseFields(ts, i, len, openEnd, first) == Ok(Parsed([entry.part] + rest.part, rest.next))
  {
  }

  // ----- nothing else is parsed -----

  lemma {:induction false} TreeOf(ts: seq<Token>, i: nat, len: nat) returns (c: Cst)
    requires i <= |ts| && ParseAst(ts, i, len).Ok?
    ensures var r := ParseAst(ts, i, len).value;
            Seg(ts, i, r.next, Yield(c)) && Erase(c) == r.part
    decreases |ts| - i, 0
  {
    match ts[i].kind
    case Integer(n) => c := CInt(n);
    case Boolean(b) => c := CBool(b);
    case Str(s) => c := CStr(s);
    case Ident(name) =>
      var args := ItemsOf(ts, i + 2, len, ')');
      c := CallOf(ts, i, len, args);
    case Sym(s) =>
      if s == '[' {
        var items := ItemsOf(ts, i + 1, len, ']');
        c := ArrayOf(ts, i, len, items);
      } else {
        var fields := FieldsOf(ts, i + 1, len, ts[i].end, true);
        c := ObjectOf(ts, i, len, fields);
      }
  }

  lemma CallOf(ts: seq<Token>, i: nat, len: nat, args: Items) returns (c: Cst)
    requires i < |ts| && ts[i].kind.Ident? && At(ts, i + 1, '(') && ParseList(ts, i + 2, len, ')').Ok?
    requires var r := ParseList(ts, i + 2, len, ')').value;
             Seg(ts, i + 2, r.next, YieldItems(args) + [Sym(')')]) && EraseItems(args) == r.part
    ensures var r := ParseAst(ts, i, len);
            r.Ok? && Seg(ts, i, r.value.next, Yield(c)) && Erase(c) == r.value.part
  {
    c := CCall(ts[i].kind.name, args);
    CallSeg(ts, i, ParseList(ts, i + 2, len, ')').value.next, c);
  }

  lemma ArrayOf(ts: seq<Token>, i: nat, len: nat, items: Items) returns (c: Cst)
    requires At(ts, i, '[') && ParseList(ts, i + 1, len, ']').Ok?
    requires var r := ParseList(ts, i + 1, len, ']').value;
             Seg(ts, i + 1, r.next, YieldItems(items) + [Sym(']')]) && EraseItems(items) == r.part
    ensures var r := ParseAst(ts, i, len);
            r.Ok? && Seg(ts, i, r.value.next, Yield(c)) && Erase(c) == r.value.part
  {
    c := CArray(items);
    ArraySeg(ts, i, ParseList(ts, i + 1, len, ']').value.next, c);
  }

  lemma ObjectOf(ts: seq<Token>, i: nat, len: nat, fields: Fields) returns (c: Cst)
    requires At(ts, i, '{') && ParseFields(ts, i + 1, len, ts[i].end, true).Ok?
    requires var r := ParseFields(ts, i + 1, len, ts[i].end, true).value;
             Seg(ts, i + 1, r.next, YieldFields(fields) + [Sym('}')]) && EraseFields(fields) == r.part
    ensures var r := ParseAst(ts, i, len);
            r.Ok? && Seg(ts, i, r.value.next, Yield(c)) && Erase(c) == r.value.part
  {
    c := CObject(fields);
    ObjectSeg(ts, i, ParseFields(ts, i + 1, len, ts[i].end, true).value.next, c);
  }

  lemma CallSeg(ts: seq<Token>, i: nat, k: nat, c: Cst)
    requires c.CCall? && Seg(ts, i, i + 2, [Ident(c.name), Sym('(')])
    requires Seg(ts, i + 2, k, YieldItems(c.args) + [Sym(')')])
    ensures Seg(ts, i, k, Yield(c))
  {
    BracketYield(c);
    SegJoin(ts, i, i + 2, k, [Ident(c.name), Sym('(')], YieldItems(c.args) + [Sym(')')]);
  }

  lemma ArraySeg(ts: seq<Token>, i: nat, k: nat, c: Cst)
    requires c.CArray? && Seg(ts, i, i + 1, [Sym('[')])
    requires Seg(ts, i + 1, k, YieldItems(c.items) + [Sym(']')])
    ensures Seg(ts, i, k, Yield(c))
  {
    BracketYield(c);
    SegJoin(ts, i, i + 1, k, [Sym('[')], YieldItems(c.items) + [Sym(']')]);
  }

  lemma ObjectSeg(ts: seq<Token>, i: nat, k: nat, c: Cst)
    requires c.CObject? && Seg(ts, i, i + 1, [Sym('{')])
    requires Seg(ts, i + 1, k, YieldFields(c.fields) + [Sym('}')])
    ensures Seg(ts, i, k, Yield(c))
  {
    BracketYield(c);
    SegJoin(ts, i, i + 1, k, [Sym('{')], YieldFields(c.fields) + [Sym('}')]);
  }

  /** An element, the comma found after it, and what follows, put together. */
  lemma JoinElement(ts: seq<Token>, i: nat, j: nat, k: nat, elem: seq<TokenKind>, more: seq<TokenKind>)
    requires Seg(ts, i, j, elem) && Seg(ts, SkipComma(ts, j), k, more)
    ensures Seg(ts, i, k, elem + (Comma(At(ts, j, ',')) + more))
  {
    SegJoin(ts, j, SkipComma(ts, j), k, Comma(At(ts, j, ',')), more);
    SegJoin(ts, i, j, k, elem, Comma(At(ts, j, ',')) + more);
  }

  lemma {:induction false} ItemsOf(ts: seq<Token>, i: nat, len: nat, close: char) returns (items: Items)
    requires i <= |ts| && ParseList(ts, i, len, close).Ok? && (close == ')' || close == ']')
    ensures var r := ParseList(ts, i, len, close).value;
            Seg(ts, i, r.next, YieldItems(items) + [Sym(close)]) && EraseItems(items) == r.part
    decreases |ts| - i, 1
  {
    if At(ts, i, close) {
      items := NoItems;
    } else {
      var j := ParseAst(ts, i, len).value.next;
      var elem := TreeOf(ts, i, len);
      var rest := ItemsOf(ts, SkipComma(ts, j), len, close);
      items := Item(elem, At(ts, j, ','), rest);
      JoinElement(ts, i, j, ParseList(ts, i, len, close).value.next, Yield(elem), YieldItems(rest) + [Sym(close)]);
      ItemYield(items, close);
    }
  }

  lemma {:induction false} FieldsOf(ts: seq<Token>, i: nat, len: nat, openEnd: nat, first: bool)
    returns (fields: Fields)
    requires i <= |ts| && ParseFields(ts, i, len, openEnd, first).Ok?
    ensures var r := ParseFields(ts, i, len, openEnd, first).value;
            Seg(ts, i, r.next, YieldFields(fields) + [Sym('}')]) && EraseFields(fields) == r.part
    decreases |ts| - i, 1
  {
    if At(ts, i, '}') {
      fields := NoFields;
    } else {
      var j := ParseAst(ts, i + 2, len).value.next;
      var elem := TreeOf(ts, i + 2, len);
      var rest := FieldsOf(ts, SkipComma(ts, j), len, openEnd, false);
      var key := KeyAt(ts, i, len, openEnd, first);
      fields := Field(key, elem, At(ts, j, ','), rest);
      JoinField(ts, i, j, ParseFields(ts, i, len, openEnd, first).value.next, fields);
    }
  }

  lemma KeyAt(ts: seq<Token>, i: nat, len: nat, openEnd: nat, first: bool) returns (key: Key)
    requires i <= |ts| && ParseKey(ts, i, len, openEnd, first).Ok?
    ensures Seg(ts, i, i + 2, [KeyToken(key), Sym(':')])
    ensures ParseKey(ts, i, len, openEnd, first).value.part == KeyName(key)
  {
    key := if ts[i].kind.Str? then Quoted(ts[i].kind.s) else Bare(ts[i].kind.name);
  }

  lemma JoinField(ts: seq<Token>, i: nat, j: nat, k: nat, fields: Fields)
    requires fields.Field? && Seg(ts, i, i + 2, [KeyToken(fields.key), Sym(':')])
    requires Seg(ts, i + 2, j, Yield(fields.elem)) && fields.comma == At(ts, j, ',')
    requires Seg(ts, SkipComma(ts, j), k, YieldFields(fields.rest) + [Sym('}')])
    ensures Seg(ts, i, k, YieldFields(fields) + [Sym('}')])
  {
    JoinElement(ts, i + 2, j, k, Yield(fields.elem), YieldFields(fields.rest) + [Sym('}')]);
    FieldSeg(ts, i, k, fields);
  }

  lemma FieldSeg(ts: seq<Token>, i: nat, k: nat, fields: Fields)
    requires fields.Field? && Seg(ts, i, i + 2, [KeyToken(fields.key), Sym(':')])
    requires Seg(ts, i + 2, k, Yield(fields.elem) + (Comma(fields.comma) + (YieldFields(fields.rest) + [Sym('}')])))
    ensures Seg(ts, i, k, YieldFields(fields) + [Sym('}')])
  {
    FieldYield(fields);
    SegJoin(ts, i, i + 2, k, [KeyToken(fields.key), Sym(':')],
            Yield(fields.elem) + (Comma(fields.comma) + (YieldFields(fields.rest) + [Sym('}')])));
  }

  /** `c` is a syntax tree of the whole token list. */
  ghost predicate TreeFor(ts: seq<Token>, c: Cst) { Seg(ts, 0, |ts|, Yield(c)) }

  /** The parser accepts exactly the yields of syntax trees, all tokens consumed,
      and returns the meaning of the tree. */
  lemma ParsesIffTree(ts: seq<Token>, len: nat, a: Ast)
    ensures ParseTokens(ts, len) == Ok(a) <==> exists c :: TreeFor(ts, c) && Erase(c) == a
  {
    if ParseTokens(ts, len) == Ok(a) {
      var c := TreeOf(ts, 0, len);
      assert TreeFor(ts, c);
    }
    forall c | TreeFor(ts, c) && Erase(c) == a ensures ParseTokens(ts, len) == Ok(a) {
      ParsesTree(ts, 0, |ts|, len, c);
    }
  }

  // ----- consequences -----

  lemma Assoc<T>(a: seq<T>, b: seq<T>, c: seq<T>)
    ensures a + b + c == a + (b + c)
  {
  }

  lemma RegroupTail<T>(a: seq<T>, b: seq<T>, c: seq<T>, d: seq<T>)
    ensures a + (b + c) + d == a + (b + (c + d))
  {
  }

  lemma Cancel<T>(x: seq<T>, a: seq<T>, b: seq<T>)
    requires x + a == x + b
    ensures a == b
  {
    assert a == (x + a)[|x|..];
    assert b == (x + b)[|x|..];
  }

  /** Trees whose tokens begin the same text are the same, and so is what follows. */
  lemma {:induction false} SameTree(c: Cst, d: Cst, a: seq<TokenKind>, b: seq<TokenKind>)
    requires Yield(c) + a == Yield(d) + b
    ensures c == d && a == b
    decreases c, 1
  {
    SameStart(c, d, a, b);
    match c
    case CCall(name, args) => SameBracket(c, d, [Ident(name), Sym('(')], a, b); SameItems(args, d.args, ')', a, b);
    case CArray(items) => SameBracket(c, d, [Sym('[')], a, b); SameItems(items, d.items, ']', a, b);
    case CObject(fields) => SameBracket(c, d, [Sym('{')], a, b); SameFields(fields, d.fields, a, b);
    case _ => Cancel(Yield(c), a, b);
  }

  /** The first token tells the kind of tree, and for most the tree. */
  lemma SameStart(c: Cst, d: Cst, a: seq<TokenKind>, b: seq<TokenKind>)
    requires Yield(c) + a == Yield(d) + b
    ensures match c
            case CCall(name, _) => d.CCall? && name == d.name
            case CArray(_) => d.CArray?
            case CObject(_) => d.CObject?
            case _ => c == d
  {
    assert Yield(c)[0] == (Yield(c) + a)[0] == (Yield(d) + b)[0] == Yield(d)[0];
  }

  /** The tokens inside the brackets of a tree, with the closer. */
  function Inner(c: Cst): seq<TokenKind> {
    match c
    case CCall(_, args) => YieldItems(args) + [Sym(')')]
    case CArray(items) => YieldItems(items) + [Sym(']')]
    case CObject(fields) => YieldFields(fields) + [Sym('}')]
    case _ => []
  }

  lemma SameBracket(c: Cst, d: Cst, open: seq<TokenKind>, a: seq<TokenKind>, b: seq<TokenKind>)
    requires Yield(c) + a == Yield(d) + b
    requires Yield(c) == open + Inner(c) && Yield(d) == open + Inner(d)
    ensures Inner(c) + a == Inner(d) + b
  {
    Assoc(open, Inner(c), a);
    Assoc(open, Inner(d), b);
    Cancel(open, Inner(c) + a, Inner(d) + b);
  }

  /** Equal elements followed by an optional comma and something that is not one. */
  lemma SameComma(p: bool, q: bool, a: seq<TokenKind>, b: seq<TokenKind>)
    requires a != [] && b != [] && a[0] != Sym(',') && b[0] != Sym(',')
    requires Comma(p) + a == Comma(q) + b
    ensures p == q && a == b
  {
    assert (Comma(p) + a)[0] == (if p then Sym(',') else a[0]);
    assert (Comma(q) + b)[0] == (if q then Sym(',') else b[0]);
    Cancel(Comma(p), a, b);
  }

  lemma {:induction false} SameItems(x: Items, y: Items, close: char, a: seq<TokenKind>, b: seq<TokenKind>)
    requires close == ')' || close == ']'
    requires YieldItems(x) + [Sym(close)] + a == YieldItems(y) + [Sym(close)] + b
    ensures x == y && a == b
    decreases x, 2
  {
    ItemsStart(x, close, a);
    ItemsStart(y, close, b);
    if x.Item? {
      ItemSplit(x, close, a);
      ItemSplit(y, close, b);
      var more, more' := YieldItems(x.rest) + [Sym(close)] + a, YieldItems(y.rest) + [Sym(close)] + b;
      SameTree(x.elem, y.elem, Comma(x.comma) + more, Comma(y.comma) + more');
      SameComma(x.comma, y.comma, more, more');
      SameItems(x.rest, y.rest, close, a, b);
    } else {
      assert YieldItems(NoItems) + [Sym(close)] == [Sym(close)];
      Cancel([Sym(close)], a, b);
    }
  }

  /** Only an empty list begins with its closer. */
  lemma ItemsStart(x: Items, close: char, a: seq<TokenKind>)
    requires close == ')' || close == ']'
    ensures var ks := YieldItems(x) + [Sym(close)] + a; ks != [] && (ks[0] == Sym(close) <==> x.NoItems?)
  {
    if x.Item? {
      FirstToken(x.elem);
      assert YieldItems(x)[0] == Yield(x.elem)[0];
    }
  }

  lemma ItemSplit(x: Items, close: char, a: seq<TokenKind>)
    requires x.Item? && (close == ')' || close == ']')
    ensures var more := YieldItems(x.rest) + [Sym(close)] + a;
            && YieldItems(x) + [Sym(close)] + a == Yield(x.elem) + (Comma(x.comma) + more)
            && more != [] && more[0] != Sym(',')
  {
    ItemYield(x, close);
    var more := YieldItems(x.rest) + [Sym(close)];
    RegroupTail(Yield(x.elem), Comma(x.comma), more, a);
    assert (more + a)[0] == more[0];
  }

  lemma {:induction false} SameFields(x: Fields, y: Fields, a: seq<TokenKind>, b: seq<TokenKind>)
    requires YieldFields(x) + [Sym('}')] + a == YieldFields(y) + [Sym('}')] + b
    ensures x == y && a == b
    decreases x, 2
  {
    FieldsStart(x, a);
    FieldsStart(y, b);
    if x.Field? {
      FieldSplit(x, a);
      FieldSplit(y, b);
      var more, more' := YieldFields(x.rest) + [Sym('}')] + a, YieldFields(y.rest) + [Sym('}')] + b;
      var elem, elem' := Yield(x.elem) + (Comma(x.comma) + more), Yield(y.elem) + (Comma(y.comma) + more');
      SameKey(x.key, y.key, elem, elem');
      SameTree(x.elem, y.elem, Comma(x.comma) + more, Comma(y.comma) + more');
      SameComma(x.comma, y.comma, more, more');
      SameFields(x.rest, y.rest, a, b);
    } else {
      assert YieldFields(NoFields) + [Sym('}')] == [Sym('}')];
      Cancel([Sym('}')], a, b);
    }
  }

  lemma SameKey(x: Key, y: Key, a: seq<TokenKind>, b: seq<TokenKind>)
    requires [KeyToken(x), Sym(':')] + a == [KeyToken(y), Sym(':')] + b
    ensures x == y && a == b
  {
    assert KeyToken(x) == ([KeyToken(x), Sym(':')] + a)[0];
    assert KeyToken(y) == ([KeyToken(y), Sym(':')] + b)[0];
    Cancel([KeyToken(x), Sym(':')], a, b);
  }

  lemma FieldsStart(x: Fields, a: seq<TokenKind>)
    ensures var ks := YieldFields(x) + [Sym('}')] + a; ks != [] && (ks[0] == Sym('}') <==> x.NoFields?)
  {
    if x.Field? {
      assert YieldFields(x)[0] == KeyToken(x.key);
    }
  }

  lemma FieldSplit(x: Fields, a: seq<TokenKind>)
    requires x.Field?
    ensures var more := YieldFields(x.rest) + [Sym('}')] + a;
            && YieldFields(x) + [Sym('}')] + a
               == [KeyToken(x.key), Sym(':')] + (Yield(x.elem) + (Comma(x.comma) + more))
            && more != [] && more[0] != Sym(',')
  {
    FieldYield(x);
    var head, more := [KeyToken(x.key), Sym(':')], YieldFields(x.rest) + [Sym('}')];
    Assoc(head, Yield(x.elem) + (Comma(x.comma) + more), a);
    RegroupTail(Yield(x.elem), Comma(x.comma), more, a);
    assert (more + a)[0] == more[0];
  }

  /** The grammar is unambiguous: one token list has one tree, commas included. */
  lemma Unambiguous(c: Cst, d: Cst)
    requires Yield(c) == Yield(d)
    ensures c == d
  {
    SameTree(c, d, [], []);
  }

  /** The same tree with commas nowhere. */
  function Plain(c: Cst): Cst {
    match c
    case CCall(name, args) => CCall(name, PlainItems(args))
    case CArray(items) => CArray(PlainItems(items))
    case CObject(fields) => CObject(PlainFields(fields))
    case _ => c
  }

  function PlainItems(items: Items): Items {
    match items
    case NoItems => NoItems
    case Item(elem, _, rest) => Item(Plain(elem), false, PlainItems(rest))
  }

  function PlainFields(fields: Fields): Fields {
    match fields
    case NoFields => NoFields
    case Field(key, elem, _, rest) => Field(key, Plain(elem), false, PlainFields(rest))
  }

  lemma {:induction false} PlainErase(c: Cst)
    ensures Erase(Plain(c)) == Erase(c)
  {
    match c
    case CCall(_, args) => PlainEraseItems(args);
    case CArray(items) => PlainEraseItems(items);
    case CObject(fields) => PlainEraseFields(fields);
    case _ =>
  }

  lemma {:induction false} PlainEraseItems(items: Items)
    ensures EraseItems(PlainItems(items)) == EraseItems(items)
  {
    if items.Item? {
      PlainErase(items.elem);
      PlainEraseItems(items.rest);
    }
  }

  lemma {:induction false} PlainEraseFields(fields: Fields)
    ensures EraseFields(PlainFields(fields)) == EraseFields(fields)
  {
    if fields.Field? {
      PlainErase(fields.elem);
      PlainEraseFields(fields.rest);
    }
  }

  /** Commas, trailing or between elements, never change the result: two token
      lists whose trees differ only in commas parse to the same syntax. */
  lemma CommasDoNotMatter(ts: seq<Token>, ts': seq<Token>, len: nat, len': nat, c: Cst, c': Cst)
    requires TreeFor(ts, c) && TreeFor(ts', c') && Plain(c) == Plain(c')
    ensures ParseTokens(ts, len).Ok? && ParseTokens(ts, len) == ParseTokens(ts', len')
  {
    ParsesTree(ts, 0, |ts|, len, c);
    ParsesTree(ts', 0, |ts'|, len', c');
    PlainErase(c);
    PlainErase(c');
  }

  /** Match brackets with a stack; `None` when a closer does not match. */
  function Nest(ks: seq<TokenKind>, stack: string): Option<string> {
    if ks == [] then Some(stack)
    else
      var k, rest := ks[0], ks[1..];
      if k == Sym('(') then Nest(rest, stack + ")")
      else if k == Sym('[') then Nest(rest, stack + "]")
      else if k == Sym('{') then Nest(rest, stack + "}")
      else if k == Sym(')') || k == Sym(']') || k == Sym('}') then
        if stack != "" && stack[|stack| - 1] == k.c then Nest(rest, stack[..|stack| - 1]) else None
      else Nest(rest, stack)
  }

  lemma {:induction false} NestAppend(a: seq<TokenKind>, b: seq<TokenKind>, stack: string)
    ensures Nest(a + b, stack) == match Nest(a, stack) { case None => None case Some(s) => Nest(b, s) }
    decreases |a|
  {
    if a == [] {
      assert a + b == b;
    } else {
      assert (a + b)[1..] == a[1..] + b;
      NestAppend(a[1..], b, stack + ")");
      NestAppend(a[1..], b, stack + "]");
      NestAppend(a[1..], b, stack + "}");
      NestAppend(a[1..], b, stack);
      if stack != "" {
        NestAppend(a[1..], b, stack[..|stack| - 1]);
      }
    }
  }

  lemma NestBracket(open: char, close: char, inner: seq<TokenKind>, stack: string)
    requires (open == '(' && close == ')') || (open == '[' && close == ']') || (open == '{' && close == '}')
    requires Nest(inner, stack + [close]) == Some(stack + [close])
    ensures Nest([Sym(open)] + inner + [Sym(close)], stack) == Some(stack)
  {
    NestAppend([Sym(open)], inner, stack);
    NestAppend([Sym(open)] + inner, [Sym(close)], stack);
    assert [Sym(open)][1..] == [] && [Sym(close)][1..] == [];
    assert (stack + [close])[..|stack|] == stack;
    assert Nest([Sym(open)], stack) == Some(stack + [close]);
  }

  lemma {:induction false} TreeNests(c: Cst, stack: string)
    ensures Nest(Yield(c), stack) == Some(stack)
    decreases c
  {
    match c
    case CCall(name, args) =>
      ItemsNest(args, stack + ")");
      CallNests(name, YieldItems(args), stack);
    case CArray(items) =>
      ItemsNest(items, stack + "]");
      NestBracket('[', ']', YieldItems(items), stack);
    case CObject(fields) =>
      FieldsNest(fields, stack + "}");
      NestBracket('{', '}', YieldFields(fields), stack);
    case _ =>
      assert Yield(c)[1..] == [];
  }

  lemma CallNests(name: string, inner: seq<TokenKind>, stack: string)
    requires Nest(inner, stack + ")") == Some(stack + ")")
    ensures Nest([Ident(name), Sym('(')] + inner + [Sym(')')], stack) == Some(stack)
  {
    NestBracket('(', ')', inner, stack);
    var all := [Ident(name), Sym('(')] + inner + [Sym(')')];
    assert all[1..] == [Sym('(')] + inner + [Sym(')')];
  }

  lemma KeyNests(key: Key, stack: string)
    ensures Nest([KeyToken(key), Sym(':')], stack) == Some(stack)
  {
    var head := [KeyToken(key), Sym(':')];
    assert head[1..] == [Sym(':')] && [Sym(':')][1..] == [];
    assert Nest([Sym(':')], stack) == Some(stack);
  }

  lemma CommaNests(comma: bool, stack: string)
    ensures Nest(Comma(comma), stack) == Some(stack)
  {
    assert comma ==> Comma(comma)[1..] == [];
  }

  lemma {:induction false} ItemsNest(items: Items, stack: string)
    ensures Nest(YieldItems(items), stack) == Some(stack)
    decreases items, 2
  {
    match items
    case NoItems =>
    case Item(elem, comma, rest) =>
      TreeNests(elem, stack);
      CommaNests(comma, stack);
      ItemsNest(rest, stack);
      NestAppend(Yield(elem), Comma(comma), stack);
      NestAppend(Yield(elem) + Comma(comma), YieldItems(rest), stack);
  }

  lemma {:induction false} FieldsNest(fields: Fields, stack: string)
    ensures Nest(YieldFields(fields), stack) == Some(stack)
    decreases fields
  {
    match fields
    case NoFields =>
    case Field(key, elem, comma, rest) =>
      var head := [KeyToken(key), Sym(':')];
      KeyNests(key, stack);
      TreeNests(elem, stack);
      CommaNests(comma, stack);
      FieldsNest(rest, stack);
      NestAppend(head, Yield(elem), stack);
      NestAppend(head + Yield(elem), Comma(comma), stack);
      NestAppend(head + Yield(elem) + Comma(comma), YieldFields(rest), stack);
  }

  /** Every accepted input is properly nested. */
  lemma AcceptedIsNested(ts: seq<Token>, len: nat)
    requires ParseTokens(ts, len).Ok?
    ensures Nest(seq(|ts|, k requires 0 <= k < |ts| => ts[k].kind), "") == Some("")
  {
    var c := TreeOf(ts, 0, len);
    TreeNests(c, "");
    assert seq(|ts|, k requires 0 <= k < |ts| => ts[k].kind) == Yield(c);
  }

  /** Parsed objects have their keys in ascending order, at every depth. */
  lemma {:induction false} EraseWellFormed(c: Cst)
    ensures WellFormed(Erase(c))
  {
    match c
    case CCall(_, args) => EraseItemsWellFormed(args);
    case CArray(items) => EraseItemsWellFormed(items);
    case CObject(fields) =>
      EraseFieldsWellFormed(fields);
      var all := EraseFields(fields);
      var m := InsertAll(all);
      InsertAllAscending(all);
      forall k | 0 <= k < |m| ensures WellFormed(m[k].value) {
        assert m[k] in m;
        LatestIsIn(all, m[k]);
      }
    case _ =>
  }

  lemma {:induction false} LatestIsIn(fields: seq<Entry<Ast>>, e: Entry<Ast>)
    requires Latest(fields, e.key) == Some(e.value)
    ensures e in fields
  {
    var n := |fields| - 1;
    if fields[n].key != e.key {
      LatestIsIn(fields[..n], e);
    }
  }

  lemma {:induction false} EraseItemsWellFormed(items: Items)
    ensures forall k :: 0 <= k < |EraseItems(items)| ==> WellFormed(EraseItems(items)[k])
  {
    if items.Item? {
      EraseWellFormed(items.elem);
      EraseItemsWellFormed(items.rest);
    }
  }

  lemma {:induction false} EraseFieldsWellFormed(fields: Fields)
    ensures forall e :: e in EraseFields(fields) ==> WellFormed(e.value)
  {
    if fields.Field? {
      EraseWellFormed(fields.elem);
      EraseFieldsWellFormed(fields.rest);
    }
  }

  // ----- errors -----

  ghost predicate Inside(ts: seq<Token>, len: nat) {
    forall k :: 0 <= k < |ts| ==> ts[k].start <= len && ts[k].end <= len
  }

  predicate GoodError(e: ParseError, len: nat) {
    e.position <= len && !e.ExpectedCloseParen? && !e.ExpectedCloseBracket?
  }

  /** Parser errors point into the input, and the errors placed after the loops of
      calls and arrays never arise. */
  lemma {:induction false} ErrorsInside(ts: seq<Token>, i: nat, len: nat)
    requires i <= |ts| && Inside(ts, len) && !ParseAst(ts, i, len).Ok?
    ensures ParseAst(ts, i, len).Err? && GoodError(ParseAst(ts, i, len).error, len)
    decreases |ts| - i, 0
  {
    if i < |ts| {
      match ts[i].kind
      case Ident(_) => if At(ts, i + 1, '(') { ListErrorsInside(ts, i + 2, len, ')'); }
      case Sym(c) =>
        if c == '[' {
          ListErrorsInside(ts, i + 1, len, ']');
        } else if c == '{' {
          FieldErrorsInside(ts, i + 1, len, ts[i].end, true);
        }
      case _ =>
    }
  }

  lemma {:induction false} ListErrorsInside(ts: seq<Token>, i: nat, len: nat, close: char)
    requires i <= |ts| && Inside(ts, len) && !ParseList(ts, i, len, close).Ok?
    ensures ParseList(ts, i, len, close).Err? && GoodError(ParseList(ts, i, len, close).error, len)
    decreases |ts| - i, 1
  {
    if ParseAst(ts, i, len).Ok? {
      ListErrorsInside(ts, SkipComma(ts, ParseAst(ts, i, len).value.next), len, close);
    } else {
      ErrorsInside(ts, i, len);
    }
  }

  lemma {:induction false} FieldErrorsInside(ts: seq<Token>, i: nat, len: nat, openEnd: nat, first: bool)
    requires i <= |ts| && Inside(ts, len) && openEnd <= len && !ParseFields(ts, i, len, openEnd, first).Ok?
    ensures var r := ParseFields(ts, i, len, openEnd, first); r.Err? && GoodError(r.error, len)
    decreases |ts| - i, 1
  {
    if ParseKey(ts, i, len, openEnd, first).Ok? {
      if ParseAst(ts, i + 2, len).Ok? {
        FieldErrorsInside(ts, SkipComma(ts, ParseAst(ts, i + 2, len).value.next), len, openEnd, false);
      } else {
        ErrorsInside(ts, i + 2, len);
      }
    }
  }
}
