/** The Dialect parser: `parse_ast` and `parse`
    (outdated/mcp-server/src/dialect/parser.rs). */
module DialectParser {
  import opened DialectAst
  import opened SortedMap
  import opened DialectLexer

  /** A parsed part and the index of the token after it. */
  datatype Parsed<+T> = Parsed(part: T, next: nat)

  predicate At(ts: seq<Token>, i: nat, c: char) { i < |ts| && ts[i].kind == Sym(c) }

  /** `parse_ast` on the tokens from index `i`; `len` is the length of the input. */
  function ParseAst(ts: seq<Token>, i: nat, len: nat): (r: Outcome<Parsed<Ast>>)
    requires i <= |ts|
    ensures r.Ok? ==> i < r.value.next <= |ts|
    decreases |ts| - i, 0
  {
    if i == |ts| then Err(UnexpectedEof(len))
    else
      match ts[i].kind
      case Integer(n) => Ok(Parsed(Int(n), i + 1))
      case Boolean(b) => Ok(Parsed(Ast.Boolean(b), i + 1))
      case Str(s) => Ok(Parsed(Ast.Str(s), i + 1))
      case Ident(name) =>
        if At(ts, i + 1, '(') then
          match ParseList(ts, i + 2, len, ')')
          case Ok(r) => Ok(Parsed(Call(name, r.part), r.next))
          case Err(e) => Err(e)
          case Panic => Panic
        else Err(UnexpectedIdent(ts[i].start))
      case Sym(c) =>
        if c == '[' then
          match ParseList(ts, i + 1, len, ']')
          case Ok(r) => Ok(Parsed(Array(r.part), r.next))
          case Err(e) => Err(e)
          case Panic => Panic
        else if c == '{' then
          match ParseFields(ts, i + 1, len, ts[i].end, true)
          case Ok(r) => Ok(Parsed(Object(InsertAll(r.part)), r.next))
          case Err(e) => Err(e)
          case Panic => Panic
        else Err(UnexpectedToken(ts[i].kind, ts[i].start))
  }

  /** Index after an optional comma. */
  function SkipComma(ts: seq<Token>, i: nat): (j: nat)
    requires i <= |ts|
    ensures i <= j <= |ts|
  {
    if At(ts, i, ',') then i + 1 else i
  }

  /** The error of a loop that is left with no token behind it. */
  function CloseError(close: char, len: nat): ParseError {
    if close == ')' then ExpectedCloseParen(len)
    else if close == ']' then ExpectedCloseBracket(len)
    else ExpectedCloseBrace(len)
  }

  /** The token taken after a loop, whatever it is: the index behind it. */
  function TakeCloser(ts: seq<Token>, i: nat, len: nat, close: char): Outcome<nat> {
    if i < |ts| then Ok(i + 1) else Err(CloseError(close, len))
  }

  /** Elements, each with an optional comma, up to and including the closer. */
  function ParseList(ts: seq<Token>, i: nat, len: nat, close: char): (r: Outcome<Parsed<seq<Ast>>>)
    requires i <= |ts|
    ensures r.Ok? ==> i < r.value.next <= |ts| && At(ts, r.value.next - 1, close)
    decreases |ts| - i, 1
  {
    if At(ts, i, close) then
      match TakeCloser(ts, i, len, close)
      case Ok(next) => Ok(Parsed([], next))
      case Err(e) => Err(e)
      case Panic => Panic
    else
      match ParseAst(ts, i, len)
      case Err(e) => Err(e)
      case Panic => Panic
      case Ok(a) =>
        match ParseList(ts, SkipComma(ts, a.next), len, close)
        case Err(e) => Err(e)
        case Panic => Panic
        case Ok(rest) => Ok(Parsed([a.part] + rest.part, rest.next))
  }

  /** The key at index `i` and the colon after it. */
  function ParseKey(ts: seq<Token>, i: nat, len: nat, openEnd: nat, first: bool): (r: Outcome<Parsed<string>>)
    requires i <= |ts|
    ensures r.Ok? ==> r.value.next == i + 2 <= |ts|
  {
    if i == |ts| then Err(ExpectedCloseBrace(if first then openEnd else len))
    else if !ts[i].kind.Str? && !ts[i].kind.Ident? then Err(ExpectedStringOrIdent(ts[i].start))
    else if i + 1 == |ts| then Err(ExpectedColon(len))
    else if ts[i + 1].kind != Sym(':') then Err(ExpectedColon(ts[i + 1].start))
    else Ok(Parsed(if ts[i].kind.Str? then ts[i].kind.s else ts[i].kind.name, i + 2))
  }

  /** A key, its colon and its value. */
  function ParseEntry(ts: seq<Token>, i: nat, len: nat, openEnd: nat, first: bool): (r: Outcome<Parsed<Entry<Ast>>>)
    requires i <= |ts|
    ensures r.Ok? ==> i < r.value.next <= |ts|
    decreases |ts| - i, 0
  {
    match ParseKey(ts, i, len, openEnd, first)
    case Err(e) => Err(e)
    case Panic => Panic
    case Ok(key) =>
      match ParseAst(ts, key.next, len)
      case Err(e) => Err(e)
      case Panic => Panic
      case Ok(a) => Ok(Parsed(Entry(key.part, a.part), a.next))
  }

  /** Fields, each with an optional comma, up to and including the brace.  `first`
      tells whether the map is still empty, `openEnd` where the brace was. */
  function ParseFields(ts: seq<Token>, i: nat, len: nat, openEnd: nat,
                       first: bool): (r: Outcome<Parsed<seq<Entry<Ast>>>>)
    requires i <= |ts|
    ensures r.Ok? ==> i < r.value.next <= |ts| && At(ts, r.value.next - 1, '}')
    decreases |ts| - i, 1
  {
    if At(ts, i, '}') then
      match TakeCloser(ts, i, len, '}')
      case Ok(next) => Ok(Parsed([], next))
      case Err(e) => Err(e)
      case Panic => Panic
    else
      match ParseEntry(ts, i, len, openEnd, first)
      case Err(e) => Err(e)
      case Panic => Panic
      case Ok(entry) =>
        match ParseFields(ts, SkipComma(ts, entry.next), len, openEnd, false)
        case Err(e) => Err(e)
        case Panic => Panic
        case Ok(rest) => Ok(Parsed([entry.part] + rest.part, rest.next))
  }

  /** `parse`: all tokens must be consumed. */
  function ParseTokens(ts: seq<Token>, len: nat): Outcome<Ast> {
    match ParseAst(ts, 0, len)
    case Err(e) => Err(e)
    case Panic => Panic
    case Ok(r) => if r.next < |ts| then Err(UnexpectedToken(ts[r.next].kind, ts[r.next].start)) else Ok(r.part)
  }

  function Parse(u: Unicode, input: string): Outcome<Ast> {
    match Lex(u, "", input)
    case Err(e) => Err(e)
    case Panic => Panic
    case Ok(ts) => ParseTokens(ts, Bytes(input))
  }
}
