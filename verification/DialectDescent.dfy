/** The parser as it runs: recursive descent over one shared, mutable token
    iterator, proved to compute the functions of `DialectParser`
    (outdated/mcp-server/src/dialect/parser.rs). */
module DialectDescent {
  import opened DialectAst
  import opened SortedMap
  import opened DialectLexer
  import opened DialectParser

  function PrependPart<T>(xs: seq<T>, r: Outcome<Parsed<seq<T>>>): Outcome<Parsed<seq<T>>> {
    match r
    case Ok(p) => Ok(Parsed(xs + p.part, p.next))
    case _ => r
  }

  lemma PrependPartTwice<T>(xs: seq<T>, ys: seq<T>, r: Outcome<Parsed<seq<T>>>)
    ensures PrependPart(xs, PrependPart(ys, r)) == PrependPart(xs + ys, r)
  {
    if r.Ok? {
      assert xs + (ys + r.value.part) == (xs + ys) + r.value.part;
    }
  }

  /** One turn of the loop of objects. */
  lemma EntryTurn(ts: seq<Token>, i: nat, len: nat, openEnd: nat, first: bool,
                  written: seq<Entry<Ast>>, entry: Parsed<Entry<Ast>>)
    requires i <= |ts| && !At(ts, i, '}') && ParseEntry(ts, i, len, openEnd, first) == Ok(entry)
    ensures PrependPart(written, ParseFields(ts, i, len, openEnd, first))
         == PrependPart(written + [entry.part], ParseFields(ts, SkipComma(ts, entry.next), len, openEnd, false))
    ensures InsertAll(written + [entry.part]) == Insert(InsertAll(written), entry.part) != []
  {
    PrependPartTwice(written, [entry.part], ParseFields(ts, SkipComma(ts, entry.next), len, openEnd, false));
    assert (written + [entry.part])[..|written|] == written;
  }

  /** The peekable iterator the parsing functions share. */
  class Tokens {
    const ts: seq<Token>
    var pos: nat

    ghost predicate Valid()
      reads this
    {
      pos <= |ts|
    }

    constructor (tokens: seq<Token>)
      ensures ts == tokens && pos == 0 && Valid()
    {
      ts := tokens;
      pos := 0;
    }

    predicate Peek(c: char)
      reads this
    {
      At(ts, pos, c)
    }

    /** Consume a comma if it is next. */
    method EatComma() returns (eaten: bool)
      requires Valid()
      modifies this
      ensures pos == SkipComma(ts, old(pos)) && eaten == old(Peek(','))
    {
      eaten := Peek(',');
      if eaten {
        pos := pos + 1;
      }
    }

    /** Consume the token after a loop, or fail when there is none. */
    method EatCloser<T>(len: nat, close: char, part: T) returns (r: Outcome<T>)
      requires Valid()
      modifies this
      ensures Valid() && pos >= old(pos)
      ensures match TakeCloser(ts, old(pos), len, close)
              case Ok(next) => r == Ok(part) && pos == next
              case Err(e) => r == Err(e)
              case Panic => r == Panic
    {
      if pos == |ts| {
        return Err(CloseError(close, len));
      }
      pos := pos + 1;
      return Ok(part);
    }

    method ParseAst(len: nat) returns (r: Outcome<Ast>)
      requires Valid()
      modifies this
      ensures Valid() && pos >= old(pos)
      ensures var spec := DialectParser.ParseAst(ts, old(pos), len);
              if spec.Ok? then r == Ok(spec.value.part) && pos == spec.value.next
              else if spec.Err? then r == Err(spec.error)
              else r == Panic
      decreases |ts| - pos, 0
    {
      if pos == |ts| {
        return Err(UnexpectedEof(len));
      }
      var token := ts[pos];
      pos := pos + 1;
      match token.kind {
        case Integer(n) => return Ok(Int(n));
        case Boolean(b) => return Ok(Ast.Boolean(b));
        case Str(s) => return Ok(Ast.Str(s));
        case Ident(name) =>
          if !Peek('(') {
            return Err(UnexpectedIdent(token.start));
          }
          pos := pos + 1;
          var args := ParseList(len, ')');
          match args {
            case Ok(xs) => return Ok(Call(name, xs));
            case Err(e) => return Err(e);
            case Panic => return Panic;
          }
        case Sym(c) =>
          if c == '[' {
            var elements := ParseList(len, ']');
            match elements {
              case Ok(xs) => return Ok(Array(xs));
              case Err(e) => return Err(e);
              case Panic => return Panic;
            }
          } else if c == '{' {
            var fields := ParseFields(len, token.end);
            match fields {
              case Ok(m) => return Ok(Object(m));
              case Err(e) => return Err(e);
              case Panic => return Panic;
            }
          } else {
            return Err(UnexpectedToken(token.kind, token.start));
          }
      }
    }

    /** The loop of calls and arrays, and the token taken after it. */
    method ParseList(len: nat, close: char) returns (r: Outcome<seq<Ast>>)
      requires Valid()
      modifies this
      ensures Valid() && pos >= old(pos)
      ensures var spec := DialectParser.ParseList(ts, old(pos), len, close);
              if spec.Ok? then r == Ok(spec.value.part) && pos == spec.value.next
              else if spec.Err? then r == Err(spec.error)
              else r == Panic
      decreases |ts| - pos, 1
    {
      var elements: seq<Ast> := [];
      ghost var spec := DialectParser.ParseList(ts, pos, len, close);
      assert spec == PrependPart([], spec) by {
        if spec.Ok? {
          assert [] + spec.value.part == spec.value.part;
        }
      }
      while !Peek(close)
        invariant Valid() && pos >= old(pos)
        invariant spec == PrependPart(elements, DialectParser.ParseList(ts, pos, len, close))
        decreases |ts| - pos
      {
        var element := ParseAst(len);
        match element {
          case Err(e) => return Err(e);
          case Panic => return Panic;
          case Ok(a) =>
            var eaten := EatComma();
            PrependPartTwice(elements, [a], DialectParser.ParseList(ts, pos, len, close));
            elements := elements + [a];
            if eaten && Peek(close) {
              break;
            }
        }
      }
      assert elements + [] == elements;
      r := EatCloser(len, close, elements);
    }

    /** A key, its colon and its value. */
    method ParseEntry(len: nat, openEnd: nat, first: bool) returns (r: Outcome<Entry<Ast>>)
      requires Valid()
      modifies this
      ensures Valid() && pos >= old(pos)
      ensures var spec := DialectParser.ParseEntry(ts, old(pos), len, openEnd, first);
              if spec.Ok? then r == Ok(spec.value.part) && pos == spec.value.next
              else if spec.Err? then r == Err(spec.error)
              else r == Panic
      decreases |ts| - pos, 0
    {
      var key := ParseKey(ts, pos, len, openEnd, first);
      match key {
        case Err(e) => return Err(e);
        case Panic => return Panic;
        case Ok(k) =>
          pos := k.next;
          var value := ParseAst(len);
          match value {
            case Err(e) => return Err(e);
            case Panic => return Panic;
            case Ok(a) => return Ok(Entry(k.part, a));
          }
      }
    }

    /** The loop of objects; `fields` keeps the `BTreeMap`, `written` what was inserted. */
    method ParseFields(len: nat, openEnd: nat) returns (r: Outcome<seq<Entry<Ast>>>)
      requires Valid()
      modifies this
      ensures Valid() && pos >= old(pos)
      ensures var spec := DialectParser.ParseFields(ts, old(pos), len, openEnd, true);
              if spec.Ok? then r == Ok(InsertAll(spec.value.part)) && pos == spec.value.next
              else if spec.Err? then r == Err(spec.error)
              else r == Panic
      decreases |ts| - pos, 1
    {
      var fields: seq<Entry<Ast>> := [];
      ghost var written: seq<Entry<Ast>> := [];
      ghost var spec := DialectParser.ParseFields(ts, pos, len, openEnd, true);
      assert spec == PrependPart([], spec) by {
        if spec.Ok? {
          assert [] + spec.value.part == spec.value.part;
        }
      }
      while !Peek('}')
        invariant Valid() && pos >= old(pos)
        invariant fields == InsertAll(written)
        invariant spec == PrependPart(written, DialectParser.ParseFields(ts, pos, len, openEnd, fields == []))
        decreases |ts| - pos
      {
        ghost var i := pos;
        var entry := ParseEntry(len, openEnd, fields == []);
        match entry {
          case Err(e) => return Err(e);
          case Panic => return Panic;
          case Ok(e) =>
            EntryTurn(ts, i, len, openEnd, fields == [], written, Parsed(e, pos));
            fields := Insert(fields, e);
            written := written + [e];
            var eaten := EatComma();
            if eaten && Peek('}') {
              break;
            }
        }
      }
      assert written + [] == written;
      r := EatCloser(len, '}', fields);
    }
  }

  method ParseInput(u: Unicode, input: string) returns (r: Outcome<Ast>)
    ensures r == Parse(u, input)
  {
    var lexed := Tokenize(u, input);
    match lexed {
      case Err(e) => return Err(e);
      case Panic => return Panic;
      case Ok(ts) =>
        var tokens := new Tokens(ts);
        var ast := tokens.ParseAst(Bytes(input));
        if ast.Ok? && tokens.pos < |ts| {
          var token := ts[tokens.pos];
          return Err(UnexpectedToken(token.kind, token.start));
        }
        return ast;
    }
  }
}
