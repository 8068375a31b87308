/** `symposium:` links and their line specifications
    (outdated/vscode-extension/src/symposiumUrl.ts). */
module SymposiumUrl {
  import opened Collections
  import opened Numerals
  import opened Splitting
  import opened UrlEncoding

  datatype LineSpec =
    | Single(startLine: nat)
    | Range(startLine: nat, endLine: nat)
    | SingleWithColumn(startLine: nat, startColumn: nat)
    | RangeWithColumns(startLine: nat, startColumn: nat, endLine: nat, endColumn: nat)

  datatype Url = Url(path: string, regex: Option<string>, line: Option<LineSpec>)

  // ----- line specifications -----

  /** Match numbers with the separators between them, as a whole: `^(\d+)...(\d+)$`. */
  function MatchNumbers(s: string, seps: string): (r: Option<seq<nat>>)
    ensures r.Some? ==> |r.value| == |seps| + 1
    decreases |seps|
  {
    var n := LeadingRun(IsDigit, s);
    if n == 0 then None
    else if seps == "" then (if n == |s| then Some([Decimal(s)]) else None)
    else if n < |s| && s[n] == seps[0] then
      match MatchNumbers(s[n + 1..], seps[1..])
      case None => None
      case Some(rest) => Some([Decimal(s[..n])] + rest)
    else None
  }

  predicate Fits(ns: Option<seq<nat>>, n: nat) { ns.Some? ==> |ns.value| == n }

  /** The first of the four formats that matched. */
  function FirstOf(four: Option<seq<nat>>, two: Option<seq<nat>>, column: Option<seq<nat>>, one: Option<seq<nat>>)
    : Option<LineSpec>
    requires Fits(four, 4) && Fits(two, 2) && Fits(column, 2) && Fits(one, 1)
  {
    if four.Some? then Some(RangeWithColumns(four.value[0], four.value[1], four.value[2], four.value[3]))
    else if two.Some? then Some(Range(two.value[0], two.value[1]))
    else if column.Some? then Some(SingleWithColumn(column.value[0], column.value[1]))
    else if one.Some? then Some(Single(one.value[0]))
    else None
  }

  /** `parseLineSpec`: the four formats in turn. */
  function ParseLineSpec(s: string): Option<LineSpec> {
    FirstOf(MatchNumbers(s, ":-:"), MatchNumbers(s, "-"), MatchNumbers(s, ":"), MatchNumbers(s, ""))
  }

  function WriteNumbers(ns: seq<nat>, seps: string): string
    requires |ns| == |seps| + 1
    decreases |seps|
  {
    if seps == "" then Digits(ns[0]) else Digits(ns[0]) + [seps[0]] + WriteNumbers(ns[1..], seps[1..])
  }

  function SeparatorsOf(l: LineSpec): string {
    match l
    case Single(_) => ""
    case Range(_, _) => "-"
    case SingleWithColumn(_, _) => ":"
    case RangeWithColumns(_, _, _, _) => ":-:"
  }

  function NumbersOf(l: LineSpec): (ns: seq<nat>)
    ensures |ns| == |SeparatorsOf(l)| + 1
  {
    match l
    case Single(a) => [a]
    case Range(a, c) => [a, c]
    case SingleWithColumn(a, b) => [a, b]
    case RangeWithColumns(a, b, c, d) => [a, b, c, d]
  }

  /** `formatLineSpec`. */
  function FormatLineSpec(l: LineSpec): string {
    match l
    case Single(a) => Digits(a)
    case SingleWithColumn(a, b) => Digits(a) + ":" + Digits(b)
    case Range(a, c) => Digits(a) + "-" + Digits(c)
    case RangeWithColumns(a, b, c, d) => Digits(a) + ":" + Digits(b) + "-" + Digits(c) + ":" + Digits(d)
  }

  predicate NoDigits(seps: string) { forall k :: 0 <= k < |seps| ==> !IsDigit(seps[k]) }

  lemma MatchFirst(n: nat, sep: char, rest: string, seps: string)
    requires !IsDigit(sep)
    ensures var s := Digits(n) + [sep] + rest;
            MatchNumbers(s, [sep] + seps)
            == if MatchNumbers(rest, seps).Some? then Some([n] + MatchNumbers(rest, seps).value) else None
  {
    var s := Digits(n) + [sep] + rest;
    var k := |Digits(n)|;
    LeadingRunUnique(IsDigit, s, k);
    DigitsDecimal(n);
    assert s[..k] == Digits(n) && s[k + 1..] == rest;
    assert ([sep] + seps)[1..] == seps;
  }

  lemma MatchLast(n: nat)
    ensures MatchNumbers(Digits(n), "") == Some([n])
  {
    LeadingRunUnique(IsDigit, Digits(n), |Digits(n)|);
    DigitsDecimal(n);
  }

  lemma {:induction false} MatchWritten(ns: seq<nat>, seps: string)
    requires |ns| == |seps| + 1 && NoDigits(seps)
    ensures MatchNumbers(WriteNumbers(ns, seps), seps) == Some(ns)
    decreases |seps|
  {
    if seps == "" {
      MatchLast(ns[0]);
      assert ns == [ns[0]];
    } else {
      MatchWritten(ns[1..], seps[1..]);
      MatchOneMore(ns[0], seps[0], ns[1..], seps[1..]);
      assert [seps[0]] + seps[1..] == seps && [ns[0]] + ns[1..] == ns;
    }
  }

  lemma MatchOneMore(n: nat, sep: char, ns: seq<nat>, seps: string)
    requires |ns| == |seps| + 1 && !IsDigit(sep) && MatchNumbers(WriteNumbers(ns, seps), seps) == Some(ns)
    ensures MatchNumbers(WriteNumbers([n] + ns, [sep] + seps), [sep] + seps) == Some([n] + ns)
  {
    WriteFirst(n, sep, ns, seps);
    MatchFirst(n, sep, WriteNumbers(ns, seps), seps);
  }

  /** No text has two of the formats. */
  lemma {:induction false} FormatsDisjoint(s: string, p: string, q: string)
    requires NoDigits(p) && NoDigits(q) && MatchNumbers(s, p).Some? && MatchNumbers(s, q).Some?
    ensures p == q
    decreases |p|
  {
    var n := LeadingRun(IsDigit, s);
    if p != "" && q != "" {
      FormatsDisjoint(s[n + 1..], p[1..], q[1..]);
      assert p == [p[0]] + p[1..] && q == [q[0]] + q[1..];
    }
  }

  lemma WriteFirst(n: nat, sep: char, ns: seq<nat>, seps: string)
    requires |ns| == |seps| + 1
    ensures WriteNumbers([n] + ns, [sep] + seps) == Digits(n) + [sep] + WriteNumbers(ns, seps)
  {
    assert ([n] + ns)[1..] == ns && ([sep] + seps)[1..] == seps;
  }

  lemma FormatIsWritten(l: LineSpec)
    ensures FormatLineSpec(l) == WriteNumbers(NumbersOf(l), SeparatorsOf(l))
  {
    match l
    case Single(_) =>
    case Range(a, c) => TwoNumbers(a, '-', c);
    case SingleWithColumn(a, b) => TwoNumbers(a, ':', b);
    case RangeWithColumns(a, b, c, d) =>
      TwoNumbers(c, ':', d);
      WriteFirst(b, '-', [c, d], ":");
      WriteFirst(a, ':', [b, c, d], "-:");
      assert [b] + [c, d] == [b, c, d] && [a] + [b, c, d] == [a, b, c, d] && "-" + ":" == "-:" && ":" + "-:" == ":-:";
      Flatten(Digits(a), Digits(b), Digits(c), Digits(d));
  }

  lemma TwoNumbers(a: nat, sep: char, b: nat)
    ensures WriteNumbers([a, b], [sep]) == Digits(a) + [sep] + Digits(b)
  {
    WriteFirst(a, sep, [b], "");
    assert [a] + [b] == [a, b] && [sep] + "" == [sep];
  }

  lemma Flatten(a: string, b: string, c: string, d: string)
    ensures a + ":" + (b + "-" + (c + ":" + d)) == a + ":" + b + "-" + c + ":" + d
  {
  }

  predicate NotBoth(a: Option<seq<nat>>, b: Option<seq<nat>>) { a.Some? ==> b.None? }

  /** When only one format matched, it is the first. */
  lemma OnlyOne(four: Option<seq<nat>>, two: Option<seq<nat>>, column: Option<seq<nat>>, one: Option<seq<nat>>,
                l: LineSpec)
    requires Fits(four, 4) && Fits(two, 2) && Fits(column, 2) && Fits(one, 1)
    requires NotBoth(four, two) && NotBoth(four, column) && NotBoth(four, one)
    requires NotBoth(two, column) && NotBoth(two, one) && NotBoth(column, one)
    ensures FirstOf(four, two, column, one) == Some(l) <==>
            Some(NumbersOf(l)) == match l
                                  case Single(_) => one
                                  case Range(_, _) => two
                                  case SingleWithColumn(_, _) => column
                                  case RangeWithColumns(_, _, _, _) => four
  {
    if four.Some? {
      assert four.value == [four.value[0], four.value[1], four.value[2], four.value[3]];
    }
    if two.Some? {
      assert two.value == [two.value[0], two.value[1]];
    }
    if column.Some? {
      assert column.value == [column.value[0], column.value[1]];
    }
    if one.Some? {
      assert one.value == [one.value[0]];
    }
  }

  lemma FormatsApart(s: string, p: string, q: string)
    requires NoDigits(p) && NoDigits(q) && p != q
    ensures NotBoth(MatchNumbers(s, p), MatchNumbers(s, q))
  {
    if MatchNumbers(s, p).Some? && MatchNumbers(s, q).Some? {
      FormatsDisjoint(s, p, q);
    }
  }

  /** The one format a text has decides what is read. */
  lemma ReadIff(s: string, l: LineSpec)
    ensures ParseLineSpec(s) == Some(l) <==> MatchNumbers(s, SeparatorsOf(l)) == Some(NumbersOf(l))
  {
    FormatsApart(s, ":-:", "-");
    FormatsApart(s, ":-:", ":");
    FormatsApart(s, ":-:", "");
    FormatsApart(s, "-", ":");
    FormatsApart(s, "-", "");
    FormatsApart(s, ":", "");
    OnlyOne(MatchNumbers(s, ":-:"), MatchNumbers(s, "-"), MatchNumbers(s, ":"), MatchNumbers(s, ""), l);
  }

  /** The format of a line specification is read back as it. */
  lemma LineSpecRoundTrip(l: LineSpec)
    ensures ParseLineSpec(FormatLineSpec(l)) == Some(l)
  {
    FormatIsWritten(l);
    MatchWritten(NumbersOf(l), SeparatorsOf(l));
    ReadIff(FormatLineSpec(l), l);
  }

  // ----- which texts are line specifications -----

  predicate Number(s: string) { s != "" && AllDigits(s) }

  /** Texts with the separators between them. */
  function Weave(parts: seq<string>, seps: string): string
    requires |parts| == |seps| + 1
    decreases |seps|
  {
    if seps == "" then parts[0] else parts[0] + [seps[0]] + Weave(parts[1..], seps[1..])
  }

  /** The text is numbers in decimal, leading zeros and all, with the separators between. */
  predicate Spells(s: string, seps: string, parts: seq<string>, ns: seq<nat>) {
    && |parts| == |ns| == |seps| + 1
    && (forall k :: 0 <= k < |parts| ==> Number(parts[k]) && Decimal(parts[k]) == ns[k])
    && s == Weave(parts, seps)
  }

  lemma SpellsFirst(part: string, sep: char, rest: string, seps: string, parts: seq<string>, n: nat, ns: seq<nat>)
    requires Number(part) && Decimal(part) == n && Spells(rest, seps, parts, ns)
    ensures Spells(part + [sep] + rest, [sep] + seps, [part] + parts, [n] + ns)
  {
    assert ([part] + parts)[1..] == parts && ([sep] + seps)[1..] == seps;
  }

  /** A match begins with a number, and goes on after the separator. */
  lemma MatchRest(s: string, seps: string) returns (first: string, more: string)
    requires MatchNumbers(s, seps).Some? && seps != ""
    ensures Number(first) && s == first + [seps[0]] + more
    ensures var ns := MatchNumbers(s, seps).value;
            MatchNumbers(more, seps[1..]) == Some(ns[1..]) && ns[0] == Decimal(first)
  {
    var n := LeadingRun(IsDigit, s);
    first, more := s[..n], s[n + 1..];
    var rest := MatchNumbers(more, seps[1..]).value;
    assert ([Decimal(first)] + rest)[1..] == rest;
  }

  lemma {:induction false} MatchSpells(s: string, seps: string) returns (parts: seq<string>)
    requires MatchNumbers(s, seps).Some?
    ensures Spells(s, seps, parts, MatchNumbers(s, seps).value)
    decreases |seps|
  {
    if seps == "" {
      parts := [s];
    } else {
      var ns := MatchNumbers(s, seps).value;
      var first, more := MatchRest(s, seps);
      var rest := MatchSpells(more, seps[1..]);
      parts := [first] + rest;
      SpellsFirst(first, seps[0], more, seps[1..], rest, ns[0], ns[1..]);
      assert seps == [seps[0]] + seps[1..] && ns == [ns[0]] + ns[1..];
    }
  }

  lemma {:induction false} SpellsMatch(s: string, seps: string, parts: seq<string>, ns: seq<nat>)
    requires NoDigits(seps) && Spells(s, seps, parts, ns)
    ensures MatchNumbers(s, seps) == Some(ns)
    decreases |seps|
  {
    var part := parts[0];
    LeadingRunUnique(IsDigit, s, |part|);
    assert s[..|part|] == part;
    if seps == "" {
      assert s == part && ns == [ns[0]];
    } else {
      var rest := Weave(parts[1..], seps[1..]);
      assert s[|part| + 1..] == rest;
      assert NoDigits(seps[1..]);
      SpellsMatch(rest, seps[1..], parts[1..], ns[1..]);
      assert ns == [ns[0]] + ns[1..];
    }
  }

  /** A text is read as a line specification exactly when it is its numbers, in decimal,
      with its separators; any other text is read as none. */
  lemma LineSpecIff(s: string, l: LineSpec)
    ensures ParseLineSpec(s) == Some(l) <==> exists parts :: Spells(s, SeparatorsOf(l), parts, NumbersOf(l))
  {
    ReadIff(s, l);
    if ParseLineSpec(s) == Some(l) {
      var parts := MatchSpells(s, SeparatorsOf(l));
    }
    if parts :| Spells(s, SeparatorsOf(l), parts, NumbersOf(l)) {
      SpellsMatch(s, SeparatorsOf(l), parts, NumbersOf(l));
    }
  }

  // ----- links -----

  const SCHEME: string := "symposium:"

  /** `params.get`: the first value under a name. */
  function GetParam(ps: seq<Pair>, name: string): Option<string> {
    if ps == [] then None else if ps[0].name == name then Some(ps[0].value) else GetParam(ps[1..], name)
  }

  /** An empty string is false to JavaScript. */
  function NonEmpty(s: Option<string>): Option<string> {
    if s == Some("") then None else s
  }

  function LineOf(text: Option<string>): Option<LineSpec> {
    if text.Some? then ParseLineSpec(text.value) else None
  }

  /** What a query says. */
  function FromQuery(path: string, query: string): Url {
    if query == "" then Url(path, None, None)
    else
      var params := Read(query);
      Url(path, NonEmpty(GetParam(params, "regex")), LineOf(NonEmpty(GetParam(params, "line"))))
  }

  function Parse(url: string): Option<Url> {
    if !(SCHEME <= url) then None
    else
      var parts := Split('?', url[|SCHEME|..]);
      if parts[0] == "" then None
      else Some(FromQuery(parts[0], if |parts| > 1 then parts[1] else ""))
  }

  /** `parseSymposiumUrl`. */
  method ParseSymposiumUrl(url: string) returns (r: Option<Url>)
    ensures r == Parse(url)
  {
    if !(SCHEME <= url) {
      return None;
    }
    var parts := Split('?', url[|SCHEME|..]);
    var path := parts[0];
    if path == "" {
      return None;
    }
    var result := Url(path, None, None);
    if |parts| > 1 && parts[1] != "" {
      var params := Read(parts[1]);
      var regex := GetParam(params, "regex");
      if regex.Some? && regex.value != "" {
        result := result.(regex := regex);
      }
      var line := GetParam(params, "line");
      if line.Some? && line.value != "" {
        var lineSpec := ParseLineSpec(line.value);
        if lineSpec.Some? {
          result := result.(line := lineSpec);
        }
      }
    }
    return Some(result);
  }

  function Params(u: Url): seq<Pair> {
    (if NonEmpty(u.regex).Some? then [Pair("regex", u.regex.value)] else [])
    + (if u.line.Some? then [Pair("line", FormatLineSpec(u.line.value))] else [])
  }

  function Format(u: Url): string {
    var query := Write(Params(u));
    SCHEME + u.path + if query == "" then "" else "?" + query
  }

  /** `formatSymposiumUrl`. */
  method FormatSymposiumUrl(u: Url) returns (url: string)
    ensures url == Format(u)
  {
    url := SCHEME + u.path;
    var params: seq<Pair> := [];
    if u.regex.Some? && u.regex.value != "" {
      params := params + [Pair("regex", u.regex.value)];
    }
    if u.line.Some? {
      params := params + [Pair("line", FormatLineSpec(u.line.value))];
    }
    assert params == Params(u);
    var queryString := Write(params);
    if queryString != "" {
      url := url + ("?" + queryString);
    }
  }

  lemma NamedPair(name: string, value: string)
    requires name == "regex" || name == "line"
    ensures WritePair(Pair(name, value)) == name + "=" + Encode(value)
  {
    EncodedAsIs(name);
  }

  /** The query of a link: the pattern, then the line. */
  lemma QueryIs(u: Url)
    ensures Write(Params(u))
         == match (NonEmpty(u.regex), u.line)
            case (None, None) => ""
            case (Some(v), None) => "regex" + "=" + Encode(v)
            case (None, Some(l)) => "line" + "=" + Encode(FormatLineSpec(l))
            case (Some(v), Some(l)) => "regex" + "=" + Encode(v) + "&" + ("line" + "=" + Encode(FormatLineSpec(l)))
  {
    var p, q := Pair("regex", u.regex.GetOr("")), Pair("line", FormatLineSpec(u.line.GetOr(Single(0))));
    NamedPair("regex", p.value);
    NamedPair("line", q.value);
    WriteFew(p, q);
    WriteFew(q, q);
    assert [p] + [q] == [p, q] && [p] + [] == [p] && [] + [q] == [q];
  }

  /** The text of a link: the scheme, the path, and the query behind a question mark. */
  lemma FormatIs(u: Url)
    ensures Format(u) == "symposium:" + u.path + if Params(u) == [] then "" else "?" + Write(Params(u))
  {
    WriteNothing(Params(u));
  }

  lemma WriteNothing(ps: seq<Pair>)
    ensures Write(ps) == "" <==> ps == []
  {
    if ps != [] {
      WrittenPairIsPiece(ps[0]);
    }
  }

  lemma FormatIsNotEmpty(l: LineSpec)
    ensures FormatLineSpec(l) != ""
  {
  }

  lemma GetFirst(p: Pair, rest: seq<Pair>, name: string)
    ensures GetParam([p] + rest, name) == if p.name == name then Some(p.value) else GetParam(rest, name)
  {
    assert ([p] + rest)[1..] == rest;
  }

  lemma ParamsSay(u: Url)
    ensures NonEmpty(GetParam(Params(u), "regex")) == NonEmpty(u.regex)
    ensures LineOf(NonEmpty(GetParam(Params(u), "line"))) == u.line
  {
    var line := if u.line.Some? then [Pair("line", FormatLineSpec(u.line.value))] else [];
    assert GetParam([], "regex") == None;
    if u.line.Some? {
      FormatIsNotEmpty(u.line.value);
      LineSpecRoundTrip(u.line.value);
      assert line + [] == line;
      GetFirst(line[0], [], "regex");
      GetFirst(line[0], [], "line");
    }
    if NonEmpty(u.regex).Some? {
      GetFirst(Pair("regex", u.regex.value), line, "regex");
      GetFirst(Pair("regex", u.regex.value), line, "line");
    } else {
      assert Params(u) == line;
    }
  }

  /** The query written for a link says what the link says, but for an empty pattern. */
  lemma QueryRoundTrip(u: Url)
    ensures FromQuery(u.path, Write(Params(u))) == u.(regex := NonEmpty(u.regex))
  {
    ReadUndoesWrite(Params(u));
    WriteNothing(Params(u));
    ParamsSay(u);
  }

  lemma ParseWithQuery(path: string, query: string)
    requires '?' !in path && '?' !in query
    ensures Parse(SCHEME + path + ("?" + query)) == if path == "" then None else Some(FromQuery(path, query))
  {
    assert (SCHEME + path + ("?" + query))[|SCHEME|..] == path + ['?'] + query;
    SplitTwo('?', path, query);
  }

  lemma ParseWithoutQuery(path: string)
    requires '?' !in path
    ensures Parse(SCHEME + path) == if path == "" then None else Some(FromQuery(path, ""))
  {
    assert (SCHEME + path)[|SCHEME|..] == path;
    SplitOnePart('?', path);
  }

  /** A link with any query, or none, written behind its path. */
  lemma ParseBehind(path: string, query: string)
    requires '?' !in path && '?' !in query
    ensures Parse(SCHEME + path + if query == "" then "" else "?" + query)
         == if path == "" then None else Some(FromQuery(path, query))
  {
    if query == "" {
      assert SCHEME + path + "" == SCHEME + path;
      ParseWithoutQuery(path);
    } else {
      ParseWithQuery(path, query);
    }
  }

  lemma NoQuestionMark(ps: seq<Pair>)
    ensures '?' !in Write(ps)
  {
    ReadUndoesWrite(ps);
  }

  /** What is read back from a written link. */
  lemma ParseFormat(u: Url)
    requires '?' !in u.path
    ensures Parse(Format(u)) == if u.path == "" then None else Some(u.(regex := NonEmpty(u.regex)))
  {
    NoQuestionMark(Params(u));
    ParseBehind(u.path, Write(Params(u)));
    QueryRoundTrip(u);
  }

  /** The first pair with the name has the value. */
  ghost predicate FirstNamed(ps: seq<Pair>, name: string, value: string) {
    exists k :: 0 <= k < |ps| && ps[k] == Pair(name, value) && forall j :: 0 <= j < k ==> ps[j].name != name
  }

  lemma {:induction false} GetParamIff(ps: seq<Pair>, name: string, value: string)
    ensures GetParam(ps, name) == Some(value) <==> FirstNamed(ps, name, value)
  {
    if ps != [] {
      GetParamIff(ps[1..], name, value);
      if ps[0].name != name && FirstNamed(ps[1..], name, value) {
        var k :| 0 <= k < |ps[1..]| && ps[1..][k] == Pair(name, value)
                 && forall j :: 0 <= j < k ==> ps[1..][j].name != name;
        assert ps[k + 1] == Pair(name, value);
        assert forall j :: 0 < j < k + 1 ==> ps[j] == ps[1..][j - 1];
      }
      if ps[0].name != name && FirstNamed(ps, name, value) {
        var k :| 0 <= k < |ps| && ps[k] == Pair(name, value) && forall j :: 0 <= j < k ==> ps[j].name != name;
        assert ps[1..][k - 1] == Pair(name, value);
      }
    }
  }

  /** A query gives the first pattern, unless that is empty, and the first line, if it is
      a line specification; other parameters say nothing. */
  lemma QuerySays(path: string, query: string)
    ensures var u := FromQuery(path, query);
            && u.path == path
            && (forall v :: u.regex == Some(v) <==> v != "" && FirstNamed(Read(query), "regex", v))
            && (forall l :: u.line == Some(l) <==>
                  exists v :: FirstNamed(Read(query), "line", v) && ParseLineSpec(v) == Some(l))
  {
    forall v ensures GetParam(Read(query), "regex") == Some(v) <==> FirstNamed(Read(query), "regex", v)
             ensures GetParam(Read(query), "line") == Some(v) <==> FirstNamed(Read(query), "line", v)
    {
      GetParamIff(Read(query), "regex", v);
      GetParamIff(Read(query), "line", v);
    }
    assert ParseLineSpec("") == None;
    ReadPieces("", "");
  }

  /** A link has a path, up to the first question mark, and a query, up to the second; what
      comes after that is not looked at. */
  lemma ParseIs(path: string, query: string, rest: string)
    requires '?' !in path && '?' !in query
    ensures path == "" ==> Parse(SCHEME + path + ("?" + query + "?" + rest)) == None
    ensures path != "" ==> Parse(SCHEME + path + ("?" + query + "?" + rest)) == Some(FromQuery(path, query))
    ensures path != "" ==> Parse(SCHEME + path) == Some(Url(path, None, None))
  {
    var more := query + "?" + rest;
    assert (SCHEME + path + ("?" + query + "?" + rest))[|SCHEME|..] == path + ['?'] + more;
    SplitFirst('?', path, more);
    SplitFirst('?', query, rest);
    assert query + ['?'] + rest == more;
    ParseWithoutQuery(path);
  }

  lemma {:induction false} FirstPart(sep: char, s: string)
    ensures sep !in Split(sep, s)[0]
  {
    SplitParts(sep, s);
  }

  /** A link survives being written and read exactly when it has a path, the path has no
      question mark, and a pattern, if it has one, is not empty. */
  lemma RoundTripIff(u: Url)
    ensures Parse(Format(u)) == Some(u) <==> u.path != "" && '?' !in u.path && u.regex != Some("")
  {
    if '?' in u.path {
      if Parse(Format(u)).Some? {
        FirstPart('?', Format(u)[|SCHEME|..]);
      }
    } else {
      ParseFormat(u);
    }
  }

  /** Whatever was read can be written and read again. */
  lemma ParsedSurvives(s: string)
    requires Parse(s).Some?
    ensures Parse(Format(Parse(s).value)) == Parse(s)
  {
    FirstPart('?', s[|SCHEME|..]);
    RoundTripIff(Parse(s).value);
  }
}
