/** The parameters at the head of a special code block
    (outdated/mcp-server/src/walkthrough_parser.rs, `parse_yaml_parameters`). */
module WalkthroughYaml {
  import opened Collections
  import opened Splitting
  import opened Trimming

  /** The Unicode properties `char::is_whitespace` and `char::is_alphanumeric`. */
  datatype Classes = Classes(whitespace: char -> bool, alphanumeric: char -> bool)

  /** What is known of them. */
  ghost predicate Standard(u: Classes) {
    && (forall c: char :: !(u.whitespace(c) && u.alphanumeric(c)))
    && u.whitespace(' ') && u.whitespace('\n') && u.whitespace('\r')
    && !u.whitespace(':') && !u.whitespace('_') && !u.whitespace('-') && !u.alphanumeric(':')
  }

  /** Where the first colon is, or the length. */
  function Colon(s: string): (k: nat)
    ensures k <= |s| && (k < |s| ==> s[k] == ':') && forall j :: 0 <= j < k ==> s[j] != ':'
  {
    if s == "" || s[0] == ':' then 0 else 1 + Colon(s[1..])
  }

  predicate KeyChars(u: Classes, key: string) {
    forall k :: 0 <= k < |key| ==> u.alphanumeric(key[k]) || key[k] == '_' || key[k] == '-'
  }

  datatype Param = Param(key: string, value: string)

  /** The parameter a trimmed line gives, if it has the shape of one. */
  function Shape(u: Classes, trimmed: string): Option<Param> {
    var k := Colon(trimmed);
    if k < |trimmed| && KeyChars(u, trimmed[..k]) then
      Some(Param(Trim(u.whitespace, trimmed[..k]), Trim(u.whitespace, trimmed[k + 1..])))
    else None
  }

  function ParamOf(u: Classes, line: string): Option<Param> { Shape(u, Trim(u.whitespace, line)) }

  predicate BlankLine(u: Classes, line: string) { Trim(u.whitespace, line) == "" }

  /** How lines are told apart. */
  datatype Reader = Reader(param: string -> Option<Param>, blank: string -> bool)

  function ReaderOf(u: Classes): Reader {
    Reader(line => ParamOf(u, line), line => BlankLine(u, line))
  }

  // ----- what is to be parsed -----

  /** How many lines at the front, from line `i` on, are parameters. */
  function HeaderLength(r: Reader, lines: seq<string>, i: nat): (n: nat)
    requires i <= |lines|
    ensures i + n <= |lines|
    decreases |lines| - i
  {
    if i < |lines| && !r.blank(lines[i]) && r.param(lines[i]).Some? then 1 + HeaderLength(r, lines, i + 1) else 0
  }

  /** All parameters of `n` lines from line `i` on, later ones winning. */
  function Params(r: Reader, lines: seq<string>, i: nat, n: nat, before: map<string, string>): map<string, string>
    requires i + n <= |lines|
    decreases n
  {
    if n == 0 then before
    else
      match r.param(lines[i])
      case Some(p) => Params(r, lines, i + 1, n - 1, before[p.key := p.value])
      case None => before
  }

  /** The lines after the header; the blank line that may end it belongs to neither. */
  function Body(r: Reader, lines: seq<string>, end: nat): seq<string>
    requires end <= |lines|
  {
    if end < |lines| && r.blank(lines[end]) then lines[end + 1..] else lines[end..]
  }

  datatype Parsed = Parsed(params: map<string, string>, body: seq<string>)

  function ParseFrom(r: Reader, lines: seq<string>, i: nat, before: map<string, string>): Parsed
    requires i <= |lines|
  {
    var n := HeaderLength(r, lines, i);
    Parsed(Params(r, lines, i, n, before), Body(r, lines, i + n))
  }

  lemma ParseFromStops(r: Reader, lines: seq<string>, i: nat, before: map<string, string>)
    requires i <= |lines| && (i < |lines| ==> r.blank(lines[i]) || r.param(lines[i]).None?)
    ensures ParseFrom(r, lines, i, before)
         == Parsed(before, if i < |lines| && r.blank(lines[i]) then lines[i + 1..] else lines[i..])
  {
  }

  lemma ParseFromNext(r: Reader, lines: seq<string>, i: nat, before: map<string, string>)
    requires i < |lines| && !r.blank(lines[i]) && r.param(lines[i]).Some?
    ensures var p := r.param(lines[i]).value;
            ParseFrom(r, lines, i, before) == ParseFrom(r, lines, i + 1, before[p.key := p.value])
  {
  }

  // ----- the parser as it runs: a queue of lines, one of which may be pushed back -----

  method ParseYamlLines(r: Reader, all: seq<string>) returns (params: map<string, string>, body: seq<string>)
    ensures Parsed(params, body) == ParseFrom(r, all, 0, map[])
  {
    params := map[];
    var lines := all;
    ghost var i := 0;
    while lines != []
      invariant i <= |all| && lines == all[i..]
      invariant ParseFrom(r, all, i, params) == ParseFrom(r, all, 0, map[])
      decreases |lines|
    {
      var line := lines[0];
      lines := lines[1..];
      assert line == all[i] && lines == all[i + 1..];
      if r.blank(line) {
        ParseFromStops(r, all, i, params);
        body := lines;
        return;
      }
      var param := r.param(line);
      if param.None? {
        ParseFromStops(r, all, i, params);
        body := [line] + lines;
        return;
      }
      ParseFromNext(r, all, i, params);
      params := params[param.value.key := param.value.value];
      i := i + 1;
    }
    ParseFromStops(r, all, i, params);
    body := lines;
  }

  /** `content.lines()`: parts end at line feeds, and lose a carriage return before one. */
  function ContentLines(content: string): seq<string> {
    var parts := Split('\n', content);
    var n := |parts| - 1;
    LinesUpTo(parts, n) + if parts[n] == "" then [] else [parts[n]]
  }

  /** The first `n` parts, each ended by a line feed. */
  function LinesUpTo(parts: seq<string>, n: nat): (r: seq<string>)
    requires n <= |parts|
    ensures |r| == n
  {
    seq(n, k requires 0 <= k < n => DropReturn(parts[k]))
  }

  function DropReturn(line: string): string {
    if line != "" && line[|line| - 1] == '\r' then line[..|line| - 1] else line
  }

  /** The parameters a text begins with, and the rest of it. */
  function ParseText(u: Classes, content: string): (map<string, string>, string) {
    var parsed := ParseFrom(ReaderOf(u), ContentLines(content), 0, map[]);
    (parsed.params, Join('\n', parsed.body))
  }

  /** `parse_yaml_parameters`. */
  method ParseYamlParameters(u: Classes, content: string) returns (params: map<string, string>, remaining: string)
    ensures (params, remaining) == ParseText(u, content)
  {
    var body;
    params, body := ParseYamlLines(ReaderOf(u), ContentLines(content));
    remaining := Join('\n', body);
  }

  // ----- writing parameters -----

  predicate Writable(u: Classes, p: Param) { KeyChars(u, p.key) && Trim(u.whitespace, p.value) == p.value }

  function WriteParam(p: Param): string { p.key + ": " + p.value }

  function WriteParams(ps: seq<Param>): (r: seq<string>)
    ensures |r| == |ps| && forall k :: 0 <= k < |r| ==> r[k] == WriteParam(ps[k])
  {
    seq(|ps|, k requires 0 <= k < |ps| => WriteParam(ps[k]))
  }

  /** The table of parameters, later ones winning. */
  function Table(ps: seq<Param>, i: nat, before: map<string, string>): map<string, string>
    requires i <= |ps|
    decreases |ps| - i
  {
    if i == |ps| then before else Table(ps, i + 1, before[ps[i].key := ps[i].value])
  }

  lemma ColonAt(s: string, k: nat)
    requires k < |s| && s[k] == ':' && forall j :: 0 <= j < k ==> s[j] != ':'
    ensures Colon(s) == k
  {
  }

  /** The key, the colon and the rest of a written parameter, after trimming. */
  lemma TrimWritten(u: Classes, p: Param)
    requires Standard(u) && Writable(u, p)
    ensures Trim(u.whitespace, WriteParam(p)) == p.key + ":" + if p.value == "" then "" else " " + p.value
  {
    var s := p.key + ":";
    assert !u.whitespace(s[0]) && !u.whitespace(s[|s| - 1]);
    TrimmedEnds(u.whitespace, p.value);
    if p.value == "" {
      assert WriteParam(p) == s + " ";
      TrimBlank(u.whitespace, s);
    } else {
      assert WriteParam(p) == s + " " + p.value == s + (" " + p.value);
      TrimClean(u.whitespace, WriteParam(p));
    }
  }

  lemma ParamOfWritten(u: Classes, p: Param)
    requires Standard(u) && Writable(u, p)
    ensures ParamOf(u, WriteParam(p)) == Some(p) && !BlankLine(u, WriteParam(p))
  {
    var rest := if p.value == "" then "" else " " + p.value;
    TrimmedEnds(u.whitespace, p.value);
    if p.value != "" {
      TrimBlank(u.whitespace, p.value);
    }
    TrimWritten(u, p);
    ShapeOfKey(u, p.key, rest);
  }

  lemma ShapeOfKey(u: Classes, key: string, rest: string)
    requires Standard(u) && KeyChars(u, key)
    ensures Shape(u, key + ":" + rest) == Some(Param(key, Trim(u.whitespace, rest)))
  {
    KeyBeforeColon(u, key, rest);
    TrimClean(u.whitespace, key);
  }

  lemma KeyBeforeColon(u: Classes, key: string, rest: string)
    requires Standard(u) && KeyChars(u, key)
    ensures var t := key + ":" + rest;
            Colon(t) == |key| && t[..|key|] == key && t[|key| + 1..] == rest
  {
    var t := key + ":" + rest;
    forall j | 0 <= j < |key| ensures t[j] != ':' {
      assert t[j] == key[j];
    }
    ColonAt(t, |key|);
  }

  // ----- any lines at all -----

  /** Without white space around it the line is a key, a colon and the value, which may
      again have white space around it. */
  predicate Reads(u: Classes, line: string, p: Param) {
    var t := Trim(u.whitespace, line);
    KeyChars(u, p.key) && p.key + ":" <= t && p.value == Trim(u.whitespace, t[|p.key| + 1..])
  }

  lemma CutAtColon(t: string, k: nat)
    requires k < |t| && t[k] == ':'
    ensures t[..k] + ":" <= t
  {
    assert t[..k] + ":" == t[..k + 1];
  }

  lemma KeyTrims(u: Classes, key: string)
    requires Standard(u) && KeyChars(u, key)
    ensures Trim(u.whitespace, key) == key
  {
    assert forall k :: 0 <= k < |key| ==> !u.whitespace(key[k]);
    TrimClean(u.whitespace, key);
  }

  lemma ShapeKey(u: Classes, t: string, p: Param)
    requires Standard(u) && Shape(u, t) == Some(p)
    ensures var k := Colon(t);
            k < |t| && p.key == t[..k] && KeyChars(u, p.key) && p.value == Trim(u.whitespace, t[k + 1..])
  {
    KeyTrims(u, t[..Colon(t)]);
  }

  lemma ShapeReads(u: Classes, t: string, p: Param)
    requires Standard(u) && Shape(u, t) == Some(p)
    ensures KeyChars(u, p.key) && p.key + ":" <= t && p.value == Trim(u.whitespace, t[|p.key| + 1..])
  {
    ShapeKey(u, t, p);
    CutAtColon(t, Colon(t));
  }

  lemma ReadsShape(u: Classes, t: string, p: Param)
    requires Standard(u) && KeyChars(u, p.key) && p.key + ":" <= t && p.value == Trim(u.whitespace, t[|p.key| + 1..])
    ensures Shape(u, t) == Some(p) && t != ""
  {
    var rest := t[|p.key| + 1..];
    assert t == p.key + ":" + rest;
    ShapeOfKey(u, p.key, rest);
  }

  /** A line gives a parameter exactly when it has the shape of one. */
  lemma ParamIffReads(u: Classes, line: string, p: Param)
    requires Standard(u)
    ensures ParamOf(u, line) == Some(p) <==> Reads(u, line, p)
    ensures Reads(u, line, p) ==> !BlankLine(u, line)
  {
    var t := Trim(u.whitespace, line);
    if Reads(u, line, p) {
      ReadsShape(u, t, p);
    } else if Shape(u, t) == Some(p) {
      ShapeReads(u, t, p);
    }
  }

  lemma TableNext(p: Param, ps: seq<Param>, before: map<string, string>)
    ensures Table([p] + ps, 0, before) == Table(ps, 0, before[p.key := p.value])
  {
    TableShift(p, ps, 0, before[p.key := p.value]);
  }

  lemma {:induction false} TableShift(p: Param, ps: seq<Param>, i: nat, before: map<string, string>)
    requires i <= |ps|
    ensures Table([p] + ps, i + 1, before) == Table(ps, i, before)
    decreases |ps| - i
  {
    if i < |ps| {
      TableShift(p, ps, i + 1, before[ps[i].key := ps[i].value]);
    }
  }

  /** The lines from `i` on give the parameters `ps`. */
  predicate Gives(r: Reader, lines: seq<string>, i: nat, ps: seq<Param>) {
    i + |ps| <= |lines| && forall k :: 0 <= k < |ps| ==> r.param(lines[i + k]) == Some(ps[k])
  }

  /** The parameters at the front of the lines from `i` on. */
  lemma {:induction false} HeaderOf(r: Reader, lines: seq<string>, i: nat, before: map<string, string>)
    returns (ps: seq<Param>)
    requires i <= |lines|
    ensures Gives(r, lines, i, ps)
    ensures var end := i + |ps|;
            && (end < |lines| ==> r.blank(lines[end]) || r.param(lines[end]).None?)
            && ParseFrom(r, lines, i, before)
               == Parsed(Table(ps, 0, before),
                         if end < |lines| && r.blank(lines[end]) then lines[end + 1..] else lines[end..])
    decreases |lines| - i
  {
    if i < |lines| && !r.blank(lines[i]) && r.param(lines[i]).Some? {
      var p := r.param(lines[i]).value;
      ParseFromNext(r, lines, i, before);
      var rest := HeaderOf(r, lines, i + 1, before[p.key := p.value]);
      ps := [p] + rest;
      TableNext(p, rest, before);
    } else {
      ps := [];
      ParseFromStops(r, lines, i, before);
    }
  }

  lemma ReaderReads(u: Classes, line: string, p: Param)
    requires Standard(u)
    ensures ReaderOf(u).param(line) == Some(p) <==> Reads(u, line, p)
    ensures Reads(u, line, p) ==> !ReaderOf(u).blank(line)
  {
    ParamIffReads(u, line, p);
  }

  ghost predicate NoParam(u: Classes, line: string) { forall p: Param :: !Reads(u, line, p) }

  lemma ReaderStops(u: Classes, line: string)
    requires Standard(u) && (ReaderOf(u).blank(line) || ReaderOf(u).param(line).None?)
    ensures NoParam(u, line)
  {
    forall p: Param ensures !Reads(u, line, p) {
      ReaderReads(u, line, p);
    }
  }

  predicate AllRead(u: Classes, lines: seq<string>, ps: seq<Param>) {
    |ps| <= |lines| && forall k :: 0 <= k < |ps| ==> Reads(u, lines[k], ps[k])
  }

  /** The lines after the first `n`, without the next if it is blank. */
  function TextAfter(u: Classes, lines: seq<string>, n: nat): seq<string>
    requires n <= |lines|
  {
    if n < |lines| && BlankLine(u, lines[n]) then lines[n + 1..] else lines[n..]
  }

  lemma GivesReads(u: Classes, lines: seq<string>, ps: seq<Param>)
    requires Standard(u) && Gives(ReaderOf(u), lines, 0, ps)
    ensures AllRead(u, lines, ps)
  {
    forall k | 0 <= k < |ps| ensures Reads(u, lines[k], ps[k]) {
      assert ReaderOf(u).param(lines[0 + k]) == Some(ps[k]);
      ReaderReads(u, lines[k], ps[k]);
    }
  }

  /** Any lines at all: those at the front that read as parameters, up to the first that
      does not, are the parameters; the others are the text, without that first line if it
      is blank. */
  lemma EveryTextHasHeader(u: Classes, lines: seq<string>) returns (ps: seq<Param>)
    requires Standard(u)
    ensures AllRead(u, lines, ps) && (|ps| < |lines| ==> NoParam(u, lines[|ps|]))
    ensures ParseFrom(ReaderOf(u), lines, 0, map[]) == Parsed(Table(ps, 0, map[]), TextAfter(u, lines, |ps|))
  {
    ps := HeaderOf(ReaderOf(u), lines, 0, map[]);
    GivesReads(u, lines, ps);
    if |ps| < |lines| {
      ReaderStops(u, lines[|ps|]);
    }
  }

  // ----- parameters as they are written -----

  lemma {:induction false} ParseWrittenFrom(u: Classes, r: Reader, ps: seq<Param>, lines: seq<string>, i: nat,
                                            before: map<string, string>)
    requires Standard(u) && r == ReaderOf(u) && i <= |ps| <= |lines|
    requires |ps| < |lines| ==> r.blank(lines[|ps|]) || r.param(lines[|ps|]).None?
    requires forall k :: 0 <= k < |ps| ==> Writable(u, ps[k]) && lines[k] == WriteParam(ps[k])
    ensures ParseFrom(r, lines, i, before) == Parsed(Table(ps, i, before), Body(r, lines, |ps|))
    decreases |ps| - i
  {
    if i < |ps| {
      ParamOfWritten(u, ps[i]);
      assert r.param(lines[i]) == Some(ps[i]) && !r.blank(lines[i]);
      ParseFromNext(r, lines, i, before);
      ParseWrittenFrom(u, r, ps, lines, i + 1, before[ps[i].key := ps[i].value]);
    } else {
      ParseFromStops(r, lines, i, before);
    }
  }

  /** Parameters written one to a line, then a blank line, then any text at all: the
      parameters and the text are read back. */
  lemma ParseWritten(u: Classes, ps: seq<Param>, body: seq<string>)
    requires Standard(u) && forall k :: 0 <= k < |ps| ==> Writable(u, ps[k])
    ensures ParseFrom(ReaderOf(u), WriteParams(ps) + [""] + body, 0, map[]) == Parsed(Table(ps, 0, map[]), body)
  {
    var lines := WriteParams(ps) + [""] + body;
    WrittenLines(ps, body);
    TrimClean(u.whitespace, "");
    assert ReaderOf(u).blank(lines[|ps|]);
    ParseWrittenFrom(u, ReaderOf(u), ps, lines, 0, map[]);
  }

  /** The blank line is not needed before a text whose first line is neither blank nor
      reads as a parameter. */
  lemma ParseRunOn(u: Classes, ps: seq<Param>, body: seq<string>)
    requires Standard(u) && forall k :: 0 <= k < |ps| ==> Writable(u, ps[k])
    requires body != [] ==> NoParam(u, body[0]) && !BlankLine(u, body[0])
    ensures ParseFrom(ReaderOf(u), WriteParams(ps) + body, 0, map[]) == Parsed(Table(ps, 0, map[]), body)
  {
    var r, lines := ReaderOf(u), WriteParams(ps) + body;
    assert lines[|ps|..] == body;
    if body != [] {
      assert lines[|ps|] == body[0];
      if r.param(body[0]).Some? {
        ReaderReads(u, body[0], r.param(body[0]).value);
      }
    }
    ParseWrittenFrom(u, r, ps, lines, 0, map[]);
  }

  lemma WrittenLines(ps: seq<Param>, body: seq<string>)
    ensures var lines := WriteParams(ps) + [""] + body;
            && |lines| > |ps| && lines[|ps|] == "" && lines[|ps| + 1..] == body
            && forall k :: 0 <= k < |ps| ==> lines[k] == WriteParam(ps[k])
  {
  }
}
