/** Parameters and text of a special block, from the content as it is written
    (outdated/mcp-server/src/walkthrough_parser.rs, `parse_yaml_parameters`). */
module WalkthroughText {
  import opened Splitting
  import opened Trimming
  import opened WalkthroughYaml

  /** Parameters one to a line, and more. */
  function WriteHead(ps: seq<Param>, more: string): string {
    if ps == [] then more else WriteParam(ps[0]) + "\n" + WriteHead(ps[1..], more)
  }

  /** Parameters one to a line, a blank line, and any text. */
  function WriteText(ps: seq<Param>, body: string): string { WriteHead(ps, "\n" + body) }

  /** A carriage return before a line feed. */
  predicate ReturnAt(s: string, k: nat) { k + 1 < |s| && s[k] == '\r' && s[k + 1] == '\n' }

  /** Carriage returns before line feeds left out. */
  function LineFeeds(s: string): string {
    if s == "" then ""
    else (if ReturnAt(s, 0) then "" else [s[0]]) + LineFeeds(s[1..])
  }

  /** One line feed at the end left out. */
  function Chomp(s: string): string {
    if s != "" && s[|s| - 1] == '\n' then s[..|s| - 1] else s
  }

  /** The first line of a text, and the others. */
  lemma FirstLine(line: string, rest: string)
    requires OnePart('\n', line)
    ensures ContentLines(line + "\n" + rest) == [DropReturn(line)] + ContentLines(rest)
  {
    SplitFirst('\n', line, rest);
    assert line + "\n" + rest == line + ['\n'] + rest;
    var parts, more := Split('\n', line + "\n" + rest), Split('\n', rest);
    assert parts == [line] + more;
    var n := |more| - 1;
    assert LinesUpTo(parts, n + 1) == [DropReturn(line)] + LinesUpTo(more, n);
  }

  lemma LineFeedsNext(c: char, rest: string)
    ensures LineFeeds([c] + rest) == (if c == '\r' && rest != "" && rest[0] == '\n' then "" else [c]) + LineFeeds(rest)
  {
    assert ([c] + rest)[1..] == rest;
  }

  lemma DropReturnCons(c: char, line: string)
    ensures DropReturn([c] + line) == if line == "" && c == '\r' then "" else [c] + DropReturn(line)
  {
  }

  lemma AssocLine(c: string, line: string, rest: string)
    ensures c + line + "\n" + rest == c + (line + "\n" + rest)
    ensures (line + "\n" + rest)[0] == if line != "" then line[0] else '\n'
  {
  }

  lemma {:induction false} LineFeedsFirst(line: string, rest: string)
    requires OnePart('\n', line)
    ensures LineFeeds(line + "\n" + rest) == DropReturn(line) + "\n" + LineFeeds(rest)
    decreases |line|
  {
    if line == "" {
      assert "" + "\n" + rest == ['\n'] + rest;
      LineFeedsNext('\n', rest);
    } else {
      var c, more := line[0], line[1..];
      LineFeedsFirst(more, rest);
      LineFeedsNext(c, more + "\n" + rest);
      DropReturnCons(c, more);
      AssocLine([c], more, rest);
      AssocLine([c], DropReturn(more), LineFeeds(rest));
      assert line == [c] + more;
    }
  }

  lemma {:induction false} LineFeedsOne(line: string)
    requires OnePart('\n', line)
    ensures LineFeeds(line) == line
  {
    if line != "" {
      LineFeedsOne(line[1..]);
      assert line == [line[0]] + line[1..];
    }
  }

  /** Splitting a text into lines and joining them leaves out carriage returns before line
      feeds and one line feed at the end, and nothing else. */
  lemma {:induction false} JoinedLines(s: string)
    ensures Join('\n', ContentLines(s)) == Chomp(LineFeeds(s))
    decreases |s|
  {
    var parts := Split('\n', s);
    SplitParts('\n', s);
    JoinSplit('\n', s);
    var line := parts[0];
    assert OnePart('\n', line);
    if |parts| == 1 {
      LineFeedsOne(s);
      assert ContentLines(s) == if s == "" then [] else [s];
    } else {
      var rest := Join('\n', parts[1..]);
      assert s == line + "\n" + rest;
      JoinedLines(rest);
      JoinLine(line, rest);
    }
  }

  lemma JoinMore(first: string, more: seq<string>)
    ensures Join('\n', [first] + more) == if more == [] then first else first + "\n" + Join('\n', more)
  {
    assert ([first] + more)[1..] == more;
  }

  lemma ChompMore(first: string, rest: string)
    ensures Chomp(first + "\n" + rest) == if rest == "" then first else first + "\n" + Chomp(rest)
  {
  }

  lemma NoLines(s: string)
    ensures (ContentLines(s) == [] <==> s == "") && (LineFeeds(s) == "" <==> s == "")
  {
  }

  /** One more line in front. */
  lemma JoinLine(line: string, rest: string)
    requires OnePart('\n', line) && Join('\n', ContentLines(rest)) == Chomp(LineFeeds(rest))
    ensures Join('\n', ContentLines(line + "\n" + rest)) == Chomp(LineFeeds(line + "\n" + rest))
  {
    FirstLine(line, rest);
    LineFeedsFirst(line, rest);
    NoLines(rest);
    JoinMore(DropReturn(line), ContentLines(rest));
    ChompMore(DropReturn(line), LineFeeds(rest));
  }

  lemma ParamsFirst(p: Param, ps: seq<Param>, rest: seq<string>)
    ensures WriteParams([p] + ps) + rest == [WriteParam(p)] + (WriteParams(ps) + rest)
  {
    assert WriteParams([p] + ps) == [WriteParam(p)] + WriteParams(ps);
  }

  lemma {:induction false} WrittenContent(u: Classes, ps: seq<Param>, more: string)
    requires Standard(u) && forall k :: 0 <= k < |ps| ==> Writable(u, ps[k]) && OnePart('\n', ps[k].value)
    ensures ContentLines(WriteHead(ps, more)) == WriteParams(ps) + ContentLines(more)
    decreases |ps|
  {
    if ps == [] {
      assert WriteParams([]) == [];
    } else {
      WrittenLine(u, ps[0]);
      FirstLine(WriteParam(ps[0]), WriteHead(ps[1..], more));
      WrittenContent(u, ps[1..], more);
      ParamsFirst(ps[0], ps[1..], ContentLines(more));
      assert ps == [ps[0]] + ps[1..];
    }
  }

  /** A written parameter is one line, and does not end in a carriage return. */
  lemma WrittenLine(u: Classes, p: Param)
    requires Standard(u) && Writable(u, p) && OnePart('\n', p.value)
    ensures OnePart('\n', WriteParam(p)) && DropReturn(WriteParam(p)) == WriteParam(p)
  {
    TrimmedEnds(u.whitespace, p.value);
    var line := WriteParam(p);
    forall k | 0 <= k < |line| ensures line[k] != '\n' {
      assert k < |p.key| ==> line[k] == p.key[k];
      assert k >= |p.key| + 2 ==> line[k] == p.value[k - |p.key| - 2];
    }
    assert line[|line| - 1] == if p.value == "" then ' ' else p.value[|p.value| - 1];
  }

  /** Parameters written one to a line, then a blank line, then any text: the parameters
      are read back, and the text but for carriage returns before line feeds and one line
      feed at the end. */
  lemma ParseTextWritten(u: Classes, ps: seq<Param>, body: string)
    requires Standard(u) && forall k :: 0 <= k < |ps| ==> Writable(u, ps[k]) && OnePart('\n', ps[k].value)
    ensures ParseText(u, WriteText(ps, body)) == (Table(ps, 0, map[]), Chomp(LineFeeds(body)))
  {
    WrittenContent(u, ps, "\n" + body);
    FirstLine("", body);
    assert "" + "\n" + body == "\n" + body;
    assert WriteParams(ps) + ([""] + ContentLines(body)) == WriteParams(ps) + [""] + ContentLines(body);
    ParseWritten(u, ps, ContentLines(body));
    JoinedLines(body);
  }

  /** A text that begins with a line that is neither blank nor reads as a parameter. */
  ghost predicate PlainStart(u: Classes, body: string) {
    body != "" ==> ContentLines(body) != [] && NoParam(u, ContentLines(body)[0]) && !BlankLine(u, ContentLines(body)[0])
  }

  /** Before such a text the blank line is not needed. */
  lemma ParseTextRunOn(u: Classes, ps: seq<Param>, body: string)
    requires Standard(u) && forall k :: 0 <= k < |ps| ==> Writable(u, ps[k]) && OnePart('\n', ps[k].value)
    requires PlainStart(u, body)
    ensures ParseText(u, WriteHead(ps, body)) == (Table(ps, 0, map[]), Chomp(LineFeeds(body)))
  {
    WrittenContent(u, ps, body);
    NoLines(body);
    ParseRunOn(u, ps, ContentLines(body));
    JoinedLines(body);
  }

  ghost predicate HasReturn(s: string) { exists k: nat :: ReturnAt(s, k) }

  lemma {:induction false} LineFeedsShorter(s: string)
    ensures |LineFeeds(s)| <= |s| && (|LineFeeds(s)| == |s| ==> LineFeeds(s) == s)
    ensures |LineFeeds(s)| == |s| <==> !HasReturn(s)
  {
    if s != "" {
      LineFeedsShorter(s[1..]);
      assert s == [s[0]] + s[1..];
      HasReturnTail(s);
    }
  }

  lemma HasReturnTail(s: string)
    requires s != ""
    ensures HasReturn(s) <==> ReturnAt(s, 0) || HasReturn(s[1..])
  {
    if HasReturn(s) && !ReturnAt(s, 0) {
      var k: nat :| ReturnAt(s, k);
      assert ReturnAt(s[1..], k - 1);
    }
    if HasReturn(s[1..]) {
      var k: nat :| ReturnAt(s[1..], k);
      assert ReturnAt(s, k + 1);
    }
  }

  lemma ChompedIs(s: string)
    ensures Chomp(LineFeeds(s)) == s <==> !HasReturn(s) && (s == "" || s[|s| - 1] != '\n')
  {
    LineFeedsShorter(s);
    ChompOf(LineFeeds(s), s);
  }

  lemma ChompOf(r: string, s: string)
    requires |r| <= |s| && (|r| == |s| ==> r == s)
    ensures Chomp(r) == s <==> |r| == |s| && (s == "" || s[|s| - 1] != '\n')
  {
  }

  /** The text is read back as it was exactly when it has no carriage return before a line
      feed and does not end in a line feed. */
  lemma TextKeptIff(u: Classes, ps: seq<Param>, body: string)
    requires Standard(u) && forall k :: 0 <= k < |ps| ==> Writable(u, ps[k]) && OnePart('\n', ps[k].value)
    ensures ParseText(u, WriteText(ps, body)).1 == body <==>
            !HasReturn(body) && (body == "" || body[|body| - 1] != '\n')
  {
    ParseTextWritten(u, ps, body);
    ChompedIs(body);
  }
}
