/** Rewriting the event stream of a walkthrough: special code blocks become inline HTML
    (outdated/mcp-server/src/walkthrough_parser.rs). */
module WalkthroughEvents {
  import opened Collections
  import opened Splitting
  import opened Trimming
  import opened WalkthroughYaml

  datatype BlockKind = Fenced(language: string) | Indented

  /** Markdown events, as far as they are told apart. */
  datatype Event =
    | StartCodeBlock(kind: BlockKind)
    | EndCodeBlock
    | Text(text: string)
    | InlineHtml(html: string)
    | Other(tag: int)

  datatype Element =
    | Mermaid(content: string)
    | Comment(location: string, icon: Option<string>, content: string)
    | GitDiff(range: string, excludeUnstaged: bool, excludeStaged: bool)
    | Action(button: string, message: string)

  predicate SpecialName(name: string) {
    name == "mermaid" || name == "comment" || name == "gitdiff" || name == "action"
  }

  /** `is_special_code_block`. */
  predicate Special(u: Classes, kind: BlockKind) { kind.Fenced? && SpecialName(Trim(u.whitespace, kind.language)) }

  function Lookup(m: map<string, string>, key: string): Option<string> {
    if key in m then Some(m[key]) else None
  }

  /** The element a special block stands for. */
  function ElementOf(u: Classes, name: string, content: string): Element
    requires SpecialName(name)
  {
    var (params, rest) := ParseText(u, content);
    if name == "mermaid" then Mermaid(content)
    else if name == "comment" then Comment(Lookup(params, "location").GetOr(""), Lookup(params, "icon"), rest)
    else if name == "gitdiff" then
      GitDiff(Lookup(params, "range").GetOr(""),
              "exclude-unstaged" in params || "exclude_unstaged" in params,
              "exclude-staged" in params || "exclude_staged" in params)
    else Action(Lookup(params, "button").GetOr("Action"), rest)
  }

  /** Which blocks are special, and the HTML a special block with its content becomes,
      or nothing when it cannot be resolved. */
  datatype Renderer = Renderer(special: BlockKind -> bool, html: (BlockKind, string) -> Option<string>)

  /** `html` is what is made of an element, unless resolving it is an error. */
  function RendererOf(u: Classes, html: Element -> Option<string>): Renderer {
    Renderer(kind => Special(u, kind),
             (kind, content) =>
               if Special(u, kind) then html(ElementOf(u, Trim(u.whitespace, kind.language), content)) else None)
  }

  // ----- what the rewriting should be: a document as a list of segments -----

  /** An event that stays, or a special block: its start, its texts, and its end if it
      has one.  A block without one runs into whatever comes next. */
  datatype Segment = Kept(event: Event) | Block(kind: BlockKind, texts: seq<string>, closed: bool)

  function TextEvents(texts: seq<string>): (es: seq<Event>)
    ensures |es| == |texts|
  {
    if texts == [] then [] else [Text(texts[0])] + TextEvents(texts[1..])
  }

  function Concat(texts: seq<string>): string {
    if texts == [] then "" else texts[0] + Concat(texts[1..])
  }

  function SegmentEvents(s: Segment): seq<Event> {
    match s
    case Kept(e) => [e]
    case Block(kind, texts, closed) =>
      [StartCodeBlock(kind)] + TextEvents(texts) + if closed then [EndCodeBlock] else []
  }

  /** The events of the segments from `k` on. */
  function Flatten(ss: seq<Segment>, k: nat): seq<Event>
    requires k <= |ss|
    decreases |ss| - k
  {
    if k == |ss| then [] else SegmentEvents(ss[k]) + Flatten(ss, k + 1)
  }

  /** What starts with `e` cannot be taken for more of an unclosed block. */
  predicate Breaks(e: Event) { !e.Text? && !e.EndCodeBlock? }

  predicate SegmentOk(r: Renderer, ss: seq<Segment>, k: nat)
    requires k < |ss|
  {
    match ss[k]
    case Kept(e) => e.StartCodeBlock? ==> !r.special(e.kind)
    case Block(kind, texts, closed) =>
      r.special(kind) && (!closed && k + 1 < |ss| ==> Breaks(SegmentEvents(ss[k + 1])[0]))
  }

  predicate Segmented(r: Renderer, ss: seq<Segment>) { forall k :: 0 <= k < |ss| ==> SegmentOk(r, ss, k) }

  /** The event out for a segment: a kept event as it is, a block as HTML, or nothing
      for a block that cannot be resolved. */
  function Output(r: Renderer, s: Segment): Option<Event> {
    match s
    case Kept(e) => Some(e)
    case Block(kind, texts, _) => Html(r.html(kind, Concat(texts)))
  }

  function Html(html: Option<string>): Option<Event> {
    if html.Some? then Some(InlineHtml(html.value)) else None
  }

  /** An event in front of more; an error spoils all. */
  function Push(e: Option<Event>, more: Option<seq<Event>>): Option<seq<Event>> {
    if e.Some? && more.Some? then Some([e.value] + more.value) else None
  }

  function Outputs(r: Renderer, ss: seq<Segment>, k: nat): Option<seq<Event>>
    requires k <= |ss|
    decreases |ss| - k
  {
    if k == |ss| then Some([]) else Push(Output(r, ss[k]), Outputs(r, ss, k + 1))
  }

  /** There is an outcome exactly when every block resolves: one event for each segment,
      in order. */
  lemma {:induction false} OutputsEach(r: Renderer, ss: seq<Segment>, k: nat)
    requires k <= |ss|
    ensures Outputs(r, ss, k).Some? <==> forall j :: k <= j < |ss| ==> Output(r, ss[j]).Some?
    ensures var all := Outputs(r, ss, k);
            all.Some? ==>
              |all.value| == |ss| - k && forall j :: k <= j < |ss| ==> Output(r, ss[j]) == Some(all.value[j - k])
    decreases |ss| - k
  {
    if k < |ss| {
      OutputsEach(r, ss, k + 1);
    }
  }

  // ----- the rewriting, as a function -----

  /** The texts of a block put together; `es` begins after its start. */
  function BlockText(es: seq<Event>): string {
    if es != [] && es[0].Text? then es[0].text + BlockText(es[1..]) else ""
  }

  /** What is left after a block; `es` begins after its start. */
  function AfterBlock(es: seq<Event>): (rest: seq<Event>)
    ensures |rest| <= |es|
  {
    if es == [] then []
    else if es[0].Text? then AfterBlock(es[1..])
    else if es[0].EndCodeBlock? then es[1..]
    else es
  }

  function Rewrite(r: Renderer, es: seq<Event>): Option<seq<Event>>
    decreases |es|
  {
    if es == [] then Some([])
    else if es[0].StartCodeBlock? && r.special(es[0].kind) then
      Push(Html(r.html(es[0].kind, BlockText(es[1..]))), Rewrite(r, AfterBlock(es[1..])))
    else Push(Some(es[0]), Rewrite(r, es[1..]))
  }

  // ----- the rewriting as it runs: a queue, an output, and pushing back -----

  class Stream {
    const classes: Classes
    const html: Element -> Option<string>
    var input: seq<Event>
    var output: seq<Event>

    constructor (classes: Classes, html: Element -> Option<string>, events: seq<Event>)
      ensures this.classes == classes && this.html == html && input == events && output == []
    {
      this.classes, this.html := classes, html;
      input, output := events, [];
    }

    /** `process_code_block`, after the start of a special block has been taken. */
    method ProcessCodeBlock(kind: BlockKind) returns (ok: bool)
      requires Special(classes, kind)
      modifies this
      ensures input == AfterBlock(old(input))
      ensures match RendererOf(classes, html).html(kind, BlockText(old(input)))
              case Some(resolved) => ok && output == old(output) + [InlineHtml(resolved)]
              case None => !ok && output == old(output)
    {
      var name := Trim(classes.whitespace, kind.language);
      var content := CollectContent();
      var element := MakeElement(name, content);
      var resolved := html(element);
      if resolved.None? {
        return false;
      }
      output := output + [InlineHtml(resolved.value)];
      return true;
    }

    method MakeElement(name: string, content: string) returns (element: Element)
      requires SpecialName(name)
      ensures element == ElementOf(classes, name, content)
    {
      if name == "mermaid" {
        return Mermaid(content);
      }
      var params, remaining := ParseYamlParameters(classes, content);
      match name {
        case "comment" =>
          element := Comment(Lookup(params, "location").GetOr(""), Lookup(params, "icon"), remaining);
        case "gitdiff" =>
          var excludeUnstaged := "exclude-unstaged" in params || "exclude_unstaged" in params;
          var excludeStaged := "exclude-staged" in params || "exclude_staged" in params;
          element := GitDiff(Lookup(params, "range").GetOr(""), excludeUnstaged, excludeStaged);
        case _ =>
          element := Action(Lookup(params, "button").GetOr("Action"), remaining);
      }
    }

    /** The inner loop: texts up to the end of the block; any other event is put back. */
    method CollectContent() returns (content: string)
      modifies this`input
      ensures input == AfterBlock(old(input)) && content == BlockText(old(input))
    {
      content := "";
      ghost var all := BlockText(input);
      while input != []
        invariant AfterBlock(input) == AfterBlock(old(input))
        invariant content + BlockText(input) == all
        decreases |input|
      {
        var event := input[0];
        input := input[1..];
        match event {
          case Text(text) =>
            assert content + (text + BlockText(input)) == content + text + BlockText(input);
            content := content + text;
          case EndCodeBlock =>
            return;
          case _ =>
            input := [event] + input;
            return;
        }
      }
    }

    /** `process_events_sequentially`; the first block that cannot be resolved ends it
        with an error. */
    method ProcessEvents() returns (ok: bool)
      modifies this
      ensures match Rewrite(RendererOf(classes, html), old(input))
              case Some(es) => ok && input == [] && output == old(output) + es
              case None => !ok
    {
      ghost var r := RendererOf(classes, html);
      ghost var all := Behind(output, Rewrite(r, input));
      while input != []
        invariant Behind(output, Rewrite(r, input)) == all
        decreases |input|
      {
        RewriteStep(r, input, output);
        var event := input[0];
        input := input[1..];
        if event.StartCodeBlock? && Special(classes, event.kind) {
          var resolved := ProcessCodeBlock(event.kind);
          if !resolved {
            return false;
          }
        } else {
          output := output + [event];
        }
      }
      assert output + [] == output;
      return true;
    }
  }

  /** What was put out, and what is still to come. */
  function Behind(done: seq<Event>, more: Option<seq<Event>>): Option<seq<Event>> {
    if more.Some? then Some(done + more.value) else None
  }

  lemma BehindPush(done: seq<Event>, e: Event, more: Option<seq<Event>>)
    ensures Behind(done, Push(Some(e), more)) == Behind(done + [e], more)
  {
    if more.Some? {
      assert done + ([e] + more.value) == done + [e] + more.value;
    }
  }

  lemma RewriteStep(r: Renderer, es: seq<Event>, done: seq<Event>)
    requires es != []
    ensures Behind(done, Rewrite(r, es))
         == if es[0].StartCodeBlock? && r.special(es[0].kind) then
              match r.html(es[0].kind, BlockText(es[1..]))
              case Some(html) => Behind(done + [InlineHtml(html)], Rewrite(r, AfterBlock(es[1..])))
              case None => None
            else Behind(done + [es[0]], Rewrite(r, es[1..]))
  {
    if es[0].StartCodeBlock? && r.special(es[0].kind) {
      var html := r.html(es[0].kind, BlockText(es[1..]));
      if html.Some? {
        BehindPush(done, InlineHtml(html.value), Rewrite(r, AfterBlock(es[1..])));
      }
    } else {
      BehindPush(done, es[0], Rewrite(r, es[1..]));
    }
  }

  // ----- the two agree -----

  lemma {:induction false} BlockBody(texts: seq<string>, closed: bool, rest: seq<Event>)
    requires !closed && rest != [] ==> Breaks(rest[0])
    ensures var body := TextEvents(texts) + (if closed then [EndCodeBlock] else []) + rest;
            BlockText(body) == Concat(texts) && AfterBlock(body) == rest
  {
    var end := if closed then [EndCodeBlock] else [];
    var body := TextEvents(texts) + end + rest;
    if texts == [] {
      assert body == end + rest;
      if closed {
        assert body[1..] == rest;
      }
    } else {
      BlockBody(texts[1..], closed, rest);
      assert body[0] == Text(texts[0]) && body[1..] == TextEvents(texts[1..]) + end + rest;
    }
  }

  lemma FlattenFirst(r: Renderer, ss: seq<Segment>, k: nat)
    requires Segmented(r, ss) && k < |ss| && ss[k].Block? && !ss[k].closed && Flatten(ss, k + 1) != []
    ensures Breaks(Flatten(ss, k + 1)[0])
  {
    assert SegmentOk(r, ss, k);
    if k + 1 < |ss| {
      assert Flatten(ss, k + 1)[0] == SegmentEvents(ss[k + 1])[0];
    }
  }

  lemma HeadAndBody<T>(x: T, a: seq<T>, b: seq<T>, rest: seq<T>)
    ensures ([x] + a + b + rest)[0] == x && ([x] + a + b + rest)[1..] == a + b + rest
  {
  }

  lemma RewriteStart(r: Renderer, es: seq<Event>, kind: BlockKind, body: seq<Event>)
    requires es != [] && es[0] == StartCodeBlock(kind) && r.special(kind) && es[1..] == body
    ensures Rewrite(r, es) == Push(Html(r.html(kind, BlockText(body))), Rewrite(r, AfterBlock(body)))
  {
  }

  lemma RewriteBlock(r: Renderer, kind: BlockKind, texts: seq<string>, closed: bool, rest: seq<Event>)
    requires r.special(kind) && (!closed && rest != [] ==> Breaks(rest[0]))
    ensures Rewrite(r, SegmentEvents(Block(kind, texts, closed)) + rest)
         == Push(Html(r.html(kind, Concat(texts))), Rewrite(r, rest))
  {
    var ts, end := TextEvents(texts), if closed then [EndCodeBlock] else [];
    HeadAndBody(StartCodeBlock(kind), ts, end, rest);
    RewriteStart(r, SegmentEvents(Block(kind, texts, closed)) + rest, kind, ts + end + rest);
    BlockBody(texts, closed, rest);
  }

  lemma RewriteKept(r: Renderer, e: Event, rest: seq<Event>)
    requires e.StartCodeBlock? ==> !r.special(e.kind)
    ensures Rewrite(r, [e] + rest) == Push(Some(e), Rewrite(r, rest))
  {
    assert ([e] + rest)[1..] == rest;
  }

  lemma RewriteSegment(r: Renderer, ss: seq<Segment>, k: nat)
    requires Segmented(r, ss) && k < |ss|
    ensures Rewrite(r, Flatten(ss, k)) == Push(Output(r, ss[k]), Rewrite(r, Flatten(ss, k + 1)))
  {
    assert SegmentOk(r, ss, k);
    match ss[k]
    case Kept(e) => RewriteKept(r, e, Flatten(ss, k + 1));
    case Block(kind, texts, closed) =>
      if !closed && Flatten(ss, k + 1) != [] {
        FlattenFirst(r, ss, k);
      }
      RewriteBlock(r, kind, texts, closed, Flatten(ss, k + 1));
  }

  /** A document gives one event for each of its segments: every event outside special
      blocks once and in order, and one piece of HTML for every special block; or an
      error, when one of its blocks cannot be resolved. */
  lemma {:induction false} RewriteIsOutputs(r: Renderer, ss: seq<Segment>, k: nat)
    requires Segmented(r, ss) && k <= |ss|
    ensures Rewrite(r, Flatten(ss, k)) == Outputs(r, ss, k)
    decreases |ss| - k
  {
    if k == |ss| {
      RewriteNothing(r, ss);
    } else {
      RewriteIsOutputs(r, ss, k + 1);
      OutputsOnce(r, ss, k);
    }
  }

  lemma OutputsOnce(r: Renderer, ss: seq<Segment>, k: nat)
    requires Segmented(r, ss) && k < |ss| && Rewrite(r, Flatten(ss, k + 1)) == Outputs(r, ss, k + 1)
    ensures Rewrite(r, Flatten(ss, k)) == Outputs(r, ss, k)
  {
    var out, more := Output(r, ss[k]), Outputs(r, ss, k + 1);
    assert Outputs(r, ss, k) == Push(out, more) by {
      OutputsNext(r, ss, k);
    }
    RewriteSegment(r, ss, k);
  }

  lemma RewriteNothing(r: Renderer, ss: seq<Segment>)
    ensures Rewrite(r, Flatten(ss, |ss|)) == Some([]) == Outputs(r, ss, |ss|)
  {
  }

  lemma OutputsNext(r: Renderer, ss: seq<Segment>, k: nat)
    requires k < |ss|
    ensures Outputs(r, ss, k) == Push(Output(r, ss[k]), Outputs(r, ss, k + 1))
  {
  }

  /** The block at the front of `es`, which begins after its start. */
  function FrontTexts(es: seq<Event>): seq<string> {
    if es != [] && es[0].Text? then [es[0].text] + FrontTexts(es[1..]) else []
  }

  predicate FrontClosed(es: seq<Event>) {
    es != [] && if es[0].Text? then FrontClosed(es[1..]) else es[0].EndCodeBlock?
  }

  /** A text in front of a block's texts, end and what follows. */
  lemma FrontText(e: Event, texts: seq<string>, end: seq<Event>, rest: seq<Event>)
    requires e.Text?
    ensures TextEvents([e.text] + texts) + end + rest == [e] + (TextEvents(texts) + end + rest)
  {
    assert ([e.text] + texts)[1..] == texts;
  }

  lemma {:induction false} FrontBlock(es: seq<Event>)
    ensures es == TextEvents(FrontTexts(es)) + (if FrontClosed(es) then [EndCodeBlock] else []) + AfterBlock(es)
    ensures !FrontClosed(es) && AfterBlock(es) != [] ==> Breaks(AfterBlock(es)[0])
  {
    if es != [] {
      assert es == [es[0]] + es[1..];
      if es[0].Text? {
        FrontBlock(es[1..]);
        FrontText(es[0], FrontTexts(es[1..]), if FrontClosed(es[1..]) then [EndCodeBlock] else [], AfterBlock(es[1..]));
      }
    }
  }

  lemma FlattenNext(ss: seq<Segment>, k: nat)
    requires k < |ss|
    ensures Flatten(ss, k) == SegmentEvents(ss[k]) + Flatten(ss, k + 1)
  {
  }

  lemma FlattenSame(a: seq<Segment>, i: nat, b: seq<Segment>, j: nat)
    requires i < |a| && j < |b| && a[i] == b[j] && Flatten(a, i + 1) == Flatten(b, j + 1)
    ensures Flatten(a, i) == Flatten(b, j)
  {
    FlattenNext(a, i);
    FlattenNext(b, j);
  }

  lemma TailAt(all: seq<Segment>, ss: seq<Segment>, i: nat)
    requires 0 < i < |all| && all[1..] == ss
    ensures i - 1 < |ss| && all[i] == ss[i - 1]
  {
  }

  lemma {:induction false} FlattenTail(all: seq<Segment>, ss: seq<Segment>, i: nat)
    requires 0 < i <= |all| == |ss| + 1 && all[1..] == ss
    ensures Flatten(all, i) == Flatten(ss, i - 1)
    decreases |all| - i
  {
    if i < |all| {
      FlattenTail(all, ss, i + 1);
      TailAt(all, ss, i);
      FlattenSame(all, i, ss, i - 1);
    }
  }

  lemma FlattenCons(s: Segment, ss: seq<Segment>)
    ensures Flatten([s] + ss, 0) == SegmentEvents(s) + Flatten(ss, 0)
  {
    FlattenTail([s] + ss, ss, 1);
    FlattenNext([s] + ss, 0);
  }

  lemma SegmentedCons(r: Renderer, s: Segment, ss: seq<Segment>)
    requires Segmented(r, ss) && SegmentOk(r, [s] + ss, 0)
    ensures Segmented(r, [s] + ss)
  {
    forall k | 0 <= k < |[s] + ss| ensures SegmentOk(r, [s] + ss, k) {
      if k > 0 {
        assert SegmentOk(r, ss, k - 1);
      }
    }
  }

  lemma HeadRegrouped<T>(x: T, a: seq<T>, b: seq<T>, c: seq<T>)
    ensures [x] + (a + b + c) == [x] + a + b + c
  {
  }

  function FrontOf(kind: BlockKind, body: seq<Event>): Segment { Block(kind, FrontTexts(body), FrontClosed(body)) }

  lemma FrontEvents(kind: BlockKind, body: seq<Event>)
    ensures [StartCodeBlock(kind)] + body == SegmentEvents(FrontOf(kind, body)) + AfterBlock(body)
  {
    FrontBlock(body);
    HeadRegrouped(StartCodeBlock(kind), TextEvents(FrontTexts(body)),
                  if FrontClosed(body) then [EndCodeBlock] else [], AfterBlock(body));
  }

  lemma FrontOk(r: Renderer, kind: BlockKind, body: seq<Event>, tail: seq<Segment>)
    requires r.special(kind) && Segmented(r, tail) && Flatten(tail, 0) == AfterBlock(body)
    ensures Segmented(r, [FrontOf(kind, body)] + tail)
  {
    FrontBlock(body);
    if tail != [] {
      assert SegmentEvents(tail[0])[0] == Flatten(tail, 0)[0];
    }
    SegmentedCons(r, FrontOf(kind, body), tail);
  }

  lemma PutInFront(r: Renderer, kind: BlockKind, body: seq<Event>, tail: seq<Segment>) returns (ss: seq<Segment>)
    requires r.special(kind) && Segmented(r, tail) && Flatten(tail, 0) == AfterBlock(body)
    ensures Segmented(r, ss) && Flatten(ss, 0) == [StartCodeBlock(kind)] + body
  {
    ss := [FrontOf(kind, body)] + tail;
    FrontOk(r, kind, body, tail);
    FrontEvents(kind, body);
    FlattenCons(FrontOf(kind, body), tail);
  }

  /** Every stream of events is the stream of such a document. */
  lemma {:induction false} EveryStreamIsSegmented(r: Renderer, es: seq<Event>) returns (ss: seq<Segment>)
    ensures Segmented(r, ss) && Flatten(ss, 0) == es
    decreases |es|
  {
    if es == [] {
      ss := [];
    } else if es[0].StartCodeBlock? && r.special(es[0].kind) {
      var tail := EveryStreamIsSegmented(r, AfterBlock(es[1..]));
      ss := PutInFront(r, es[0].kind, es[1..], tail);
      assert es == [es[0]] + es[1..];
    } else {
      var tail := EveryStreamIsSegmented(r, es[1..]);
      ss := [Kept(es[0])] + tail;
      SegmentedCons(r, Kept(es[0]), tail);
      FlattenCons(Kept(es[0]), tail);
    }
  }

  function CountSpecial(r: Renderer, es: seq<Event>): nat {
    if es == [] then 0 else (if es[0].StartCodeBlock? && r.special(es[0].kind) then 1 else 0) + CountSpecial(r, es[1..])
  }

  /** After the rewriting no special block is left. */
  lemma {:induction false} NoSpecialBlockLeft(r: Renderer, es: seq<Event>)
    ensures Rewrite(r, es).Some? ==> CountSpecial(r, Rewrite(r, es).value) == 0
    decreases |es|
  {
    if es != [] && Rewrite(r, es).Some? {
      var rest := if es[0].StartCodeBlock? && r.special(es[0].kind) then AfterBlock(es[1..]) else es[1..];
      NoSpecialBlockLeft(r, rest);
      assert Rewrite(r, es).value[1..] == Rewrite(r, rest).value;
    }
  }
}
