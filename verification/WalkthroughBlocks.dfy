/** What each special block of a walkthrough stands for
    (outdated/mcp-server/src/walkthrough_parser.rs, `process_code_block`). */
module WalkthroughBlocks {
  import opened Collections
  import opened Splitting
  import opened Trimming
  import opened WalkthroughYaml
  import opened WalkthroughText
  import opened WalkthroughEvents

  /** The value given last under a key. */
  function ValueOf(ps: seq<Param>, key: string): Option<string> {
    if ps == [] then None
    else
      var n := |ps| - 1;
      if ps[n].key == key then Some(ps[n].value) else ValueOf(ps[..n], key)
  }

  predicate Has(ps: seq<Param>, key: string) { exists k :: 0 <= k < |ps| && ps[k].key == key }

  lemma {:induction false} TableSnoc(ps: seq<Param>, i: nat, p: Param, before: map<string, string>)
    requires i <= |ps|
    ensures Table(ps + [p], i, before) == Table(ps, i, before)[p.key := p.value]
    decreases |ps| - i
  {
    if i < |ps| {
      TableSnoc(ps, i + 1, p, before[ps[i].key := ps[i].value]);
    } else {
      assert Table(ps + [p], i + 1, before[p.key := p.value]) == before[p.key := p.value];
    }
  }

  lemma {:induction false} TableHolds(ps: seq<Param>, key: string)
    ensures Lookup(Table(ps, 0, map[]), key) == ValueOf(ps, key)
    ensures key in Table(ps, 0, map[]) <==> Has(ps, key)
  {
    if ps != [] {
      var n := |ps| - 1;
      TableHolds(ps[..n], key);
      assert ps == ps[..n] + [ps[n]];
      TableSnoc(ps[..n], 0, ps[n], map[]);
    }
  }

  /** Content with these parameters in front of this text, with a blank line between, or
      without one where the text cannot be taken for a parameter. */
  ghost predicate Content(u: Classes, content: string, ps: seq<Param>, body: string) {
    && (forall k :: 0 <= k < |ps| ==> Writable(u, ps[k]) && OnePart('\n', ps[k].value))
    && (content == WriteText(ps, body) || (content == WriteHead(ps, body) && PlainStart(u, body)))
  }

  lemma ContentParsed(u: Classes, content: string, ps: seq<Param>, body: string)
    requires Standard(u) && Content(u, content, ps, body)
    ensures ParseText(u, content) == (Table(ps, 0, map[]), Chomp(LineFeeds(body)))
  {
    if content == WriteText(ps, body) {
      ParseTextWritten(u, ps, body);
    } else {
      ParseTextRunOn(u, ps, body);
    }
  }

  /** What comes of a fenced block, with what follows it: the HTML of an element, or an error. */
  ghost predicate Becomes(u: Classes, html: Element -> Option<string>, name: string, content: string,
                          element: Element)
  {
    forall language, texts, closed, rest ::
      Stands(u, name, content, language, texts, closed, rest) ==>
        Rewrite(RendererOf(u, html), SegmentEvents(Block(Fenced(language), texts, closed)) + rest)
        == Push(Html(html(element)), Rewrite(RendererOf(u, html), rest))
  }

  /** A block with a language that is `name` but for white space, texts that make up the
      content, and an end, or something after it that is neither text nor an end. */
  predicate Stands(u: Classes, name: string, content: string, language: string, texts: seq<string>, closed: bool,
                   rest: seq<Event>)
  {
    Trim(u.whitespace, language) == name && Concat(texts) == content && (!closed && rest != [] ==> Breaks(rest[0]))
  }

  lemma BecomesElement(u: Classes, html: Element -> Option<string>, name: string, content: string)
    requires SpecialName(name)
    ensures Becomes(u, html, name, content, ElementOf(u, name, content))
  {
    var r := RendererOf(u, html);
    forall language, texts, closed, rest | Stands(u, name, content, language, texts, closed, rest)
      ensures Rewrite(r, SegmentEvents(Block(Fenced(language), texts, closed)) + rest)
           == Push(Html(html(ElementOf(u, name, content))), Rewrite(r, rest))
    {
      RewriteBlock(r, Fenced(language), texts, closed, rest);
    }
  }

  /** A mermaid block is its content, whatever that is. */
  lemma MermaidBlock(u: Classes, html: Element -> Option<string>, content: string)
    ensures Becomes(u, html, "mermaid", content, Mermaid(content))
  {
    BecomesElement(u, html, "mermaid", content);
  }

  /** A comment is at its `location`, or at none, with its `icon`, if any, and its text. */
  lemma CommentBlock(u: Classes, html: Element -> Option<string>, content: string, ps: seq<Param>, body: string)
    requires Standard(u) && Content(u, content, ps, body)
    ensures Becomes(u, html, "comment", content,
                    Comment(ValueOf(ps, "location").GetOr(""), ValueOf(ps, "icon"), Chomp(LineFeeds(body))))
  {
    BecomesElement(u, html, "comment", content);
    ContentParsed(u, content, ps, body);
    TableHolds(ps, "location");
    TableHolds(ps, "icon");
  }

  /** A diff is of its `range`, and leaves out what the two flags, each in either spelling
      and with any value, say. */
  lemma GitDiffBlock(u: Classes, html: Element -> Option<string>, content: string, ps: seq<Param>, body: string)
    requires Standard(u) && Content(u, content, ps, body)
    ensures Becomes(u, html, "gitdiff", content,
                    GitDiff(ValueOf(ps, "range").GetOr(""),
                            Has(ps, "exclude-unstaged") || Has(ps, "exclude_unstaged"),
                            Has(ps, "exclude-staged") || Has(ps, "exclude_staged")))
  {
    BecomesElement(u, html, "gitdiff", content);
    ContentParsed(u, content, ps, body);
    TableHolds(ps, "range");
    TableHolds(ps, "exclude-unstaged");
    TableHolds(ps, "exclude_unstaged");
    TableHolds(ps, "exclude-staged");
    TableHolds(ps, "exclude_staged");
  }

  /** An action has its `button`, or one that says so, and its text as the message. */
  lemma ActionBlock(u: Classes, html: Element -> Option<string>, content: string, ps: seq<Param>, body: string)
    requires Standard(u) && Content(u, content, ps, body)
    ensures Becomes(u, html, "action", content, Action(ValueOf(ps, "button").GetOr("Action"), Chomp(LineFeeds(body))))
  {
    BecomesElement(u, html, "action", content);
    ContentParsed(u, content, ps, body);
    TableHolds(ps, "button");
  }

  /** A code block in any other language, or without one, stays as it is. */
  lemma OtherBlockStays(u: Classes, html: Element -> Option<string>, kind: BlockKind, rest: seq<Event>)
    requires kind.Fenced? ==>
               var name := Trim(u.whitespace, kind.language);
               name != "mermaid" && name != "comment" && name != "gitdiff" && name != "action"
    ensures var r := RendererOf(u, html);
            Rewrite(r, [StartCodeBlock(kind)] + rest) == Push(Some(StartCodeBlock(kind)), Rewrite(r, rest))
  {
    RewriteKept(RendererOf(u, html), StartCodeBlock(kind), rest);
  }
}
