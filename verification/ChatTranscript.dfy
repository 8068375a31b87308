/** What the webview's cards preserve of the message stream they were built from. */
module ChatTranscript {
  import opened ChatProvider
  import opened ChatWebview

  datatype Input = FromAgent(payload: Payload) | FromUser(prompt: string)

  function Accept(c: Chat, i: Input): Chat {
    match i
    case FromAgent(payload) => c.Show(payload)
    case FromUser(prompt) => c.Prompt(prompt)
  }

  function AcceptAll(c: Chat, inputs: seq<Input>): Chat {
    if inputs == [] then c else Accept(AcceptAll(c, inputs[..|inputs| - 1]), inputs[|inputs| - 1])
  }

  /** The bodies of the text cards, joined in creation order. */
  function Texts(cards: seq<Card>): string {
    if cards == [] then ""
    else
      var n := |cards| - 1;
      Texts(cards[..n]) + if cards[n].kind.TextCard? then cards[n].body else ""
  }

  function Chunk(p: Payload): string {
    if p.AgentText? then p.text else ""
  }

  /** The `agent-text` chunks of a stream, joined in order. */
  function Chunks(inputs: seq<Input>): string {
    if inputs == [] then ""
    else
      var n := |inputs| - 1;
      Chunks(inputs[..n]) + if inputs[n].FromAgent? then Chunk(inputs[n].payload) else ""
  }

  function ToolCards(cards: seq<Card>, toolId: ToolId): nat {
    if cards == [] then 0
    else
      var n := |cards| - 1;
      ToolCards(cards[..n], toolId) + if cards[n].id == ToolMessage(toolId) then 1 else 0
  }

  ghost predicate Mentions(inputs: seq<Input>, toolId: ToolId) {
    exists k, title :: 0 <= k < |inputs| && inputs[k] == FromAgent(ToolCall(toolId, title))
  }

  /** Card `k` is the text card being streamed into, and the newest one. */
  ghost predicate Open(c: Chat, k: nat) {
    && k < |c.cards|
    && c.stream.current.Some?
    && c.cards[k] == Card(TextCard, c.stream.current.value, c.stream.response)
    && forall j :: k < j < |c.cards| ==> !c.cards[j].kind.TextCard?
  }

  /** Random ids belong to text cards only and never repeat. */
  ghost predicate FreshIds(cards: seq<Card>) {
    && (forall k :: 0 <= k < |cards| && cards[k].id.Uuid? ==> cards[k].id.n < |cards|)
    && (forall k :: 0 <= k < |cards| ==> (cards[k].kind.TextCard? <==> cards[k].id.Uuid?))
    && (forall j, k :: 0 <= j < k < |cards| && cards[j].id.Uuid? ==> cards[j].id != cards[k].id)
  }

  ghost predicate Sound(c: Chat) {
    && FreshIds(c.cards)
    && (c.stream.current.Some? && c.stream.isText ==> exists k :: Open(c, k))
    && (forall x :: x in c.stream.tools ==> c.stream.tools[x] == ToolMessage(x))
  }

  lemma {:induction false} UpdateElsewhere(cards: seq<Card>, id: CardId, body: string)
    requires forall j :: 0 <= j < |cards| && cards[j].kind.TextCard? ==> cards[j].id != id
    ensures Texts(Update(cards, id, body)) == Texts(cards)
  {
    if cards != [] {
      UpdateElsewhere(cards[..|cards| - 1], id, body);
      UpdateTextsLast(cards, id, body);
    }
  }

  /** The last card's part in the texts, before and after an update. */
  lemma UpdateTextsLast(cards: seq<Card>, id: CardId, body: string)
    requires cards != []
    ensures var n := |cards| - 1;
            var isText := cards[n].kind.TextCard?;
            && Texts(cards) == Texts(cards[..n]) + (if isText then cards[n].body else "")
            && Texts(Update(cards, id, body))
               == Texts(Update(cards[..n], id, body))
                  + (if isText then (if cards[n].id == id then body else cards[n].body) else "")
  {
    var n := |cards| - 1;
    UpdateLast(cards, id, body);
    TextsSnoc(Update(cards[..n], id, body), Update(cards, id, body)[n]);
  }

  lemma UpdateLast(cards: seq<Card>, id: CardId, body: string)
    requires cards != []
    ensures var n := |cards| - 1;
            var c := cards[n];
            Update(cards, id, body) == Update(cards[..n], id, body) + [if c.id == id then c.(body := body) else c]
  {
  }

  lemma TextsSnoc(cards: seq<Card>, c: Card)
    ensures Texts(cards + [c]) == Texts(cards) + if c.kind.TextCard? then c.body else ""
  {
    assert (cards + [c])[..|cards|] == cards;
  }

  lemma {:induction false} UpdateTexts(cards: seq<Card>, k: nat, id: CardId, text: string)
    requires k < |cards| && cards[k].kind.TextCard? && cards[k].id == id
    requires forall j :: 0 <= j < |cards| && j != k && cards[j].kind.TextCard? ==> cards[j].id != id
    requires forall j :: k < j < |cards| ==> !cards[j].kind.TextCard?
    ensures Texts(Update(cards, id, cards[k].body + text)) == Texts(cards) + text
    decreases |cards|
  {
    var n := |cards| - 1;
    var body := cards[k].body + text;
    UpdateTextsLast(cards, id, body);
    if k < n {
      UpdateTexts(cards[..n], k, id, text);
    } else {
      UpdateElsewhere(cards[..n], id, body);
    }
  }

  lemma AddKeeps(c: Chat, card: Card)
    requires Sound(c) && !card.kind.TextCard? && !card.id.Uuid?
    ensures Sound(c.Add(card)) && Texts(c.Add(card).cards) == Texts(c.cards)
  {
    var d := c.Add(card);
    assert d.cards[..|c.cards|] == c.cards;
    if c.stream.current.Some? && c.stream.isText {
      var k :| Open(c, k);
      assert Open(d, k);
    }
  }

  lemma StartTextKeeps(c: Chat)
    requires Sound(c)
    ensures Sound(c.StartText()) && Open(c.StartText(), |c.cards|)
    ensures Texts(c.StartText().cards) == Texts(c.cards)
  {
    var d := c.StartText();
    assert d.cards[..|c.cards|] == c.cards;
    assert Open(d, |c.cards|);
  }

  lemma AppendKeeps(c: Chat, text: string, k: nat)
    requires Sound(c) && Open(c, k)
    ensures Sound(c.Append(text)) && Open(c.Append(text), k)
    ensures Texts(c.Append(text).cards) == Texts(c.cards) + text
  {
    UpdateTexts(c.cards, k, c.stream.current.value, text);
    assert Open(c.Append(text), k);
  }

  lemma ToolKeeps(c: Chat, toolId: ToolId, title: string)
    requires Sound(c)
    ensures Sound(c.ShowTool(toolId, title))
    ensures Texts(c.ShowTool(toolId, title).cards) == Texts(c.cards)
  {
    var d := c.ShowTool(toolId, title);
    if toolId in c.stream.tools {
      UpdateElsewhere(c.cards, ToolMessage(toolId), title);
      if c.stream.current.Some? && c.stream.isText {
        var k :| Open(c, k);
        assert Open(d, k);
      }
    } else {
      assert d.cards[..|c.cards|] == c.cards;
    }
  }

  /** Each message or prompt adds exactly its own text to the transcript. */
  lemma AcceptKeeps(c: Chat, i: Input)
    requires Sound(c)
    ensures Sound(Accept(c, i))
    ensures Texts(Accept(c, i).cards) == Texts(c.cards) + if i.FromAgent? then Chunk(i.payload) else ""
  {
    match i
    case FromUser(prompt) =>
      var card := Card(PromptCard, NoId, prompt);
      AddKeeps(c, card);
      StartTextKeeps(c.Add(card));
    case FromAgent(payload) =>
      match payload
      case AgentText(text) =>
        if c.stream.current.None? || !c.stream.isText {
          StartTextKeeps(c);
          AppendKeeps(c.StartText(), text, |c.cards|);
        } else {
          var k :| Open(c, k);
          AppendKeeps(c, text, k);
        }
      case ToolCall(toolId, title) => ToolKeeps(c, toolId, title);
      case ApprovalRequest(approvalId) => AddKeeps(c, Card(ApprovalCard, ApprovalMessage(approvalId), ""));
      case AgentError(error) => AddKeeps(c, Card(ErrorCard, NoId, error));
      case _ =>
  }

  /** Transcript conservation: whatever the interleaving of text, tools, errors,
      completions and prompts, the text cards hold the text chunks, in order. */
  lemma {:induction false} TranscriptConserved(c: Chat, inputs: seq<Input>)
    requires Sound(c)
    ensures Sound(AcceptAll(c, inputs))
    ensures Texts(AcceptAll(c, inputs).cards) == Texts(c.cards) + Chunks(inputs)
  {
    if inputs != [] {
      var n := |inputs| - 1;
      TranscriptConserved(c, inputs[..n]);
      AcceptKeeps(AcceptAll(c, inputs[..n]), inputs[n]);
    }
  }

  lemma UpdateToolCards(cards: seq<Card>, id: CardId, body: string, toolId: ToolId)
    ensures ToolCards(Update(cards, id, body), toolId) == ToolCards(cards, toolId)
  {
    if cards != [] {
      var n := |cards| - 1;
      assert Update(cards, id, body)[..n] == Update(cards[..n], id, body);
      UpdateToolCards(cards[..n], id, body, toolId);
    }
  }

  lemma AcceptToolCards(c: Chat, i: Input, x: ToolId)
    ensures var called := i.FromAgent? && i.payload.ToolCall? && i.payload.toolId == x;
            && (x in Accept(c, i).stream.tools <==> x in c.stream.tools || called)
            && ToolCards(Accept(c, i).cards, x)
               == ToolCards(c.cards, x) + if called && x !in c.stream.tools then 1 else 0
  {
    var d := Accept(c, i);
    assert (c.cards + [Card(ToolCard, ToolMessage(x), "")])[..|c.cards|] == c.cards;
    match i
    case FromUser(prompt) =>
      var card := Card(PromptCard, NoId, prompt);
      assert d.cards[..|c.cards| + 1] == c.cards + [card];
      assert (c.cards + [card])[..|c.cards|] == c.cards;
    case FromAgent(payload) =>
      match payload
      case AgentText(text) =>
        var e := if c.stream.current.None? || !c.stream.isText then c.StartText() else c;
        assert e == c || e.cards[..|c.cards|] == c.cards;
        UpdateToolCards(e.cards, e.stream.current.value, e.stream.response + text, x);
      case ToolCall(toolId, title) =>
        if toolId in c.stream.tools {
          UpdateToolCards(c.cards, c.stream.tools[toolId], title, x);
        } else {
          assert d.cards[..|c.cards|] == c.cards;
        }
      case ApprovalRequest(_) => assert d.cards[..|c.cards|] == c.cards;
      case AgentError(_) => assert d.cards[..|c.cards|] == c.cards;
      case _ =>
  }

  lemma MentionsSnoc(inputs: seq<Input>, i: Input, x: ToolId)
    ensures Mentions(inputs + [i], x) <==>
      Mentions(inputs, x) || (i.FromAgent? && i.payload.ToolCall? && i.payload.toolId == x)
  {
    var all := inputs + [i];
    if Mentions(inputs, x) {
      var k, title :| 0 <= k < |inputs| && inputs[k] == FromAgent(ToolCall(x, title));
      assert all[k] == FromAgent(ToolCall(x, title));
    } else if i.FromAgent? && i.payload.ToolCall? && i.payload.toolId == x {
      assert all[|inputs|] == FromAgent(ToolCall(x, i.payload.title));
    }
    if Mentions(all, x) {
      var k, title :| 0 <= k < |all| && all[k] == FromAgent(ToolCall(x, title));
      assert k < |inputs| ==> inputs[k] == FromAgent(ToolCall(x, title));
    }
  }

  /** A page gives a tool call id one card, however often the call is repeated.
      The count is relative to the restored cards: a page that is recreated in the
      middle of a call has lost `tabToolCalls`, and adds a second card. */
  lemma {:induction false} OneCardPerToolCall(restored: seq<Card>, inputs: seq<Input>, x: ToolId)
    ensures var c := AcceptAll(Chat(IDLE, restored), inputs);
            && (x in c.stream.tools <==> Mentions(inputs, x))
            && ToolCards(c.cards, x) == ToolCards(restored, x) + if Mentions(inputs, x) then 1 else 0
  {
    if inputs != [] {
      var n := |inputs| - 1;
      OneCardPerToolCall(restored, inputs[..n], x);
      AcceptToolCards(AcceptAll(Chat(IDLE, restored), inputs[..n]), inputs[n], x);
      assert inputs == inputs[..n] + [inputs[n]];
      MentionsSnoc(inputs[..n], inputs[n], x);
    }
  }

  /** A repeated tool call does not split the text around it: the two chunks land
      in the card one chunk would have used. */
  lemma RepeatedToolCallKeepsSegment(c: Chat, a: string, toolId: ToolId, title: string, b: string)
    requires Sound(c) && toolId in c.stream.tools
    ensures c.ShowText(a).ShowTool(toolId, title).ShowText(b) == c.ShowText(a + b).ShowTool(toolId, title)
  {
    var base := if c.stream.current.None? || !c.stream.isText then c.StartText() else c;
    if base != c {
      StartTextKeeps(c);
    }
    var k :| Open(base, k);
    var id := base.stream.current.value;
    var r := base.stream.response;
    assert (r + a) + b == r + (a + b);
    UpdateTwice(base.cards, id, r + a, ToolMessage(toolId), title, r + (a + b));
  }

  lemma UpdateTwice(cards: seq<Card>, id: CardId, first: string, other: CardId, title: string, second: string)
    requires id != other
    ensures Update(Update(Update(cards, id, first), other, title), id, second)
         == Update(Update(cards, id, second), other, title)
  {
  }
}
