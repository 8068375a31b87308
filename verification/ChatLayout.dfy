/** Which cards a page shows, read off the messages and prompts it was given: their order,
    their kinds, their tools and their bodies (vscode-extension/src/symposium-webview.ts). */
module ChatLayout {
  import opened Collections
  import opened ChatProvider
  import opened ChatWebview
  import opened ChatTranscript

  // ----- what is to be shown -----

  predicate IsCall(i: Input, x: ToolId) { i.FromAgent? && i.payload.ToolCall? && i.payload.toolId == x }

  predicate IsText(i: Input) { i.FromAgent? && i.payload.AgentText? }

  /** The tool was called before input `i`. */
  ghost predicate Called(inputs: seq<Input>, i: nat, x: ToolId)
    requires i <= |inputs|
  {
    exists j :: 0 <= j < i && IsCall(inputs[j], x)
  }

  /** Input `i` is the first call of its tool. */
  ghost predicate NewCall(inputs: seq<Input>, i: nat)
    requires i < |inputs|
  {
    inputs[i].FromAgent? && inputs[i].payload.ToolCall? && !Called(inputs, i, inputs[i].payload.toolId)
  }

  /** Text before input `i` and text after it are not in one card: a prompt, a completion,
      an error, or a new tool call. */
  ghost predicate Parts(inputs: seq<Input>, i: nat)
    requires i < |inputs|
  {
    match inputs[i]
    case FromUser(_) => true
    case FromAgent(payload) => payload.AgentComplete? || payload.AgentError? || NewCall(inputs, i)
  }

  /** The chunks from input `i` on, up to the next that parts. */
  ghost function TextFrom(inputs: seq<Input>, i: nat): string
    requires i <= |inputs|
    decreases |inputs| - i
  {
    if i == |inputs| || Parts(inputs, i) then ""
    else (if IsText(inputs[i]) then inputs[i].payload.text else "") + TextFrom(inputs, i + 1)
  }

  /** A prompt or a chunk came before input `i`, and since then nothing that parts. */
  ghost predicate Streaming(inputs: seq<Input>, i: nat)
    requires i <= |inputs|
  {
    i > 0 && (inputs[i - 1].FromUser? || IsText(inputs[i - 1]) || (!Parts(inputs, i - 1) && Streaming(inputs, i - 1)))
  }

  /** The title of a tool's card in the end: that of the last repeated call from input `i`
      on, or the one it has. */
  ghost function Titled(inputs: seq<Input>, i: nat, x: ToolId, title: string): string
    requires i <= |inputs|
    decreases |inputs| - i
  {
    if i == |inputs| then title
    else
      Titled(inputs, i + 1, x,
             if IsCall(inputs[i], x) && !NewCall(inputs, i) then inputs[i].payload.title else title)
  }

  /** The cards input `i` adds, as they are in the end: a text card has all chunks up to the
      next input that parts. */
  ghost function Adds(inputs: seq<Input>, i: nat): seq<Card>
    requires i < |inputs|
  {
    match inputs[i]
    case FromUser(prompt) =>
      [Card(PromptCard, NoId, prompt), Card(TextCard, NoId, TextFrom(inputs, i + 1))]
    case FromAgent(payload) =>
      match payload
      case AgentText(_) => if Streaming(inputs, i) then [] else [Card(TextCard, NoId, TextFrom(inputs, i))]
      case ToolCall(x, title) =>
        if NewCall(inputs, i) then [Card(ToolCard, ToolMessage(x), Titled(inputs, i + 1, x, title))] else []
      case ApprovalRequest(approvalId) => [Card(ApprovalCard, ApprovalMessage(approvalId), "")]
      case AgentError(error) => [Card(ErrorCard, NoId, error)]
      case _ => []
  }

  /** The cards the inputs from `i` on add. */
  ghost function Layout(inputs: seq<Input>, i: nat): seq<Card>
    requires i <= |inputs|
    decreases |inputs| - i
  {
    if i == |inputs| then [] else Adds(inputs, i) + Layout(inputs, i + 1)
  }

  /** Cards without the random ids of text cards. */
  function Faces(cards: seq<Card>): (r: seq<Card>)
    ensures |r| == |cards|
    ensures forall k :: 0 <= k < |r| ==> r[k] == if cards[k].id.Uuid? then cards[k].(id := NoId) else cards[k]
  {
    seq(|cards|, k requires 0 <= k < |cards| => if cards[k].id.Uuid? then cards[k].(id := NoId) else cards[k])
  }

  /** Cards of an earlier life of the page, in the end: repeated calls give their tools'
      cards a title too. */
  ghost function Restored(cards: seq<Card>, inputs: seq<Input>): (r: seq<Card>)
    ensures |r| == |cards|
    ensures forall k :: 0 <= k < |r| ==> r[k] == RestoredCard(cards[k], inputs)
  {
    seq(|cards|, k requires 0 <= k < |cards| => RestoredCard(cards[k], inputs))
  }

  ghost function RestoredCard(card: Card, inputs: seq<Input>): Card {
    if card.id.ToolMessage? then card.(body := Titled(inputs, 0, card.id.toolId, card.body)) else card
  }

  // ----- the page has come to input `i` -----

  /** A card of the page before input `i`, as it is in the end. */
  ghost function Final(c: Chat, inputs: seq<Input>, i: nat, card: Card): Card
    requires i <= |inputs|
  {
    if card.id.ToolMessage? then card.(body := Titled(inputs, i, card.id.toolId, card.body))
    else if c.stream.isText && c.stream.current == Some(card.id) then card.(body := card.body + TextFrom(inputs, i))
    else card
  }

  ghost function Finals(c: Chat, inputs: seq<Input>, i: nat): (r: seq<Card>)
    requires i <= |inputs|
    ensures |r| == |c.cards| && forall k :: 0 <= k < |r| ==> r[k] == Final(c, inputs, i, c.cards[k])
  {
    seq(|c.cards|, k requires 0 <= k < |c.cards| => Final(c, inputs, i, c.cards[k]))
  }

  predicate Streams(c: Chat) { c.stream.current.Some? && c.stream.isText }

  /** The page's tables say what came before input `i`. */
  ghost predicate UpTo(c: Chat, inputs: seq<Input>, i: nat)
    requires i <= |inputs|
  {
    && Sound(c)
    && (forall x :: x in c.stream.tools <==> Called(inputs, i, x))
    && (Streams(c) <==> Streaming(inputs, i))
  }

  lemma CalledNext(inputs: seq<Input>, i: nat, x: ToolId)
    requires i < |inputs|
    ensures Called(inputs, i + 1, x) <==> Called(inputs, i, x) || IsCall(inputs[i], x)
  {
    if Called(inputs, i + 1, x) && !IsCall(inputs[i], x) {
      var j :| 0 <= j < i + 1 && IsCall(inputs[j], x);
      assert j < i;
    }
  }

  /** Whether a page streams text after one more input. */
  lemma StreamsNext(c: Chat, i: Input)
    ensures var first := i.FromAgent? && i.payload.ToolCall? && i.payload.toolId !in c.stream.tools;
            Streams(Accept(c, i)) <==>
              || i.FromUser? || IsText(i)
              || (Streams(c) && !i.payload.AgentComplete? && !i.payload.AgentError? && !first)
  {
  }

  lemma ToolsNext(c: Chat, inputs: seq<Input>, i: nat)
    requires i < |inputs| && UpTo(c, inputs, i)
    ensures forall x :: x in Accept(c, inputs[i]).stream.tools <==> Called(inputs, i + 1, x)
  {
    forall x ensures x in Accept(c, inputs[i]).stream.tools <==> Called(inputs, i + 1, x) {
      CalledNext(inputs, i, x);
      AcceptToolCards(c, inputs[i], x);
    }
  }

  lemma UpToNext(c: Chat, inputs: seq<Input>, i: nat)
    requires i < |inputs| && UpTo(c, inputs, i)
    ensures UpTo(Accept(c, inputs[i]), inputs, i + 1)
  {
    AcceptKeeps(c, inputs[i]);
    ToolsNext(c, inputs, i);
    StreamsNext(c, inputs[i]);
  }

  // ----- one more input -----

  /** After input `i`, all cards in the end are those before it, in the end, and its own. */
  ghost predicate Adding(c: Chat, inputs: seq<Input>, i: nat)
    requires i < |inputs|
  {
    Faces(Finals(Accept(c, inputs[i]), inputs, i + 1)) == Faces(Finals(c, inputs, i)) + Adds(inputs, i)
  }

  /** The card streamed into, and no other, has the current id. */
  lemma CurrentCard(c: Chat) returns (k: nat)
    requires Sound(c) && Streams(c)
    ensures Open(c, k) && forall j :: 0 <= j < |c.cards| && j != k ==> c.cards[j].id != c.stream.current.value
    ensures c.stream.current.value.Uuid?
  {
    k :| Open(c, k);
  }

  lemma TextAdds(c: Chat, inputs: seq<Input>, i: nat)
    requires i < |inputs| && UpTo(c, inputs, i) && IsText(inputs[i])
    ensures Adding(c, inputs, i)
  {
    var text := inputs[i].payload.text;
    assert TextFrom(inputs, i) == text + TextFrom(inputs, i + 1);
    if Streams(c) {
      var k := CurrentCard(c);
      assert c.cards[k].body + (text + TextFrom(inputs, i + 1)) == c.cards[k].body + text + TextFrom(inputs, i + 1);
    } else {
      assert "" + text == text;
    }
  }

  /** When nothing more comes to the card streamed into. */
  lemma NothingMore(c: Chat)
    requires Sound(c) && Streams(c)
    ensures c.stream.current.value.Uuid?
    ensures forall j :: 0 <= j < |c.cards| ==> c.cards[j].(body := c.cards[j].body + "") == c.cards[j]
  {
    var k := CurrentCard(c);
    forall j | 0 <= j < |c.cards| ensures c.cards[j].body + "" == c.cards[j].body {
    }
  }

  lemma PromptAdds(c: Chat, inputs: seq<Input>, i: nat)
    requires i < |inputs| && UpTo(c, inputs, i) && inputs[i].FromUser?
    ensures Adding(c, inputs, i)
  {
    assert TextFrom(inputs, i) == "";
    assert "" + TextFrom(inputs, i + 1) == TextFrom(inputs, i + 1);
    if Streams(c) {
      NothingMore(c);
    }
  }

  lemma ToolAdds(c: Chat, inputs: seq<Input>, i: nat)
    requires i < |inputs| && UpTo(c, inputs, i) && inputs[i].FromAgent? && inputs[i].payload.ToolCall?
    ensures Adding(c, inputs, i)
  {
    var x := inputs[i].payload.toolId;
    assert NewCall(inputs, i) <==> x !in c.stream.tools;
    assert "" + TextFrom(inputs, i + 1) == TextFrom(inputs, i + 1);
    if Streams(c) {
      NothingMore(c);
    }
  }

  lemma OtherAdds(c: Chat, inputs: seq<Input>, i: nat)
    requires i < |inputs| && UpTo(c, inputs, i) && inputs[i].FromAgent?
    requires !inputs[i].payload.AgentText? && !inputs[i].payload.ToolCall?
    ensures Adding(c, inputs, i)
  {
    assert "" + TextFrom(inputs, i + 1) == TextFrom(inputs, i + 1);
    if Streams(c) {
      NothingMore(c);
    }
  }

  lemma InputAdds(c: Chat, inputs: seq<Input>, i: nat)
    requires i < |inputs| && UpTo(c, inputs, i)
    ensures Adding(c, inputs, i)
  {
    if inputs[i].FromUser? {
      PromptAdds(c, inputs, i);
    } else if inputs[i].payload.AgentText? {
      TextAdds(c, inputs, i);
    } else if inputs[i].payload.ToolCall? {
      ToolAdds(c, inputs, i);
    } else {
      OtherAdds(c, inputs, i);
    }
  }

  // ----- all inputs -----

  lemma TakeNext(c: Chat, inputs: seq<Input>, i: nat)
    requires i < |inputs|
    ensures AcceptAll(c, inputs[..i + 1]) == Accept(AcceptAll(c, inputs[..i]), inputs[i])
  {
    assert inputs[..i + 1][..i] == inputs[..i];
  }

  lemma {:induction false} UpToHere(c: Chat, inputs: seq<Input>, i: nat)
    requires i <= |inputs| && UpTo(c, inputs, 0)
    ensures UpTo(AcceptAll(c, inputs[..i]), inputs, i)
  {
    if i > 0 {
      UpToHere(c, inputs, i - 1);
      TakeNext(c, inputs, i - 1);
      UpToNext(AcceptAll(c, inputs[..i - 1]), inputs, i - 1);
    }
  }

  lemma LayoutNext(cards: seq<Card>, inputs: seq<Input>, i: nat)
    requires i < |inputs|
    ensures cards + Adds(inputs, i) + Layout(inputs, i + 1) == cards + Layout(inputs, i)
  {
  }

  /** What is shown in the end, from any point of the way. */
  lemma {:induction false} LaidOutFrom(c: Chat, inputs: seq<Input>, i: nat)
    requires i <= |inputs| && UpTo(c, inputs, 0)
    ensures Faces(AcceptAll(c, inputs).cards)
         == Faces(Finals(AcceptAll(c, inputs[..i]), inputs, i)) + Layout(inputs, i)
    decreases |inputs| - i
  {
    var d := AcceptAll(c, inputs[..i]);
    UpToHere(c, inputs, i);
    if i == |inputs| {
      assert inputs[..i] == inputs;
      FinalsInTheEnd(d, inputs);
      assert Faces(d.cards) + [] == Faces(d.cards);
    } else {
      LaidOutFrom(c, inputs, i + 1);
      TakeNext(c, inputs, i);
      InputAdds(d, inputs, i);
      LayoutNext(Faces(Finals(d, inputs, i)), inputs, i);
    }
  }

  lemma FinalsInTheEnd(c: Chat, inputs: seq<Input>)
    requires Sound(c)
    ensures Finals(c, inputs, |inputs|) == c.cards
  {
    if Streams(c) {
      NothingMore(c);
    }
    forall k | 0 <= k < |c.cards| ensures Final(c, inputs, |inputs|, c.cards[k]) == c.cards[k] {
    }
  }

  /** The cards of a page are those it was restored with and those its inputs lay out, in
      order: a text card for each prompt, and for each chunk that continues none, with all
      the chunks up to the next prompt, completion, error or new tool call; a tool card
      where its tool is first called, with the title given last. */
  lemma CardsAreLaidOut(cards: seq<Card>, inputs: seq<Input>)
    requires FreshIds(cards)
    ensures Faces(AcceptAll(Chat(IDLE, cards), inputs).cards) == Faces(Restored(cards, inputs)) + Layout(inputs, 0)
  {
    var c := Chat(IDLE, cards);
    LaidOutFrom(c, inputs, 0);
    assert inputs[..0] == [];
    assert Finals(c, inputs, 0) == Restored(cards, inputs);
  }

  /** A new tool call ends the text before it: its card comes next, and text after it goes
      to a card of its own behind that. */
  lemma NewToolCallPartsText(c: Chat, a: string, x: ToolId, title: string, b: string)
    requires Sound(c) && x !in c.stream.tools
    ensures var before := c.ShowText(a).cards;
            c.ShowText(a).ShowTool(x, title).ShowText(b).cards
            == before + [Card(ToolCard, ToolMessage(x), title), Card(TextCard, Uuid(|before| + 1), b)]
  {
    var before := c.ShowText(a).cards;
    AcceptKeeps(c, FromAgent(AgentText(a)));
    var tool := Card(ToolCard, ToolMessage(x), title);
    var id := Uuid(|before| + 1);
    assert "" + b == b;
    assert Update(before + [tool] + [Card(TextCard, id, "")], id, b) == before + [tool, Card(TextCard, id, b)];
  }
}
