/** The webview's side of the chat delivery protocol: the saved state it starts
    from, the indexed message listener, and the cards it builds
    (vscode-extension/src/symposium-webview.ts). */
module ChatWebview {
  import opened Collections
  import opened ChatProvider

  /** Message ids of cards.  `Uuid(n)` stands for the random id drawn when the tab
      held `n` cards, which makes it differ from every earlier one. */
  datatype CardId = Uuid(n: nat) | ToolMessage(toolId: ToolId) | ApprovalMessage(approvalId: string) | NoId

  datatype CardKind = TextCard | ToolCard | PromptCard | ApprovalCard | ErrorCard

  datatype Card = Card(kind: CardKind, id: CardId, body: string)

  /** One tab's row of the streaming tables: `tabAgentResponses`,
      `tabCurrentMessageId` with `tabCurrentStreamType`, and `tabToolCalls`. */
  datatype Stream = Stream(response: string, current: Option<CardId>, isText: bool, tools: map<ToolId, CardId>)

  const IDLE := Stream("", None, false, map[])

  /** Replace the body of the cards that carry `id`. */
  function Update(cards: seq<Card>, id: CardId, body: string): (r: seq<Card>)
    ensures |r| == |cards|
    ensures forall k :: 0 <= k < |cards| ==>
      r[k] == if cards[k].id == id then cards[k].(body := body) else cards[k]
  {
    seq(|cards|, k requires 0 <= k < |cards| =>
      if cards[k].id == id then cards[k].(body := body) else cards[k])
  }

  /** What one tab shows, with its streaming tables. */
  datatype Chat = Chat(stream: Stream, cards: seq<Card>) {

    function Add(card: Card): Chat { this.(cards := cards + [card]) }

    function StartText(): Chat {
      var id := Uuid(|cards|);
      Chat(stream.(response := "", current := Some(id), isText := true), cards + [Card(TextCard, id, "")])
    }

    function Append(text: string): Chat
      requires stream.current.Some?
    {
      var body := stream.response + text;
      Chat(stream.(response := body), Update(cards, stream.current.value, body))
    }

    function ShowText(text: string): Chat {
      (if stream.current.None? || !stream.isText then StartText() else this).Append(text)
    }

    /** `handleToolCall`. */
    function ShowTool(toolId: ToolId, title: string): Chat {
      if toolId in stream.tools then
        this.(cards := Update(cards, stream.tools[toolId], title))
      else
        var id := ToolMessage(toolId);
        Chat(stream.(tools := stream.tools[toolId := id], current := Some(id), isText := false),
             cards + [Card(ToolCard, id, title)])
    }

    function EndStream(): Chat {
      this.(stream := stream.(response := "", current := None, isText := false))
    }

    /** The body of the message listener, by message type. */
    function Show(payload: Payload): Chat {
      match payload
      case AgentText(text) => ShowText(text)
      case AgentComplete => EndStream()
      case ToolCall(toolId, title) => ShowTool(toolId, title)
      case ApprovalRequest(approvalId) =>
        Add(Card(ApprovalCard, ApprovalMessage(approvalId), ""))
      case AgentError(error) => Add(Card(ErrorCard, NoId, error)).EndStream()
      case StoreUpdate(_) => this
    }

    /** `onChatPrompt`: the user's card and an empty answer to stream into. */
    function Prompt(prompt: string): Chat {
      Add(Card(PromptCard, NoId, prompt)).StartText()
    }
  }

  /** What `vscode.getState()` holds between two lives of the page. */
  datatype Saved = NoState | SavedState(activation: nat, lastSeen: map<TabId, int>, cards: map<TabId, seq<Card>>)
  {
    /** The start-up check: state of another activation is not used. */
    function For(activation: nat): Saved {
      if SavedState? && this.activation == activation then this else NoState
    }

    function LastSeen(tab: TabId): int { if SavedState? then Get(lastSeen, tab, -1) else -1 }

    function Cards(tab: TabId): seq<Card> { if SavedState? then Get(cards, tab, []) else [] }
  }

  datatype Ack = Ack(tab: TabId, index: nat)

  /** A running page. */
  datatype Page = Page(lastSeen: map<TabId, int>, streams: map<TabId, Stream>, cards: map<TabId, seq<Card>>) {

    function LastSeen(tab: TabId): int { Get(lastSeen, tab, -1) }

    function ChatOf(tab: TabId): Chat { Chat(Get(streams, tab, IDLE), Get(cards, tab, [])) }

    function SetChat(tab: TabId, chat: Chat): Page {
      this.(streams := streams[tab := chat.stream], cards := cards[tab := chat.cards])
    }

    /** The indexed message listener: drop what was seen, else show and acknowledge. */
    function Receive(m: Indexed): (Page, seq<Ack>) {
      if m.index <= LastSeen(m.tab) then (this, [])
      else
        (SetChat(m.tab, ChatOf(m.tab).Show(m.payload)).(lastSeen := lastSeen[m.tab := m.index]),
         [Ack(m.tab, m.index)])
    }

    function Save(activation: nat): Saved { SavedState(activation, lastSeen, cards) }
  }

  /** The page a fresh script starts with. */
  function Load(saved: Saved, activation: nat): Page {
    var own := saved.For(activation);
    if own.NoState? then Page(map[], map[], map[]) else Page(own.lastSeen, map[], own.cards)
  }

  /** The script's module-level tables. */
  class SymposiumWebview {
    const activation: nat
    var lastSeenIndex: map<TabId, int>
    var streams: map<TabId, Stream>
    var cards: map<TabId, seq<Card>>
    var saved: Saved

    function State(): Page
      reads this
    {
      Page(lastSeenIndex, streams, cards)
    }

    constructor (savedState: Saved, currentActivation: nat)
      ensures activation == currentActivation
      ensures State() == Load(savedState, currentActivation)
      ensures saved == savedState.For(currentActivation)
    {
      activation := currentActivation;
      streams := map[];
      if savedState.NoState? || savedState.activation != currentActivation {
        saved := NoState;
        lastSeenIndex, cards := map[], map[];
      } else {
        saved := savedState;
        lastSeenIndex, cards := savedState.lastSeen, savedState.cards;
      }
    }

    method SaveState()
      modifies this`saved
      ensures saved == State().Save(activation)
    {
      saved := SavedState(activation, lastSeenIndex, cards);
    }

    method AddChatItem(tab: TabId, card: Card)
      modifies this`streams, this`cards
      ensures State() == old(State()).SetChat(tab, old(State()).ChatOf(tab).Add(card))
    {
      streams := streams[tab := Get(streams, tab, IDLE)];
      cards := cards[tab := Get(cards, tab, []) + [card]];
    }

    method UpdateChatAnswer(tab: TabId, id: CardId, body: string)
      modifies this`cards
      ensures State() == old(State()).(cards := old(cards)[tab := Update(Get(old(cards), tab, []), id, body)])
    {
      cards := cards[tab := Update(Get(cards, tab, []), id, body)];
    }

    method StartTextStream(tab: TabId)
      modifies this`streams, this`cards
      ensures State() == old(State()).SetChat(tab, old(State()).ChatOf(tab).StartText())
    {
      var id := Uuid(|Get(cards, tab, [])|);
      streams := streams[tab := Get(streams, tab, IDLE).(response := "", current := Some(id), isText := true)];
      AddChatItem(tab, Card(TextCard, id, ""));
    }

    method ShowText(tab: TabId, text: string)
      modifies this`streams, this`cards
      ensures State() == old(State()).SetChat(tab, old(State()).ChatOf(tab).ShowText(text))
    {
      var stream := Get(streams, tab, IDLE);
      if stream.current.None? || !stream.isText {
        StartTextStream(tab);
        stream := streams[tab];
      }
      assert State().ChatOf(tab).stream == stream;
      var body := stream.response + text;
      streams := streams[tab := stream.(response := body)];
      UpdateChatAnswer(tab, stream.current.value, body);
    }

    method HandleToolCall(tab: TabId, toolId: ToolId, title: string)
      modifies this`streams, this`cards
      ensures State() == old(State()).SetChat(tab, old(State()).ChatOf(tab).ShowTool(toolId, title))
    {
      var stream := Get(streams, tab, IDLE);
      streams := streams[tab := stream];
      if toolId in stream.tools {
        UpdateChatAnswer(tab, stream.tools[toolId], title);
        return;
      }
      var id := ToolMessage(toolId);
      streams := streams[tab := stream.(tools := stream.tools[toolId := id], current := Some(id), isText := false)];
      AddChatItem(tab, Card(ToolCard, id, title));
    }

    method ClearStream(tab: TabId)
      modifies this`streams, this`cards
      ensures State() == old(State()).SetChat(tab, old(State()).ChatOf(tab).EndStream())
    {
      streams := streams[tab := Get(streams, tab, IDLE).(response := "", current := None, isText := false)];
      cards := cards[tab := Get(cards, tab, [])];
    }

    /** The cases of the listener, before the index is recorded. */
    method Process(tab: TabId, payload: Payload)
      modifies this`streams, this`cards
      ensures State() == old(State()).SetChat(tab, old(State()).ChatOf(tab).Show(payload))
    {
      match payload {
        case AgentText(text) => ShowText(tab, text);
        case AgentComplete => ClearStream(tab);
        case ToolCall(toolId, title) => HandleToolCall(tab, toolId, title);
        case ApprovalRequest(approvalId) =>
          AddChatItem(tab, Card(ApprovalCard, ApprovalMessage(approvalId), ""));
        case AgentError(error) =>
          AddChatItem(tab, Card(ErrorCard, NoId, error));
          ClearStream(tab);
        case StoreUpdate(_) =>
          streams := streams[tab := Get(streams, tab, IDLE)];
          cards := cards[tab := Get(cards, tab, [])];
      }
    }

    method OnMessage(m: Indexed) returns (acks: seq<Ack>)
      modifies this
      ensures (State(), acks) == old(State()).Receive(m)
      ensures saved == if acks == [] then old(saved) else State().Save(activation)
    {
      acks := [];
      if m.index <= Get(lastSeenIndex, m.tab, -1) {
        return;
      }
      Process(m.tab, m.payload);
      lastSeenIndex := lastSeenIndex[m.tab := m.index];
      SaveState();
      acks := [Ack(m.tab, m.index)];
    }

    method OnChatPrompt(tab: TabId, prompt: string)
      modifies this
      ensures State() == old(State()).SetChat(tab, old(State()).ChatOf(tab).Prompt(prompt))
      ensures saved == State().Save(activation)
    {
      AddChatItem(tab, Card(PromptCard, NoId, prompt));
      StartTextStream(tab);
      SaveState();
    }
  }
}
