/** The extension's side of the chat delivery protocol
    (vscode-extension/src/chatViewProvider.ts). */
module ChatProvider {
  import opened Collections

  type TabId = string
  type ToolId = string

  /** What a message to the webview asks for.  `tool-call` and `tool-call-update`
      are one case because the webview handles them by the same function. */
  datatype Payload =
    | AgentText(text: string)
    | AgentComplete
    | ToolCall(toolId: ToolId, title: string)
    | ApprovalRequest(approvalId: string)
    | AgentError(error: string)
    | StoreUpdate(what: string)

  datatype Indexed = Indexed(tab: TabId, index: nat, payload: Payload)

  /** Messages from index `from` on, numbered as the extension numbers them. */
  function Stamp(tab: TabId, xs: seq<Payload>, from: nat): (r: seq<Indexed>)
    requires from <= |xs|
    ensures |r| == |xs| - from
    ensures forall k :: 0 <= k < |r| ==> r[k] == Indexed(tab, from + k, xs[from + k])
  {
    seq(|xs| - from, k requires 0 <= k < |xs| - from => Indexed(tab, from + k, xs[from + k]))
  }

  /** The messages of a queue whose index is above `acked`, in queue order. */
  function Above(queue: seq<Indexed>, acked: int): seq<Indexed> {
    if queue == [] then []
    else
      var n := |queue| - 1;
      Above(queue[..n], acked) + if queue[n].index > acked then [queue[n]] else []
  }

  /** The provider's tables as a value.  `order` is the insertion order in which
      the `Map` of queues is iterated. */
  datatype Provider = Provider(
    resolved: bool, visible: bool,
    order: seq<TabId>, queues: map<TabId, seq<Indexed>>, next: map<TabId, nat>)
  {
    function Queue(tab: TabId): seq<Indexed> { Get(queues, tab, []) }

    function Next(tab: TabId): nat { Get(next, tab, 0) }

    function SetQueue(tab: TabId, queue: seq<Indexed>): Provider {
      this.(order := if tab in queues then order else order + [tab], queues := queues[tab := queue])
    }

    /** `new-tab`: start tracking a tab from index 0. */
    function Register(tab: TabId): Provider {
      SetQueue(tab, []).(next := next[tab := 0])
    }

    predicate Accepts(tab: TabId) { resolved && tab != "" }

    /** `#sendToWebview`: the new tables, and what is handed to `postMessage`. */
    function Send(tab: TabId, payload: Payload): (Provider, seq<Indexed>) {
      if !Accepts(tab) then (this, [])
      else
        var m := Indexed(tab, Next(tab), payload);
        (SetQueue(tab, Queue(tab) + [m]).(next := next[tab := Next(tab) + 1]), if visible then [m] else [])
    }

    /** `#handleMessageAck`: acknowledgements are cumulative. */
    function Ack(tab: TabId, acked: int): Provider {
      if tab in queues then SetQueue(tab, Above(queues[tab], acked)) else this
    }

    /** `#replayQueuedMessages`: every queue, tab by tab. */
    function Replay(): seq<Indexed> {
      if resolved then Backlog(order) else []
    }

    function Backlog(tabs: seq<TabId>): seq<Indexed> {
      if tabs == [] then []
      else
        var n := |tabs| - 1;
        Backlog(tabs[..n]) + Queue(tabs[n])
    }

    /** The iteration order lists every tab that has a queue exactly once. */
    ghost predicate Valid() {
      Distinct(order) && (forall t :: t in order <==> t in queues)
    }
  }

  const NEW_PROVIDER := Provider(false, false, [], map[], map[])

  /** The mutable object itself; each handler is proved to be the function above. */
  class ChatViewProvider {
    var resolved: bool
    var visible: bool
    var order: seq<TabId>
    var messageQueues: map<TabId, seq<Indexed>>
    var nextMessageIndex: map<TabId, nat>

    function State(): Provider
      reads this
    {
      Provider(resolved, visible, order, messageQueues, nextMessageIndex)
    }

    constructor ()
      ensures State() == NEW_PROVIDER
    {
      resolved, visible := false, false;
      order, messageQueues, nextMessageIndex := [], map[], map[];
    }

    method SetMessageQueue(tab: TabId, queue: seq<Indexed>)
      modifies this`order, this`messageQueues
      ensures State() == old(State()).SetQueue(tab, queue)
    {
      if tab !in messageQueues {
        order := order + [tab];
      }
      messageQueues := messageQueues[tab := queue];
    }

    method NewTab(tab: TabId)
      modifies this
      ensures State() == old(State()).Register(tab)
    {
      SetMessageQueue(tab, []);
      nextMessageIndex := nextMessageIndex[tab := 0];
    }

    method SendToWebview(tab: TabId, payload: Payload) returns (posted: seq<Indexed>)
      modifies this
      ensures (State(), posted) == old(State()).Send(tab, payload)
    {
      posted := [];
      if !resolved || tab == "" {
        return;
      }
      var index := Get(nextMessageIndex, tab, 0);
      nextMessageIndex := nextMessageIndex[tab := index + 1];
      var message := Indexed(tab, index, payload);
      var queue := Get(messageQueues, tab, []) + [message];
      SetMessageQueue(tab, queue);
      if visible {
        posted := [message];
      }
    }

    method HandleMessageAck(tab: TabId, ackedIndex: int)
      modifies this
      ensures State() == old(State()).Ack(tab, ackedIndex)
    {
      if tab !in messageQueues {
        return;
      }
      var queue := messageQueues[tab];
      var remaining: seq<Indexed> := [];
      for i := 0 to |queue|
        invariant remaining == Above(queue[..i], ackedIndex)
      {
        assert queue[..i + 1][..i] == queue[..i];
        if queue[i].index > ackedIndex {
          remaining := remaining + [queue[i]];
        }
      }
      assert queue[..|queue|] == queue;
      SetMessageQueue(tab, remaining);
    }

    method ReplayQueuedMessages() returns (posted: seq<Indexed>)
      requires State().Valid()
      ensures posted == State().Replay()
    {
      posted := [];
      if !resolved {
        return;
      }
      for i := 0 to |order|
        invariant posted == State().Backlog(order[..i])
      {
        var queue := messageQueues[order[i]];
        ghost var before := posted;
        for j := 0 to |queue|
          invariant posted == before + queue[..j]
        {
          posted := posted + [queue[j]];
        }
        assert order[..i + 1][..i] == order[..i];
      }
      assert order[..|order|] == order;
    }
  }
}
