/** Extension, webview and the two channels between them as one step system,
    with the history variables the delivery theorems speak about. */
module ChatSystem {
  import opened Collections
  import opened ChatProvider
  import opened ChatWebview

  /** A page is gone, or created but not yet running its script, or running. */
  datatype PageState = Gone | Loading | Live(page: Page)

  datatype Up = NewTab(tab: TabId) | Ready | Acked(tab: TabId, index: nat)

  datatype Step =
    | Resolve
    | Show
    | Hide
    | Destroy(kept: nat)   // the page dies: what was going down is lost, and all but `kept` messages going up
    | Create
    | Load
    | Deliver              // the page handles the next message going down
    | Receive              // the extension handles the next message going up
    | Send(tab: TabId, payload: Payload)
    | AddTab(tab: TabId)
    | Prompt(tab: TabId, prompt: string)
    | Restart              // a new activation of the extension

  /** `sent`, `processed` and `acked` are history: per tab, the payloads the
      extension accepted since the tab was last registered, the messages the webview
      processed, and the highest acknowledgement that arrived, all within the
      current activation. */
  datatype System = System(
    activation: nat, ext: Provider, page: PageState, saved: Saved,
    down: seq<Indexed>, up: seq<Up>,
    sent: map<TabId, seq<Payload>>, processed: map<TabId, seq<Indexed>>, acked: map<TabId, int>)
  {
    function Sent(t: TabId): seq<Payload> { Get(sent, t, []) }

    function Processed(t: TabId): seq<Indexed> { Get(processed, t, []) }

    function HighestAck(t: TabId): int { Get(acked, t, -1) }

    /** The persisted view of the current activation. */
    function Seen(t: TabId): int { saved.For(activation).LastSeen(t) }

    function Cards(t: TabId): seq<Card> { saved.For(activation).Cards(t) }

    /** `postMessage`: nothing arrives when there is no page. */
    function Post(ms: seq<Indexed>): System {
      if page.Gone? then this else this.(down := down + ms)
    }

    function DoDestroy(kept: nat): System {
      this.(page := Gone, down := [], up := if kept < |up| then up[..kept] else up)
    }

    function DoLoad(): System {
      if page.Loading? then
        this.(page := Live(ChatWebview.Load(saved, activation)), saved := saved.For(activation), up := up + [Ready])
      else this
    }

    function DoDeliver(): System {
      if page.Live? && down != [] then
        var m := down[0];
        var (p, acks) := page.page.Receive(m);
        if acks == [] then this.(page := Live(p), down := down[1..])
        else this.(page := Live(p), down := down[1..], saved := p.Save(activation),
                   up := up + [Acked(acks[0].tab, acks[0].index)],
                   processed := processed[m.tab := Processed(m.tab) + [m]])
      else this
    }

    function DoReceive(): System {
      if up == [] then this
      else
        var s := this.(up := up[1..]);
        match up[0]
        case NewTab(t) => s.(ext := ext.Register(t), sent := sent[t := []])
        case Ready => s.Post(ext.Replay())
        case Acked(t, i) =>
          s.(ext := ext.Ack(t, i), acked := acked[t := if i > HighestAck(t) then i else HighestAck(t)])
    }

    function DoSend(t: TabId, payload: Payload): System {
      var (e, posted) := ext.Send(t, payload);
      if ext.Accepts(t) then this.(ext := e, sent := sent[t := Sent(t) + [payload]]).Post(posted) else this
    }

    function DoAddTab(t: TabId): System {
      if page.Live? then this.(up := up + [NewTab(t)], saved := page.page.Save(activation)) else this
    }

    function DoPrompt(t: TabId, prompt: string): System {
      if page.Live? then
        var p := page.page.SetChat(t, page.page.ChatOf(t).Prompt(prompt));
        this.(page := Live(p), saved := p.Save(activation))
      else this
    }

    function DoRestart(): System {
      System(activation + 1, NEW_PROVIDER, Gone, saved, [], [], map[], map[], map[])
    }

    function Next(step: Step): System {
      match step
      case Resolve => this.(ext := ext.(resolved := true))
      case Show => this.(ext := ext.(visible := true))
      case Hide => this.(ext := ext.(visible := false))
      case Destroy(kept) => DoDestroy(kept)
      case Create => if page.Gone? then this.(page := Loading) else this
      case Load => DoLoad()
      case Deliver => DoDeliver()
      case Receive => DoReceive()
      case Send(t, payload) => DoSend(t, payload)
      case AddTab(t) => DoAddTab(t)
      case Prompt(t, prompt) => DoPrompt(t, prompt)
      case Restart => DoRestart()
    }

    function Run(steps: seq<Step>): System
      decreases |steps|
    {
      if steps == [] then this else Next(steps[0]).Run(steps[1..])
    }

    /** A page that is still loading runs its script. */
    function Awake(): System { if page.Loading? then DoLoad() else this }

    /** Handle the next `n` messages going down, then up. */
    function DrainDown(n: nat): System
      decreases n
    {
      if n == 0 then this else DoDeliver().DrainDown(n - 1)
    }

    function DrainUp(n: nat): System
      decreases n
    {
      if n == 0 then this else DoReceive().DrainUp(n - 1)
    }

    /** The webview has seen nothing of the tab and nothing of it is on its way. */
    predicate Clear(t: TabId) {
      Seen(t) == -1 && forall m :: m in down ==> m.tab != t
    }

    /** If the step handles a `new-tab`, the tab is clear. */
    predicate Registers(step: Step) {
      step.Receive? && up != [] && up[0].NewTab? ==> Clear(up[0].tab)
    }

    predicate AllRegister(steps: seq<Step>)
      decreases |steps|
    {
      steps == [] || (Registers(steps[0]) && Next(steps[0]).AllRegister(steps[1..]))
    }

    /** The whole backlog of the tab has been seen, or is on its way to this page. */
    predicate CaughtUp(t: TabId) {
      forall m :: m in ext.Queue(t) ==> m.index <= Seen(t) || m in down
    }

    predicate PostsLive(step: Step) {
      step.Send? && ext.Accepts(step.tab) && ext.visible && !page.Gone?
    }

    /** A live post happens only when the tab is caught up. */
    predicate Careful(step: Step) {
      PostsLive(step) ==> CaughtUp(step.tab)
    }

    predicate AllCareful(steps: seq<Step>)
      decreases |steps|
    {
      steps == [] || (Careful(steps[0]) && Next(steps[0]).AllCareful(steps[1..]))
    }
  }

  const INITIAL := System(0, NEW_PROVIDER, Gone, NoState, [], [], map[], map[], map[])
}
