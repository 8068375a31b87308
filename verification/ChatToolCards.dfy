/** How many cards a tool call gets over a whole run, with reloads and restarts. */
module ChatToolCards {
  import opened ChatProvider
  import opened ChatWebview
  import opened ChatTranscript
  import opened ChatSystem
  import opened ChatConsistency
  import opened ChatAnyRun

  /** The step makes the page process a call of tool `x` for tab `t`. */
  predicate Calls(s: System, step: Step, t: TabId, x: ToolId) {
    && step.Deliver? && s.page.Live? && s.down != []
    && s.down[0].tab == t && s.down[0].index > s.page.page.LastSeen(t)
    && s.down[0].payload.ToolCall? && s.down[0].payload.toolId == x
  }

  /** Whether the present life of the page has processed the call, and how many lives
      of the current activation have. */
  datatype Tally = Tally(known: bool, lives: nat)

  function Counted(s: System, step: Step, t: TabId, x: ToolId, tally: Tally): Tally {
    var called := Calls(s, step, t, x);
    if step.Restart? then Tally(false, 0)
    else Tally(s.Next(step).page.Live? && (tally.known || called),
               if called && !tally.known then tally.lives + 1 else tally.lives)
  }

  function ToolLives(s: System, steps: seq<Step>, t: TabId, x: ToolId, tally: Tally): nat
    decreases |steps|
  {
    if steps == [] then tally.lives
    else ToolLives(s.Next(steps[0]), steps[1..], t, x, Counted(s, steps[0], t, x, tally))
  }

  /** `tabToolCalls` of the present page has the call. */
  predicate Knows(s: System, t: TabId, x: ToolId) {
    s.page.Live? && x in s.page.page.ChatOf(t).stream.tools
  }

  lemma DeliverTool(s: System, t: TabId, x: ToolId)
    requires WebInv(s) && s.page.Live? && s.down != []
    ensures var s', called := s.DoDeliver(), Calls(s, Deliver, t, x);
            && (Knows(s', t, x) <==> Knows(s, t, x) || called)
            && ToolCards(s'.Cards(t), x) == ToolCards(s.Cards(t), x) + if called && !Knows(s, t, x) then 1 else 0
  {
    var m := s.down[0];
    assert LogInv(s, m.tab) && PageInv(s, m.tab) && LogInv(s, t) && PageInv(s, t);
    DeliverEffect(s, t);
    AcceptToolCards(s.page.page.ChatOf(t), FromAgent(m.payload), x);
  }

  lemma PromptTool(s: System, u: TabId, prompt: string, t: TabId, x: ToolId)
    requires WebInv(s) && s.page.Live?
    ensures var s' := s.DoPrompt(u, prompt);
            (Knows(s', t, x) <==> Knows(s, t, x)) && ToolCards(s'.Cards(t), x) == ToolCards(s.Cards(t), x)
  {
    assert PageInv(s, t);
    PromptEffect(s, u, prompt, t);
    AcceptToolCards(s.page.page.ChatOf(t), FromUser(prompt), x);
  }

  lemma QuietTool(s: System, step: Step, t: TabId, x: ToolId)
    requires WebInv(s) && Quiet(step) && !step.Restart?
    ensures var s' := s.Next(step);
            (Knows(s', t, x) <==> s'.page.Live? && Knows(s, t, x)) && s'.Cards(t) == s.Cards(t)
  {
    assert PageInv(s, t);
    QuietEffect(s, step, t);
  }

  lemma NextTool(s: System, step: Step, t: TabId, x: ToolId)
    requires WebInv(s) && !step.Restart?
    ensures var s', called := s.Next(step), Calls(s, step, t, x);
            && (Knows(s', t, x) <==> s'.page.Live? && (Knows(s, t, x) || called))
            && ToolCards(s'.Cards(t), x) == ToolCards(s.Cards(t), x) + if called && !Knows(s, t, x) then 1 else 0
  {
    match step
    case Deliver => if s.page.Live? && s.down != [] { DeliverTool(s, t, x); }
    case Receive => ReceiveEffect(s, t);
    case Prompt(u, prompt) => if s.page.Live? { PromptTool(s, u, prompt, t, x); }
    case Send(u, y) => assert s.Next(step).page == s.page && s.Next(step).saved == s.saved;
    case _ => QuietTool(s, step, t, x);
  }

  /** What the page has: whether it knows the call, and how many cards there are. */
  function Have(s: System, t: TabId, x: ToolId): Tally {
    Tally(Knows(s, t, x), ToolCards(s.Cards(t), x))
  }

  lemma NextHave(s: System, step: Step, t: TabId, x: ToolId)
    requires WebInv(s)
    ensures Counted(s, step, t, x, Have(s, t, x)) == Have(s.Next(step), t, x)
  {
    if step.Restart? {
      assert s.DoRestart().saved.For(s.activation + 1) == NoState;
    } else {
      NextTool(s, step, t, x);
    }
  }

  lemma {:induction false} RunHave(s: System, steps: seq<Step>, t: TabId, x: ToolId)
    requires WebInv(s)
    ensures ToolCards(s.Run(steps).Cards(t), x) == ToolLives(s, steps, t, x, Have(s, t, x))
    decreases |steps|
  {
    if steps != [] {
      NextWeb(s, steps[0]);
      NextHave(s, steps[0], t, x);
      RunHave(s.Next(steps[0]), steps[1..], t, x);
    }
  }

  /** In every run a tool call has as many cards as there were lives of the page, in the
      current activation, that processed it: a second card appears exactly when the call
      is processed again after a reload, and repetitions within one life add none. */
  lemma OneCardPerPageLife(steps: seq<Step>, t: TabId, x: ToolId)
    ensures ToolCards(INITIAL.Run(steps).Cards(t), x) == ToolLives(INITIAL, steps, t, x, Tally(false, 0))
  {
    InitialWeb();
    RunHave(INITIAL, steps, t, x);
  }
}
