/** What the webview keeps in every run of the chat protocol, however tabs are
    registered, live posts are timed, and pages and activations come and go. */
module ChatAnyRun {
  import opened ChatProvider
  import opened ChatWebview
  import opened ChatTranscript
  import opened ChatSystem
  import opened ChatConsistency

  /** Messages of one tab, with strictly increasing indices. */
  ghost predicate Increasing(t: TabId, done: seq<Indexed>) {
    && (forall k :: 0 <= k < |done| ==> done[k].tab == t)
    && (forall j, k :: 0 <= j < k < |done| ==> done[j].index < done[k].index)
  }

  /** The log increases up to the last index seen, and the cards hold its text. */
  ghost predicate LogOk(t: TabId, seen: int, done: seq<Indexed>, cards: seq<Card>) {
    && Increasing(t, done)
    && seen == LastIndex(done)
    && FreshIds(cards)
    && Texts(cards) == TextOf(done)
  }

  ghost predicate LogInv(s: System, t: TabId) { LogOk(t, s.Seen(t), s.Processed(t), s.Cards(t)) }

  ghost predicate WebInv(s: System) {
    && (s.saved.SavedState? ==> s.saved.activation <= s.activation)
    && forall t :: LogInv(s, t) && PageInv(s, t)
  }

  lemma InvIsWebInv(s: System)
    requires Inv(s)
    ensures WebInv(s)
  {
    forall t ensures LogInv(s, t) && PageInv(s, t) {
      assert TabInv(s, t) && PageInv(s, t);
    }
  }

  lemma LogSnoc(t: TabId, seen: int, done: seq<Indexed>, cards: seq<Card>, cards': seq<Card>, m: Indexed)
    requires LogOk(t, seen, done, cards) && m.tab == t && m.index > seen
    requires FreshIds(cards') && Texts(cards') == Texts(cards) + Chunk(m.payload)
    ensures LogOk(t, m.index, done + [m], cards')
  {
    TextOfSnoc(done, m);
    IncreasingSnoc(t, done, m);
  }

  lemma IncreasingSnoc(t: TabId, done: seq<Indexed>, m: Indexed)
    requires Increasing(t, done) && m.tab == t && m.index > LastIndex(done)
    ensures Increasing(t, done + [m]) && LastIndex(done + [m]) == m.index
  {
  }

  /** One message read by the page. */
  lemma DeliverLog(s: System, u: TabId)
    requires WebInv(s) && s.page.Live? && s.down != []
    ensures LogInv(s.DoDeliver(), u) && PageInv(s.DoDeliver(), u)
  {
    var m := s.down[0];
    assert LogInv(s, m.tab) && PageInv(s, m.tab) && LogInv(s, u) && PageInv(s, u);
    DeliverEffect(s, u);
    if u == m.tab && m.index > s.Seen(u) {
      var chat := s.page.page.ChatOf(u);
      AcceptKeeps(chat, FromAgent(m.payload));
      LogSnoc(u, s.Seen(u), s.Processed(u), chat.cards, Accept(chat, FromAgent(m.payload)).cards, m);
    }
  }

  /** A prompt adds cards without agent text. */
  lemma PromptLog(s: System, t: TabId, prompt: string, u: TabId)
    requires WebInv(s) && s.page.Live?
    ensures LogInv(s.DoPrompt(t, prompt), u) && PageInv(s.DoPrompt(t, prompt), u)
  {
    assert LogInv(s, u) && PageInv(s, u);
    PromptEffect(s, t, prompt, u);
    if u == t {
      AcceptKeeps(s.page.page.ChatOf(t), FromUser(prompt));
    }
  }

  lemma QuietLog(s: System, step: Step, u: TabId)
    requires WebInv(s) && Quiet(step)
    ensures LogInv(s.Next(step), u) && PageInv(s.Next(step), u)
  {
    assert LogInv(s, u) && PageInv(s, u);
    if step.Restart? {
      assert s.DoRestart().saved.For(s.activation + 1) == NoState;
    } else {
      QuietEffect(s, step, u);
    }
  }

  lemma NextLog(s: System, step: Step, u: TabId)
    requires WebInv(s)
    ensures LogInv(s.Next(step), u) && PageInv(s.Next(step), u)
  {
    assert LogInv(s, u) && PageInv(s, u);
    match step {
      case Send(t, x) => assert s.Next(step).Seen(u) == s.Seen(u) && s.Next(step).Cards(u) == s.Cards(u);
      case Deliver => if s.page.Live? && s.down != [] { DeliverLog(s, u); }
      case Receive => ReceiveEffect(s, u);
      case Prompt(t, prompt) => if s.page.Live? { PromptLog(s, t, prompt, u); }
      case _ => QuietLog(s, step, u);
    }
  }

  lemma NextWeb(s: System, step: Step)
    requires WebInv(s)
    ensures WebInv(s.Next(step))
  {
    forall u ensures LogInv(s.Next(step), u) && PageInv(s.Next(step), u) {
      NextLog(s, step, u);
    }
  }

  lemma {:induction false} RunWeb(s: System, steps: seq<Step>)
    requires WebInv(s)
    ensures WebInv(s.Run(steps))
    decreases |steps|
  {
    if steps != [] {
      NextWeb(s, steps[0]);
      RunWeb(s.Next(steps[0]), steps[1..]);
    }
  }

  lemma InitialWeb()
    ensures WebInv(INITIAL)
  {
    forall u ensures LogInv(INITIAL, u) && PageInv(INITIAL, u) {
    }
  }

  /** In every run whatsoever, each tab's processed indices strictly increase, the
      persisted `lastSeenIndex` is the last of them, and the tab's text cards hold
      exactly the text of what was processed. */
  lemma AlwaysIncreasing(steps: seq<Step>, t: TabId)
    ensures var s := INITIAL.Run(steps);
            && (forall j, k :: 0 <= j < k < |s.Processed(t)| ==> s.Processed(t)[j].index < s.Processed(t)[k].index)
            && s.Seen(t) == LastIndex(s.Processed(t))
            && Texts(s.Cards(t)) == TextOf(s.Processed(t))
  {
    InitialWeb();
    RunWeb(INITIAL, steps);
    assert LogInv(INITIAL.Run(steps), t);
  }

  /** What the page processes in one step: nothing, or a message that is new to it. */
  ghost predicate OnlyNew(s: System, s': System, t: TabId) {
    s'.Seen(t) >= s.Seen(t) && forall m :: m in s'.Processed(t) ==> m in s.Processed(t) || m.index > s.Seen(t)
  }

  lemma DeliverNew(s: System, t: TabId)
    requires WebInv(s) && s.page.Live? && s.down != []
    ensures OnlyNew(s, s.DoDeliver(), t)
  {
    assert LogInv(s, s.down[0].tab) && PageInv(s, s.down[0].tab) && LogInv(s, t) && PageInv(s, t);
    DeliverEffect(s, t);
  }

  lemma PromptNew(s: System, u: TabId, prompt: string, t: TabId)
    requires WebInv(s) && s.page.Live?
    ensures OnlyNew(s, s.DoPrompt(u, prompt), t)
  {
    assert PageInv(s, t);
    PromptEffect(s, u, prompt, t);
  }

  lemma QuietNew(s: System, step: Step, t: TabId)
    requires WebInv(s) && Quiet(step) && !step.Restart?
    ensures OnlyNew(s, s.Next(step), t)
  {
    assert PageInv(s, t);
    QuietEffect(s, step, t);
  }

  lemma NextProcessed(s: System, step: Step, t: TabId)
    requires WebInv(s) && !step.Restart?
    ensures OnlyNew(s, s.Next(step), t)
  {
    match step
    case Deliver => if s.page.Live? && s.down != [] { DeliverNew(s, t); }
    case Receive => ReceiveEffect(s, t);
    case Prompt(u, prompt) => if s.page.Live? { PromptNew(s, u, prompt, t); }
    case Send(u, x) => assert s.Next(step).Processed(t) == s.Processed(t);
    case _ => QuietNew(s, step, t);
  }

  /** An index that was skipped is never processed later in the activation. */
  lemma {:induction false} SkippedIsLost(s: System, steps: seq<Step>, t: TabId, i: nat)
    requires WebInv(s) && Restart !in steps
    requires i <= s.Seen(t) && forall m :: m in s.Processed(t) ==> m.index != i
    ensures i <= s.Run(steps).Seen(t) && forall m :: m in s.Run(steps).Processed(t) ==> m.index != i
    decreases |steps|
  {
    if steps != [] {
      var s' := s.Next(steps[0]);
      NextWeb(s, steps[0]);
      NextProcessed(s, steps[0], t);
      SkippedIsLost(s', steps[1..], t, i);
    }
  }
}
