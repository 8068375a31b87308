/** What holds in every state of every run of the chat protocol, whatever the
    interleaving of sends, hiding, page deaths, replays, deliveries and acks. */
module ChatConsistency {
  import opened ChatProvider
  import opened ChatWebview
  import opened ChatTranscript
  import opened ChatSystem

  /** `done` is a subsequence of the numbered log `xs`, in strictly increasing order. */
  ghost predicate Logged(t: TabId, xs: seq<Payload>, done: seq<Indexed>) {
    && (forall k :: 0 <= k < |done| ==>
          done[k].index < |xs| && done[k] == Indexed(t, done[k].index, xs[done[k].index]))
    && (forall j, k :: 0 <= j < k < |done| ==> done[j].index < done[k].index)
  }

  function LastIndex(done: seq<Indexed>): int {
    if done == [] then -1 else done[|done| - 1].index
  }

  /** The `agent-text` chunks among processed messages, joined. */
  function TextOf(done: seq<Indexed>): string {
    if done == [] then "" else TextOf(done[..|done| - 1]) + Chunk(done[|done| - 1].payload)
  }

  /** How one tab's counters, queue, log and cards fit together: the queue is the
      part of the sent log above the highest acknowledgement, the persisted
      `lastSeenIndex` is the last index processed and is never overtaken by an
      acknowledgement, and the text cards hold the processed text. */
  ghost predicate TabOk(t: TabId, next: nat, queue: seq<Indexed>, xs: seq<Payload>, ack: int, seen: int,
                        done: seq<Indexed>, cards: seq<Card>)
  {
    && next == |xs|
    && -1 <= ack <= seen < |xs|
    && queue == Stamp(t, xs, ack + 1)
    && Logged(t, xs, done)
    && seen == LastIndex(done)
    && FreshIds(cards)
    && Texts(cards) == TextOf(done)
  }

  ghost predicate TabInv(s: System, t: TabId) {
    TabOk(t, s.ext.Next(t), s.ext.Queue(t), s.Sent(t), s.HighestAck(t), s.Seen(t), s.Processed(t), s.Cards(t))
  }

  /** A running page agrees with what it last saved. */
  ghost predicate PageOk(pageSeen: int, chat: Chat, seen: int, cards: seq<Card>) {
    pageSeen == seen && chat.cards == cards && Sound(chat)
  }

  ghost predicate PageInv(s: System, t: TabId) {
    s.page.Live? ==> PageOk(s.page.page.LastSeen(t), s.page.page.ChatOf(t), s.Seen(t), s.Cards(t))
  }

  ghost predicate DownInv(s: System) {
    && (s.page.Gone? ==> s.down == [])
    && forall m :: m in s.down ==> m.index < |s.Sent(m.tab)| && m.payload == s.Sent(m.tab)[m.index]
  }

  ghost predicate UpInv(s: System) {
    forall u :: u in s.up && u.Acked? ==> u.index <= s.Seen(u.tab)
  }

  ghost predicate Inv(s: System) {
    && s.ext.Valid()
    && (s.saved.SavedState? ==> s.saved.activation <= s.activation)
    && DownInv(s) && UpInv(s)
    && forall t :: TabInv(s, t) && PageInv(s, t)
  }

  lemma StampSnoc(t: TabId, xs: seq<Payload>, from: nat, x: Payload)
    requires from <= |xs|
    ensures Stamp(t, xs + [x], from) == Stamp(t, xs, from) + [Indexed(t, |xs|, x)]
  {
  }

  /** Cumulative acknowledgement of a numbered queue. */
  lemma {:induction false} AboveStamp(t: TabId, xs: seq<Payload>, from: nat, acked: int)
    requires from <= |xs| && acked < |xs|
    ensures Above(Stamp(t, xs, from), acked) == Stamp(t, xs, if acked < from then from else acked + 1)
    decreases |xs|
  {
    if from < |xs| {
      var n := |xs| - 1;
      var q := Stamp(t, xs, from);
      assert xs == xs[..n] + [xs[n]];
      StampSnoc(t, xs[..n], from, xs[n]);
      assert q[..|q| - 1] == Stamp(t, xs[..n], from);
      if acked < n {
        AboveStamp(t, xs[..n], from, acked);
        StampSnoc(t, xs[..n], if acked < from then from else acked + 1, xs[n]);
      } else {
        AboveNothing(t, xs, from, acked);
      }
    }
  }

  lemma {:induction false} AboveNothing(t: TabId, xs: seq<Payload>, from: nat, acked: int)
    requires from <= |xs| <= acked + 1
    ensures Above(Stamp(t, xs, from), acked) == []
    decreases |xs|
  {
    if from < |xs| {
      var n := |xs| - 1;
      var q := Stamp(t, xs, from);
      assert q[..|q| - 1] == Stamp(t, xs[..n], from);
      AboveNothing(t, xs[..n], from, acked);
    }
  }

  lemma SendTab(t: TabId, queue: seq<Indexed>, xs: seq<Payload>, ack: int, seen: int,
                done: seq<Indexed>, cards: seq<Card>, x: Payload)
    requires TabOk(t, |xs|, queue, xs, ack, seen, done, cards)
    ensures TabOk(t, |xs| + 1, queue + [Indexed(t, |xs|, x)], xs + [x], ack, seen, done, cards)
  {
    StampSnoc(t, xs, ack + 1, x);
  }

  lemma AckTab(t: TabId, queue: seq<Indexed>, xs: seq<Payload>, ack: int, seen: int,
               done: seq<Indexed>, cards: seq<Card>, i: nat)
    requires TabOk(t, |xs|, queue, xs, ack, seen, done, cards) && i <= seen
    ensures TabOk(t, |xs|, Above(queue, i), xs, if i > ack then i else ack, seen, done, cards)
  {
    AboveStamp(t, xs, ack + 1, i);
  }

  lemma DeliverTab(t: TabId, queue: seq<Indexed>, xs: seq<Payload>, ack: int, seen: int,
                   done: seq<Indexed>, chat: Chat, m: Indexed)
    requires TabOk(t, |xs|, queue, xs, ack, seen, done, chat.cards) && Sound(chat)
    requires m.tab == t && seen < m.index < |xs| && m.payload == xs[m.index]
    ensures TabOk(t, |xs|, queue, xs, ack, m.index, done + [m], chat.Show(m.payload).cards)
    ensures Sound(chat.Show(m.payload))
  {
    AcceptKeeps(chat, FromAgent(m.payload));
    LogTab(t, queue, xs, ack, seen, done, chat.cards, Accept(chat, FromAgent(m.payload)).cards, m);
  }

  /** One more message in the log, and its text on the cards. */
  lemma LogTab(t: TabId, queue: seq<Indexed>, xs: seq<Payload>, ack: int, seen: int,
               done: seq<Indexed>, cards: seq<Card>, cards': seq<Card>, m: Indexed)
    requires TabOk(t, |xs|, queue, xs, ack, seen, done, cards)
    requires m.tab == t && seen < m.index < |xs| && m.payload == xs[m.index]
    requires FreshIds(cards') && Texts(cards') == Texts(cards) + Chunk(m.payload)
    ensures TabOk(t, |xs|, queue, xs, ack, m.index, done + [m], cards')
  {
    TextOfSnoc(done, m);
    LoggedSnoc(t, xs, done, m);
  }

  lemma LoggedSnoc(t: TabId, xs: seq<Payload>, done: seq<Indexed>, m: Indexed)
    requires Logged(t, xs, done) && m.tab == t && LastIndex(done) < m.index < |xs| && m.payload == xs[m.index]
    ensures Logged(t, xs, done + [m]) && LastIndex(done + [m]) == m.index
  {
  }

  lemma TextOfSnoc(done: seq<Indexed>, m: Indexed)
    ensures TextOf(done + [m]) == TextOf(done) + Chunk(m.payload)
  {
    assert (done + [m])[..|done|] == done;
  }

  /** What one send changes, seen from tab `u`. */
  lemma SendEffect(s: System, t: TabId, x: Payload, u: TabId)
    requires s.ext.Accepts(t)
    ensures var s' := s.DoSend(t, x);
            && s'.Sent(u) == (if u == t then s.Sent(u) + [x] else s.Sent(u))
            && s'.ext.Next(u) == (if u == t then s.ext.Next(u) + 1 else s.ext.Next(u))
            && s'.ext.Queue(u) == (if u == t then s.ext.Queue(u) + [Indexed(t, s.ext.Next(t), x)] else s.ext.Queue(u))
            && s'.Seen(u) == s.Seen(u) && s'.Processed(u) == s.Processed(u) && s'.Cards(u) == s.Cards(u)
            && s'.HighestAck(u) == s.HighestAck(u) && s'.page == s.page
            && s'.down == if s.PostsLive(Send(t, x)) then s.down + [Indexed(t, s.ext.Next(t), x)] else s.down
  {
  }

  lemma SendTabInv(s: System, t: TabId, x: Payload, u: TabId)
    requires s.ext.Accepts(t) && TabInv(s, u) && PageInv(s, u)
    ensures TabInv(s.DoSend(t, x), u) && PageInv(s.DoSend(t, x), u)
  {
    SendEffect(s, t, x, u);
    if u == t {
      SendTab(t, s.ext.Queue(t), s.Sent(t), s.HighestAck(t), s.Seen(t), s.Processed(t), s.Cards(t), x);
    }
  }

  lemma SendDown(s: System, t: TabId, x: Payload)
    requires s.ext.Accepts(t) && DownInv(s) && s.ext.Next(t) == |s.Sent(t)|
    ensures DownInv(s.DoSend(t, x))
  {
    var s' := s.DoSend(t, x);
    forall m | m in s'.down ensures m.index < |s'.Sent(m.tab)| && m.payload == s'.Sent(m.tab)[m.index] {
      assert m in s.down || m == Indexed(t, |s.Sent(t)|, x);
    }
  }

  lemma SetQueueValid(p: Provider, t: TabId, queue: seq<Indexed>)
    requires p.Valid()
    ensures p.SetQueue(t, queue).Valid()
  {
    var p' := p.SetQueue(t, queue);
    assert p'.order == p.order || p'.order == p.order + [t];
    forall u ensures u in p'.order <==> u in p'.queues {
      assert u in p.order <==> u in p.queues;
    }
  }

  lemma SendKeeps(s: System, t: TabId, x: Payload)
    requires Inv(s)
    ensures Inv(s.DoSend(t, x))
  {
    var s' := s.DoSend(t, x);
    if s.ext.Accepts(t) {
      forall u ensures TabInv(s', u) && PageInv(s', u) {
        SendTabInv(s, t, x, u);
      }
      assert TabInv(s, t);
      SendDown(s, t, x);
      SetQueueValid(s.ext, t, s.ext.Queue(t) + [Indexed(t, s.ext.Next(t), x)]);
    }
  }

  lemma DeliverTabInv(s: System, u: TabId)
    requires s.page.Live? && s.down != [] && DownInv(s)
    requires s.saved.SavedState? ==> s.saved.activation <= s.activation
    requires TabInv(s, s.down[0].tab) && PageInv(s, s.down[0].tab) && TabInv(s, u) && PageInv(s, u)
    ensures TabInv(s.DoDeliver(), u) && PageInv(s.DoDeliver(), u) && s.Seen(u) <= s.DoDeliver().Seen(u)
  {
    var m := s.down[0];
    assert m in s.down;
    DeliverEffect(s, u);
    if u == m.tab && m.index > s.Seen(u) {
      DeliverTab(u, s.ext.Queue(u), s.Sent(u), s.HighestAck(u), s.Seen(u), s.Processed(u), s.page.page.ChatOf(u), m);
    }
  }

  lemma DeliverAck(s: System, u: Up)
    requires s.page.Live? && s.down != [] && (s.saved.SavedState? ==> s.saved.activation <= s.activation)
    requires u.Acked? && PageInv(s, s.down[0].tab) && PageInv(s, u.tab)
    requires u in s.up ==> u.index <= s.Seen(u.tab)
    ensures u in s.DoDeliver().up ==> u.index <= s.DoDeliver().Seen(u.tab)
  {
    var m := s.down[0];
    DeliverEffect(s, m.tab);
    DeliverEffect(s, u.tab);
    assert u in s.DoDeliver().up ==> u in s.up || u == Acked(m.tab, m.index);
  }

  lemma DeliverUp(s: System)
    requires Inv(s) && s.page.Live? && s.down != []
    ensures UpInv(s.DoDeliver())
  {
    var s' := s.DoDeliver();
    forall u | u in s'.up && u.Acked? ensures u.index <= s'.Seen(u.tab) {
      assert PageInv(s, s.down[0].tab) && PageInv(s, u.tab);
      DeliverAck(s, u);
    }
  }

  lemma DeliverKeeps(s: System)
    requires Inv(s)
    ensures Inv(s.DoDeliver())
  {
    var s' := s.DoDeliver();
    if s.page.Live? && s.down != [] {
      var t := s.down[0].tab;
      assert TabInv(s, t) && PageInv(s, t);
      forall u ensures TabInv(s', u) && PageInv(s', u) {
        assert TabInv(s, u) && PageInv(s, u);
        DeliverTabInv(s, u);
      }
      DeliverUp(s);
    }
  }

  /** What one delivery changes, seen from tab `u`. */
  lemma DeliverEffect(s: System, u: TabId)
    requires s.page.Live? && s.down != [] && (s.saved.SavedState? ==> s.saved.activation <= s.activation)
    requires s.page.page.LastSeen(s.down[0].tab) == s.Seen(s.down[0].tab)
    requires s.page.page.LastSeen(u) == s.Seen(u) && s.page.page.ChatOf(u).cards == s.Cards(u)
    ensures var m := s.down[0];
            var s' := s.DoDeliver();
            var isNew := u == m.tab && m.index > s.Seen(u);
            && s'.page.Live?
            && s'.Seen(u) == s'.page.page.LastSeen(u) == (if isNew then m.index else s.Seen(u))
            && s'.Processed(u) == (if isNew then s.Processed(u) + [m] else s.Processed(u))
            && s'.page.page.ChatOf(u)
               == (if isNew then s.page.page.ChatOf(u).Show(m.payload) else s.page.page.ChatOf(u))
            && s'.Cards(u) == s'.page.page.ChatOf(u).cards
            && s'.down == s.down[1..]
            && s'.up == s.up + (if m.index > s.Seen(m.tab) then [Acked(m.tab, m.index)] else [])
  {
  }

  lemma {:induction false} ReplayIsQueued(p: Provider, tabs: seq<TabId>, m: Indexed)
    requires m in p.Backlog(tabs)
    ensures exists t :: t in tabs && m in p.Queue(t)
  {
    var n := |tabs| - 1;
    if m in p.Backlog(tabs[..n]) {
      ReplayIsQueued(p, tabs[..n], m);
    } else {
      assert tabs[n] in tabs;
    }
  }

  /** Handling a message going up: a replay adds to the channel, a registration starts
      a new sent log. */
  lemma ReceiveEffect(s: System, u: TabId)
    ensures var s' := s.DoReceive();
            && s'.Sent(u) == (if s.up != [] && s.up[0] == NewTab(u) then [] else s.Sent(u))
            && s'.Seen(u) == s.Seen(u) && s'.Processed(u) == s.Processed(u)
            && s'.Cards(u) == s.Cards(u)
            && s'.page == s.page && s'.up == (if s.up == [] then [] else s.up[1..])
            && s'.down == if s.up != [] && s.up[0].Ready? && !s.page.Gone? then s.down + s.ext.Replay() else s.down
  {
  }

  lemma AckedTabInv(s: System, u: TabId)
    requires s.up != [] && s.up[0].Acked? && UpInv(s) && TabInv(s, u) && PageInv(s, u)
    ensures TabInv(s.DoReceive(), u) && PageInv(s.DoReceive(), u)
  {
    var s' := s.DoReceive();
    var t, i := s.up[0].tab, s.up[0].index;
    assert s.up[0] in s.up;
    if u == t {
      assert s'.ext.Queue(t) == Above(s.ext.Queue(t), i);
      AckTab(t, s.ext.Queue(t), s.Sent(t), s.HighestAck(t), s.Seen(t), s.Processed(t), s.Cards(t), i);
    }
  }

  lemma NewTabTabInv(s: System, u: TabId)
    requires s.up != [] && s.up[0].NewTab? && s.Registers(Receive) && TabInv(s, u) && PageInv(s, u)
    ensures TabInv(s.DoReceive(), u) && PageInv(s.DoReceive(), u)
  {
    var s' := s.DoReceive();
    if u == s.up[0].tab {
      assert s.Processed(u) == [];
      assert s'.ext.Queue(u) == [] == Stamp(u, [], s.HighestAck(u) + 1);
    } else {
      assert s'.ext.Queue(u) == s.ext.Queue(u);
    }
  }

  lemma ReplayDown(s: System)
    requires Inv(s)
    ensures DownInv(s.Post(s.ext.Replay()))
  {
    var s' := s.Post(s.ext.Replay());
    forall m | m in s'.down ensures m.index < |s'.Sent(m.tab)| && m.payload == s'.Sent(m.tab)[m.index] {
      if m !in s.down {
        ReplayIsQueued(s.ext, s.ext.order, m);
        var t :| t in s.ext.order && m in s.ext.Queue(t);
        assert TabInv(s, t);
      }
    }
  }

  lemma NewTabKeeps(s: System)
    requires Inv(s) && s.up != [] && s.up[0].NewTab? && s.Registers(Receive)
    ensures Inv(s.DoReceive())
  {
    var s' := s.DoReceive();
    var t := s.up[0].tab;
    forall u ensures TabInv(s', u) && PageInv(s', u) {
      assert TabInv(s, u) && PageInv(s, u);
      NewTabTabInv(s, u);
    }
    SetQueueValid(s.ext, t, []);
    UpOfReceive(s);
  }

  lemma AckedKeeps(s: System)
    requires Inv(s) && s.up != [] && s.up[0].Acked?
    ensures Inv(s.DoReceive())
  {
    var s' := s.DoReceive();
    forall u ensures TabInv(s', u) && PageInv(s', u) {
      assert TabInv(s, u) && PageInv(s, u);
      AckedTabInv(s, u);
    }
    SetQueueValid(s.ext, s.up[0].tab, Above(s.ext.Queue(s.up[0].tab), s.up[0].index));
    UpOfReceive(s);
  }

  lemma ReadyKeeps(s: System)
    requires Inv(s) && s.up != [] && s.up[0].Ready?
    ensures Inv(s.DoReceive())
  {
    var s' := s.DoReceive();
    forall u ensures TabInv(s', u) && PageInv(s', u) {
      assert TabInv(s, u) && PageInv(s, u);
    }
    ReplayDown(s);
    UpOfReceive(s);
  }

  lemma UpOfReceive(s: System)
    requires UpInv(s)
    ensures UpInv(s.DoReceive())
  {
    forall u | u in s.DoReceive().up && u.Acked? ensures u.index <= s.DoReceive().Seen(u.tab) {
      ReceiveEffect(s, u.tab);
      assert u in s.up;
    }
  }

  lemma ReceiveKeeps(s: System)
    requires Inv(s) && s.Registers(Receive)
    ensures Inv(s.DoReceive())
  {
    if s.up != [] {
      match s.up[0] {
        case NewTab(_) => NewTabKeeps(s);
        case Acked(_, _) => AckedKeeps(s);
        case Ready => ReadyKeeps(s);
      }
    }
  }

  lemma PromptTab(t: TabId, queue: seq<Indexed>, xs: seq<Payload>, ack: int, seen: int,
                  done: seq<Indexed>, chat: Chat, prompt: string)
    requires TabOk(t, |xs|, queue, xs, ack, seen, done, chat.cards) && Sound(chat)
    ensures TabOk(t, |xs|, queue, xs, ack, seen, done, chat.Prompt(prompt).cards)
    ensures Sound(chat.Prompt(prompt))
  {
    AcceptKeeps(chat, FromUser(prompt));
  }

  /** What a prompt changes, seen from tab `u`. */
  lemma PromptEffect(s: System, t: TabId, prompt: string, u: TabId)
    requires s.page.Live?
    ensures var s' := s.DoPrompt(t, prompt);
            && s'.page.Live? && s'.Seen(u) == s'.page.page.LastSeen(u) == s.page.page.LastSeen(u)
            && s'.page.page.ChatOf(u)
               == (if u == t then s.page.page.ChatOf(u).Prompt(prompt) else s.page.page.ChatOf(u))
            && s'.Cards(u) == s'.page.page.ChatOf(u).cards
  {
  }

  lemma PromptTabInv(s: System, t: TabId, prompt: string, u: TabId)
    requires s.page.Live? && TabInv(s, u) && PageInv(s, u)
    ensures var s' := s.DoPrompt(t, prompt);
            TabInv(s', u) && PageInv(s', u) && s'.Seen(u) == s.Seen(u)
  {
    PromptEffect(s, t, prompt, u);
    if u == t {
      PromptTab(t, s.ext.Queue(t), s.Sent(t), s.HighestAck(t), s.Seen(t), s.Processed(t), s.page.page.ChatOf(t),
                prompt);
    }
  }

  lemma PromptKeeps(s: System, t: TabId, prompt: string)
    requires Inv(s)
    ensures Inv(s.DoPrompt(t, prompt))
  {
    var s' := s.DoPrompt(t, prompt);
    if s.page.Live? {
      forall u ensures TabInv(s', u) && PageInv(s', u) && s'.Seen(u) == s.Seen(u) {
        assert TabInv(s, u) && PageInv(s, u);
        PromptTabInv(s, t, prompt, u);
      }
    }
  }

  predicate Quiet(step: Step) { !(step.Send? || step.Deliver? || step.Receive? || step.Prompt?) }

  /** The remaining steps change neither the counters nor what has been seen. */
  lemma QuietTabInv(s: System, step: Step, u: TabId)
    requires Quiet(step) && TabInv(s, u) && PageInv(s, u)
    requires s.saved.SavedState? ==> s.saved.activation <= s.activation
    ensures var s' := s.Next(step);
            TabInv(s', u) && PageInv(s', u) && (!step.Restart? ==> s'.Seen(u) == s.Seen(u))
  {
    if step.Restart? {
      RestartTabInv(s, u);
    } else {
      QuietEffect(s, step, u);
    }
  }

  lemma RestartTabInv(s: System, u: TabId)
    requires s.saved.SavedState? ==> s.saved.activation <= s.activation
    ensures TabInv(s.DoRestart(), u) && PageInv(s.DoRestart(), u)
  {
    assert s.DoRestart().saved.For(s.activation + 1) == NoState;
  }

  lemma QuietEffect(s: System, step: Step, u: TabId)
    requires Quiet(step) && !step.Restart?
    requires s.page.Live? ==> s.page.page.LastSeen(u) == s.Seen(u) && s.page.page.ChatOf(u).cards == s.Cards(u)
    ensures var s' := s.Next(step);
            && s'.Seen(u) == s.Seen(u) && s'.Cards(u) == s.Cards(u)
            && (s'.page.Live? ==> s'.page.page.LastSeen(u) == s.Seen(u))
            && (s'.page.Live? ==> s'.page.page.ChatOf(u) == Chat(IDLE, s.Cards(u)) || s'.page == s.page)
  {
  }

  lemma QuietKeeps(s: System, step: Step)
    requires Inv(s) && Quiet(step)
    ensures Inv(s.Next(step))
  {
    var s' := s.Next(step);
    forall u ensures TabInv(s', u) && PageInv(s', u) && (!step.Restart? ==> s'.Seen(u) == s.Seen(u)) {
      assert TabInv(s, u) && PageInv(s, u);
      QuietTabInv(s, step, u);
    }
    forall u | u in s'.up && u.Acked? ensures u.index <= s'.Seen(u.tab) {
      assert u in s.up;
    }
  }

  lemma NextKeeps(s: System, step: Step)
    requires Inv(s) && s.Registers(step)
    ensures Inv(s.Next(step))
  {
    match step {
      case Send(t, x) => SendKeeps(s, t, x);
      case Deliver => DeliverKeeps(s);
      case Receive => ReceiveKeeps(s);
      case Prompt(t, prompt) => PromptKeeps(s, t, prompt);
      case _ => QuietKeeps(s, step);
    }
  }

  /** The invariant of every run that registers tabs before sending to them. */
  lemma {:induction false} RunKeeps(s: System, steps: seq<Step>)
    requires Inv(s) && s.AllRegister(steps)
    ensures Inv(s.Run(steps))
    decreases |steps|
  {
    if steps != [] {
      NextKeeps(s, steps[0]);
      RunKeeps(s.Next(steps[0]), steps[1..]);
    }
  }

}
