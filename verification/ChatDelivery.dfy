/** Delivery guarantees of the chat protocol: exactly-once in-order delivery, the
    exact condition under which a live post is safe, what is lost otherwise, and
    what a replay restores. */
module ChatDelivery {
  import opened Collections
  import opened ChatProvider
  import opened ChatTranscript
  import opened ChatSystem
  import opened ChatConsistency

  /** The last index tab `t` will have seen once `down` is handled. */
  function Reach(seen: int, down: seq<Indexed>, t: TabId): int {
    if down == [] then seen
    else
      var r := Reach(seen, down[..|down| - 1], t);
      var m := down[|down| - 1];
      if m.tab == t && m.index > r then m.index else r
  }

  /** Handling `down` never skips an index of tab `t`. */
  ghost predicate Gapless(seen: int, down: seq<Indexed>, t: TabId) {
    down == [] ||
    (var n := |down| - 1;
     Gapless(seen, down[..n], t) && (down[n].tab == t ==> down[n].index <= Reach(seen, down[..n], t) + 1))
  }

  /** A prefix of the sent log was processed and nothing in flight skips. */
  ghost predicate Orderly(t: TabId, xs: seq<Payload>, seen: int, done: seq<Indexed>, down: seq<Indexed>) {
    && -1 <= seen < |xs|
    && done == Stamp(t, xs[..seen + 1], 0)
    && Gapless(seen, down, t)
  }

  ghost predicate InOrder(s: System, t: TabId) {
    Orderly(t, s.Sent(t), s.Seen(t), s.Processed(t), s.down)
  }

  ghost predicate GapFree(s: System) {
    forall t :: InOrder(s, t)
  }

  // ----- channels -----

  lemma {:induction false} ReachAppend(seen: int, a: seq<Indexed>, b: seq<Indexed>, t: TabId)
    ensures Reach(seen, a + b, t) == Reach(Reach(seen, a, t), b, t)
    ensures Gapless(seen, a + b, t) <==> Gapless(seen, a, t) && Gapless(Reach(seen, a, t), b, t)
    decreases |b|
  {
    if b == [] {
      assert a + b == a;
    } else {
      var n := |b| - 1;
      assert (a + b)[..|a + b| - 1] == a + b[..n];
      ReachAppend(seen, a, b[..n], t);
    }
  }

  /** A queue whose first index is at most one past what is seen closes no gap wrongly. */
  lemma {:induction false} StampGapless(seen: int, t: TabId, xs: seq<Payload>, from: nat)
    requires from <= |xs| && from <= seen + 1
    ensures Gapless(seen, Stamp(t, xs, from), t)
    ensures Reach(seen, Stamp(t, xs, from), t) == if |xs| - 1 > seen && from < |xs| then |xs| - 1 else seen
    decreases |xs|
  {
    if from < |xs| {
      var n := |xs| - 1;
      var q := Stamp(t, xs, from);
      assert q[..|q| - 1] == Stamp(t, xs[..n], from);
      StampGapless(seen, t, xs[..n], from);
    }
  }

  lemma {:induction false} OtherTabs(seen: int, down: seq<Indexed>, t: TabId)
    requires forall m :: m in down ==> m.tab != t
    ensures Reach(seen, down, t) == seen && Gapless(seen, down, t)
    decreases |down|
  {
    if down != [] {
      OtherTabs(seen, down[..|down| - 1], t);
    }
  }

  lemma {:induction false} ReachBounds(seen: int, down: seq<Indexed>, t: TabId, top: int)
    requires seen <= top && forall m :: m in down && m.tab == t ==> m.index <= top
    ensures seen <= Reach(seen, down, t) <= top
    ensures forall m :: m in down && m.tab == t ==> m.index <= Reach(seen, down, t)
    ensures Reach(seen, down, t) == seen || exists m :: m in down && m.tab == t && m.index == Reach(seen, down, t)
    decreases |down|
  {
    if down != [] {
      var n := |down| - 1;
      assert forall m :: m in down <==> m in down[..n] || m == down[n];
      ReachBounds(seen, down[..n], t, top);
    }
  }

  /** One queue of a replay, for a page that has read up to `r` of tab `t`. */
  lemma QueueGapless(p: Provider, u: TabId, t: TabId, xs: seq<Payload>, ack: int, r: int)
    requires -1 <= ack <= r < |xs| && p.Queue(t) == Stamp(t, xs, ack + 1)
    requires forall m :: m in p.Queue(u) ==> m.tab == u
    ensures Gapless(r, p.Queue(u), t) && Reach(r, p.Queue(u), t) == if u == t then |xs| - 1 else r
  {
    if u == t {
      StampGapless(r, t, xs, ack + 1);
    } else {
      OtherTabs(r, p.Queue(u), t);
    }
  }

  /** A whole replay is gapless: queues of other tabs do not matter, and a queue
      starts at most one past the highest acknowledgement. */
  lemma {:induction false} BacklogGapless(p: Provider, tabs: seq<TabId>, t: TabId, xs: seq<Payload>, ack: int,
                                          seen: int)
    requires Distinct(tabs) && -1 <= ack <= seen < |xs| && p.Queue(t) == Stamp(t, xs, ack + 1)
    requires forall u, m :: m in p.Queue(u) ==> m.tab == u
    ensures Gapless(seen, p.Backlog(tabs), t)
    ensures Reach(seen, p.Backlog(tabs), t) == if t in tabs then |xs| - 1 else seen
    decreases |tabs|
  {
    if tabs != [] {
      var n := |tabs| - 1;
      BacklogGapless(p, tabs[..n], t, xs, ack, seen);
      ReachAppend(seen, p.Backlog(tabs[..n]), p.Queue(tabs[n]), t);
      QueueGapless(p, tabs[n], t, xs, ack, Reach(seen, p.Backlog(tabs[..n]), t));
      assert t in tabs <==> t in tabs[..n] || t == tabs[n];
    }
  }

  // ----- facts of one tab -----

  lemma Facts(s: System, t: TabId)
    requires Inv(s)
    ensures s.ext.Next(t) == |s.Sent(t)| && -1 <= s.HighestAck(t) <= s.Seen(t) < |s.Sent(t)|
    ensures s.ext.Queue(t) == Stamp(t, s.Sent(t), s.HighestAck(t) + 1)
    ensures Logged(t, s.Sent(t), s.Processed(t)) && s.Seen(t) == LastIndex(s.Processed(t))
    ensures Texts(s.Cards(t)) == TextOf(s.Processed(t))
    ensures s.page.Live? ==> s.page.page.LastSeen(t) == s.Seen(t) && s.page.page.ChatOf(t).cards == s.Cards(t)
  {
    assert TabInv(s, t) && PageInv(s, t);
  }

  lemma QueueTabs(s: System)
    requires Inv(s)
    ensures forall u, m :: m in s.ext.Queue(u) ==> m.tab == u
  {
    forall u, m | m in s.ext.Queue(u) ensures m.tab == u {
      Facts(s, u);
    }
  }

  /** What is in flight for a tab lies within its sent log. */
  lemma InFlight(s: System, t: TabId)
    requires Inv(s)
    ensures -1 <= s.Seen(t) <= Reach(s.Seen(t), s.down, t) < |s.Sent(t)|
    ensures forall m :: m in s.down && m.tab == t ==> m.index <= Reach(s.Seen(t), s.down, t)
  {
    Facts(s, t);
    ReachBounds(s.Seen(t), s.down, t, |s.Sent(t)| - 1);
  }

  /** On a gapless channel every index up to the reach is actually in it. */
  lemma {:induction false} ReachCovers(seen: int, down: seq<Indexed>, t: TabId, i: int) returns (m: Indexed)
    requires Gapless(seen, down, t) && seen < i <= Reach(seen, down, t)
    ensures m in down && m.tab == t && m.index == i
    decreases |down|
  {
    var n := |down| - 1;
    if i <= Reach(seen, down[..n], t) {
      m := ReachCovers(seen, down[..n], t, i);
    } else {
      m := down[n];
    }
  }

  // ----- steps -----

  lemma ReachedIsCaughtUp(s: System, t: TabId)
    requires Inv(s) && Gapless(s.Seen(t), s.down, t) && Reach(s.Seen(t), s.down, t) == |s.Sent(t)| - 1
    ensures s.CaughtUp(t)
  {
    Facts(s, t);
    forall m | m in s.ext.Queue(t) ensures m.index <= s.Seen(t) || m in s.down {
      if m.index > s.Seen(t) {
        var found := ReachCovers(s.Seen(t), s.down, t, m.index);
        assert found == m;
      }
    }
  }

  lemma CaughtUpIsReached(s: System, t: TabId)
    requires Inv(s) && s.CaughtUp(t)
    ensures Reach(s.Seen(t), s.down, t) == |s.Sent(t)| - 1
  {
    Facts(s, t);
    InFlight(s, t);
    var q := s.ext.Queue(t);
    if q != [] {
      assert q[|q| - 1] == Indexed(t, |s.Sent(t)| - 1, s.Sent(t)[|s.Sent(t)| - 1]) && q[|q| - 1] in q;
    }
  }

  /** Being caught up means exactly that the newest message is seen or in flight,
      which is what draining will reach. */
  lemma CaughtUpReach(s: System, t: TabId)
    requires Inv(s) && Gapless(s.Seen(t), s.down, t)
    ensures s.CaughtUp(t) <==> Reach(s.Seen(t), s.down, t) == |s.Sent(t)| - 1
  {
    if s.CaughtUp(t) {
      CaughtUpIsReached(s, t);
    }
    if Reach(s.Seen(t), s.down, t) == |s.Sent(t)| - 1 {
      ReachedIsCaughtUp(s, t);
    }
  }

  /** A longer sent log, and possibly one more message in flight that fits. */
  lemma SendOrderly(t: TabId, xs: seq<Payload>, seen: int, done: seq<Indexed>, down: seq<Indexed>, x: Payload,
                    m: Indexed)
    requires Orderly(t, xs, seen, done, down)
    ensures Orderly(t, xs + [x], seen, done, down)
    ensures m.tab != t ==> Orderly(t, xs, seen, done, down + [m])
    ensures m.tab == t && m.index <= Reach(seen, down, t) + 1 ==> Orderly(t, xs + [x], seen, done, down + [m])
  {
    assert (xs + [x])[..seen + 1] == xs[..seen + 1];
    assert (down + [m])[..|down|] == down;
  }

  /** A careful live post fits behind what is in flight. */
  lemma CarefulFits(s: System, t: TabId, x: Payload)
    requires Inv(s) && InOrder(s, t) && s.Careful(Send(t, x)) && s.PostsLive(Send(t, x))
    ensures s.ext.Next(t) <= Reach(s.Seen(t), s.down, t) + 1
  {
    CaughtUpReach(s, t);
    Facts(s, t);
  }

  lemma FittingInOrder(s: System, t: TabId, x: Payload, u: TabId)
    requires InOrder(s, u) && s.ext.Accepts(t) && s.ext.Next(t) == |s.Sent(t)|
    requires u == t && s.PostsLive(Send(t, x)) ==> s.ext.Next(t) <= Reach(s.Seen(t), s.down, t) + 1
    ensures InOrder(s.DoSend(t, x), u)
  {
    SendEffect(s, t, x, u);
    SendOrderly(u, s.Sent(u), s.Seen(u), s.Processed(u), s.down, x, Indexed(t, s.ext.Next(t), x));
  }

  lemma SendInOrder(s: System, t: TabId, x: Payload, u: TabId)
    requires Inv(s) && InOrder(s, u) && s.Careful(Send(t, x))
    ensures InOrder(s.DoSend(t, x), u)
  {
    if s.ext.Accepts(t) {
      Facts(s, t);
      if u == t && s.PostsLive(Send(t, x)) {
        CarefulFits(s, t, x);
      }
      FittingInOrder(s, t, x, u);
    }
  }

  lemma OneMessage(seen: int, m: Indexed, t: TabId)
    ensures Reach(seen, [m], t) == if m.tab == t && m.index > seen then m.index else seen
    ensures Gapless(seen, [m], t) <==> (m.tab == t ==> m.index <= seen + 1)
  {
    assert [m][..0] == [];
  }

  /** Handling the first message of a gapless channel. */
  lemma DeliverOrderly(t: TabId, xs: seq<Payload>, seen: int, done: seq<Indexed>, down: seq<Indexed>)
    requires Orderly(t, xs, seen, done, down) && down != []
    requires down[0].tab == t ==> down[0].index < |xs| && down[0].payload == xs[down[0].index]
    ensures var m := down[0];
            var isNew := m.tab == t && m.index > seen;
            var seen' := if isNew then m.index else seen;
            && Orderly(t, xs, seen', if isNew then done + [m] else done, down[1..])
            && Reach(seen', down[1..], t) == Reach(seen, down, t)
  {
    var m := down[0];
    assert down == [m] + down[1..];
    ReachAppend(seen, [m], down[1..], t);
    OneMessage(seen, m, t);
    if m.tab == t && m.index > seen {
      StampSnoc(t, xs[..m.index], 0, m.payload);
      assert xs[..m.index + 1] == xs[..m.index] + [m.payload];
    }
  }

  lemma DeliverInOrder(s: System, u: TabId)
    requires Inv(s) && InOrder(s, u) && s.page.Live? && s.down != []
    ensures InOrder(s.DoDeliver(), u)
    ensures Reach(s.DoDeliver().Seen(u), s.DoDeliver().down, u) == Reach(s.Seen(u), s.down, u)
  {
    assert s.down[0] in s.down;
    Facts(s, u);
    Facts(s, s.down[0].tab);
    DeliverEffect(s, u);
    DeliverOrderly(u, s.Sent(u), s.Seen(u), s.Processed(u), s.down);
  }

  /** A replay brings the channel to the newest message and adds no gap. */
  lemma ReplayReach(s: System, u: TabId)
    requires Inv(s)
    ensures Gapless(s.Seen(u), s.down + s.ext.Replay(), u) <==> Gapless(s.Seen(u), s.down, u)
    ensures s.ext.resolved ==> Reach(s.Seen(u), s.down + s.ext.Replay(), u) == |s.Sent(u)| - 1
  {
    Facts(s, u);
    QueueTabs(s);
    InFlight(s, u);
    ReachAppend(s.Seen(u), s.down, s.ext.Replay(), u);
    if s.ext.resolved {
      var r := Reach(s.Seen(u), s.down, u);
      BacklogGapless(s.ext, s.ext.order, u, s.Sent(u), s.HighestAck(u), r);
      if u !in s.ext.order {
        assert u !in s.ext.queues;
      }
    }
  }

  lemma ReceiveInOrder(s: System, u: TabId)
    requires Inv(s) && InOrder(s, u) && s.Registers(Receive)
    ensures InOrder(s.DoReceive(), u)
  {
    ReceiveEffect(s, u);
    if s.up != [] && s.up[0] == NewTab(u) {
      Facts(s, u);
      OtherTabs(-1, s.down, u);
    } else {
      ReplayReach(s, u);
    }
  }

  lemma OtherInOrder(s: System, step: Step, u: TabId)
    requires Inv(s) && InOrder(s, u) && (Quiet(step) || step.Prompt?)
    ensures InOrder(s.Next(step), u)
  {
    Facts(s, u);
    if step.Prompt? && s.page.Live? {
      PromptEffect(s, step.tab, step.prompt, u);
    }
  }

  lemma NextInOrder(s: System, step: Step)
    requires Inv(s) && GapFree(s) && s.Registers(step) && s.Careful(step)
    ensures GapFree(s.Next(step))
  {
    forall u ensures InOrder(s.Next(step), u) {
      assert InOrder(s, u);
      match step {
        case Send(t, x) => SendInOrder(s, t, x, u);
        case Deliver => if s.page.Live? && s.down != [] { DeliverInOrder(s, u); }
        case Receive => ReceiveInOrder(s, u);
        case _ => OtherInOrder(s, step, u);
      }
    }
  }

  // ----- runs -----

  /** In every run in which tabs are clear when they are registered: processed indices
      strictly increase and match the sent log, the queue is the sent log above the
      highest ack, and every message above `lastSeenIndex` is still queued.  Nothing
      is assumed about visibility, page deaths, replays or the timing of live posts. */
  lemma AlwaysConsistent(steps: seq<Step>, t: TabId)
    requires INITIAL.AllRegister(steps)
    ensures var s := INITIAL.Run(steps);
            && Logged(t, s.Sent(t), s.Processed(t))
            && -1 <= s.HighestAck(t) <= s.Seen(t) == LastIndex(s.Processed(t)) < |s.Sent(t)|
            && s.ext.Queue(t) == Stamp(t, s.Sent(t), s.HighestAck(t) + 1)
            && (forall i :: s.Seen(t) < i < |s.Sent(t)| ==> Indexed(t, i, s.Sent(t)[i]) in s.ext.Queue(t))
            && Texts(s.Cards(t)) == TextOf(s.Processed(t))
  {
    InitialInv();
    RunKeeps(INITIAL, steps);
    var s := INITIAL.Run(steps);
    Facts(s, t);
    forall i | s.Seen(t) < i < |s.Sent(t)| ensures Indexed(t, i, s.Sent(t)[i]) in s.ext.Queue(t) {
      assert s.ext.Queue(t)[i - (s.HighestAck(t) + 1)] == Indexed(t, i, s.Sent(t)[i]);
    }
  }

  lemma InitialInv()
    ensures Inv(INITIAL) && GapFree(INITIAL)
  {
    forall t ensures TabInv(INITIAL, t) && PageInv(INITIAL, t) && InOrder(INITIAL, t) {
    }
  }

  lemma {:induction false} RunInOrder(s: System, steps: seq<Step>)
    requires Inv(s) && GapFree(s) && s.AllRegister(steps) && s.AllCareful(steps)
    ensures Inv(s.Run(steps)) && GapFree(s.Run(steps))
    decreases |steps|
  {
    if steps != [] {
      NextKeeps(s, steps[0]);
      NextInOrder(s, steps[0]);
      RunInOrder(s.Next(steps[0]), steps[1..]);
    }
  }

  /** Exactly-once, in-order delivery: if every live post is made when its tab is
      caught up, each tab has processed exactly a prefix of what was sent to it,
      and shows exactly the text of that prefix. */
  lemma ExactlyOnceInOrder(steps: seq<Step>, t: TabId)
    requires INITIAL.AllRegister(steps) && INITIAL.AllCareful(steps)
    ensures var s := INITIAL.Run(steps);
            && -1 <= s.Seen(t) < |s.Sent(t)|
            && s.Processed(t) == Stamp(t, s.Sent(t)[..s.Seen(t) + 1], 0)
            && Texts(s.Cards(t)) == TextOf(Stamp(t, s.Sent(t)[..s.Seen(t) + 1], 0))
  {
    InitialInv();
    RunInOrder(INITIAL, steps);
    assert InOrder(INITIAL.Run(steps), t);
    Facts(INITIAL.Run(steps), t);
  }
}
