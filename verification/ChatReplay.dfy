/** What a replay restores on a tab, exactly, and which queues it leaves empty. */
module ChatReplay {
  import opened ChatProvider
  import opened ChatTranscript
  import opened ChatSystem
  import opened ChatConsistency
  import opened ChatDelivery
  import opened ChatTheorems

  /** The log of a tab has every index up to the last one seen. */
  ghost predicate Complete(s: System, t: TabId) { |s.Processed(t)| == s.Seen(t) + 1 }

  lemma {:induction false} LogLength(t: TabId, xs: seq<Payload>, done: seq<Indexed>)
    requires Logged(t, xs, done)
    ensures |done| <= LastIndex(done) + 1 <= |xs|
    ensures |done| == LastIndex(done) + 1 ==> done == Stamp(t, xs[..|done|], 0)
    decreases |done|
  {
    if done != [] {
      var n := |done| - 1;
      LogLength(t, xs, done[..n]);
      if |done| == done[n].index + 1 {
        OneMoreLogged(t, xs, done[..n], done[n]);
        assert done == done[..n] + [done[n]];
      }
    }
  }

  lemma OneMoreLogged(t: TabId, xs: seq<Payload>, done: seq<Indexed>, m: Indexed)
    requires |done| < |xs| && done == Stamp(t, xs[..|done|], 0) && m == Indexed(t, |done|, xs[|done|])
    ensures done + [m] == Stamp(t, xs[..|done| + 1], 0)
  {
    StampSnoc(t, xs[..|done|], 0, xs[|done|]);
    assert xs[..|done| + 1] == xs[..|done|] + [xs[|done|]];
  }

  /** The log is a prefix of what was sent exactly when it is complete. */
  lemma CompleteIsPrefix(s: System, t: TabId)
    requires Inv(s)
    ensures |s.Processed(t)| <= s.Seen(t) + 1
    ensures InOrder(s, t) <==> Complete(s, t) && Gapless(s.Seen(t), s.down, t)
  {
    Facts(s, t);
    LogLength(t, s.Sent(t), s.Processed(t));
    StampLength(t, s.Sent(t)[..s.Seen(t) + 1]);
  }

  lemma StampLength(t: TabId, xs: seq<Payload>)
    ensures |Stamp(t, xs, 0)| == |xs|
  {
  }

  /** The first message of a channel, and the rest for a page that has read it. */
  lemma TailGapless(seen: int, down: seq<Indexed>, t: TabId)
    requires down != []
    ensures var m := down[0];
            var seen' := if m.tab == t && m.index > seen then m.index else seen;
            && (Gapless(seen, down, t) <==> (m.tab == t ==> m.index <= seen + 1) && Gapless(seen', down[1..], t))
            && Reach(seen, down, t) == Reach(seen', down[1..], t)
  {
    assert down == [down[0]] + down[1..];
    ReachAppend(seen, [down[0]], down[1..], t);
    OneMessage(seen, down[0], t);
  }

  lemma DeliverComplete(s: System, t: TabId)
    requires Inv(s) && s.page.Live? && s.down != []
    ensures var s' := s.DoDeliver();
            && Inv(s') && s'.page.Live? && s'.down == s.down[1..]
            && Reach(s'.Seen(t), s'.down, t) == Reach(s.Seen(t), s.down, t)
            && (Complete(s', t) && Gapless(s'.Seen(t), s'.down, t) <==>
                Complete(s, t) && Gapless(s.Seen(t), s.down, t))
  {
    DeliverKeeps(s);
    Facts(s, t);
    Facts(s, s.down[0].tab);
    DeliverEffect(s, t);
    TailGapless(s.Seen(t), s.down, t);
    LogLength(t, s.Sent(t), s.Processed(t));
  }

  /** Once drained, the newest message that was on its way has been seen, and the log is
      complete exactly when it was and the channel had no gap. */
  lemma {:induction false} DrainComplete(s: System, n: nat, t: TabId)
    requires Inv(s) && s.page.Live? && n == |s.down|
    ensures var d := s.DrainDown(n);
            && Inv(d) && d.Seen(t) == Reach(s.Seen(t), s.down, t)
            && (Complete(d, t) <==> Complete(s, t) && Gapless(s.Seen(t), s.down, t))
    decreases n
  {
    if n > 0 {
      DeliverComplete(s, t);
      DrainComplete(s.DoDeliver(), n - 1, t);
    }
  }

  /** `webview-ready` is the next thing the extension handles, with a page and a view. */
  ghost predicate AboutToReplay(s: System) {
    Inv(s) && s.page.Live? && s.ext.resolved && s.up != [] && s.up[0] == Ready
  }

  /** Handling `webview-ready` and then what is in flight brings a tab to exactly what was
      sent to it, if and only if it has no gap: neither in what was processed nor in what
      was on its way before. */
  lemma ReplayDeliversIffInOrder(s: System, t: TabId)
    requires AboutToReplay(s)
    ensures var r := s.DoReceive();
            var d := r.DrainDown(|r.down|);
            && (d.Processed(t) == Everything(s, t) <==> InOrder(s, t))
            && (InOrder(s, t) ==> Texts(d.Cards(t)) == TextOf(Everything(s, t)))
  {
    var r := s.DoReceive();
    var d := r.DrainDown(|r.down|);
    ReplaySeesNewest(s, t);
    CompleteIsPrefix(s, t);
    CompleteIsPrefix(d, t);
    Facts(d, t);
    LogLength(t, s.Sent(t), d.Processed(t));
    StampLength(t, s.Sent(t));
    assert s.Sent(t)[..|s.Sent(t)|] == s.Sent(t);
  }

  /** After a replay the newest message has been seen, on every tab. */
  lemma ReplaySeesNewest(s: System, t: TabId)
    requires AboutToReplay(s)
    ensures var r := s.DoReceive();
            var d := r.DrainDown(|r.down|);
            && Inv(r) && r.page.Live? && r.up == s.up[1..] && r.Seen(t) == s.Seen(t)
            && Inv(d) && SameOutside(s, d, t) && d.Seen(t) == |s.Sent(t)| - 1
            && (Complete(d, t) <==> Complete(s, t) && Gapless(s.Seen(t), s.down, t))
  {
    var r := s.DoReceive();
    ReceiveKeeps(s);
    ReceiveEffect(s, t);
    ReplayReach(s, t);
    DrainComplete(r, |r.down|, t);
    DrainDownState(r, |r.down|, t);
  }

  /** No `new-tab` on its way up would reset a tab that was sent to. */
  ghost predicate SafeUp(s: System) {
    forall u :: u in s.up && u.NewTab? ==> s.Sent(u.tab) == []
  }

  lemma ReceiveStep(s: System, t: TabId)
    requires Inv(s) && SafeUp(s) && s.up != []
    ensures var d := s.DoReceive();
            var top := |s.Sent(t)| - 1;
            && Inv(d) && SafeUp(d) && d.Sent(t) == s.Sent(t) && d.up == s.up[1..]
            && (d.HighestAck(t) == top <==> s.HighestAck(t) == top || AckIn(s.up[..1], t, top))
  {
    SafeRegisters(s);
    ReceiveKeeps(s);
    SafeUpKept(s);
    ReceiveEffect(s, t);
    AckBound(s, t);
    AckInOne(s.up[0], t, |s.Sent(t)| - 1);
    assert s.up[..1] == [s.up[0]];
    assert s.up[0] in s.up;
  }

  /** With nothing sent, nothing was seen and nothing is on its way. */
  lemma SafeRegisters(s: System)
    requires Inv(s) && SafeUp(s)
    ensures s.Registers(Receive)
  {
    if s.up != [] && s.up[0].NewTab? {
      assert s.up[0] in s.up;
      Facts(s, s.up[0].tab);
    }
  }

  lemma AckInOne(u: Up, t: TabId, i: int)
    ensures AckIn([u], t, i) <==> u.Acked? && u.tab == t && u.index == i
  {
    assert u in [u];
  }

  lemma AckBound(s: System, t: TabId)
    requires Inv(s) && s.up != []
    ensures s.HighestAck(t) <= |s.Sent(t)| - 1
    ensures s.up[0].Acked? && s.up[0].tab == t ==> s.up[0].index <= |s.Sent(t)| - 1
  {
    assert s.up[0] in s.up;
    Facts(s, t);
  }

  lemma SafeUpKept(s: System)
    requires SafeUp(s) && s.up != []
    ensures SafeUp(s.DoReceive())
  {
    var s' := s.DoReceive();
    forall u | u in s'.up && u.NewTab? ensures s'.Sent(u.tab) == [] {
      ReceiveEffect(s, u.tab);
      assert u in s.up;
    }
  }

  lemma AckInAppend(a: seq<Up>, b: seq<Up>, t: TabId, i: int)
    ensures AckIn(a + b, t, i) <==> AckIn(a, t, i) || AckIn(b, t, i)
  {
    assert forall u :: u in a + b <==> u in a || u in b;
  }

  lemma {:induction false} DrainUpFacts(s: System, n: nat, t: TabId)
    requires Inv(s) && n <= |s.up| && SafeUp(s)
    ensures var d := s.DrainUp(n);
            && Inv(d) && d.Sent(t) == s.Sent(t)
            && (d.HighestAck(t) == |s.Sent(t)| - 1 <==>
                s.HighestAck(t) == |s.Sent(t)| - 1 || AckIn(s.up[..n], t, |s.Sent(t)| - 1))
    decreases n
  {
    if n > 0 {
      var s' := s.DoReceive();
      ReceiveStep(s, t);
      DrainUpFacts(s', n - 1, t);
      assert s.up[..n] == s.up[..1] + s'.up[..n - 1];
      AckInAppend(s.up[..1], s'.up[..n - 1], t, |s.Sent(t)| - 1);
    }
  }

  /** After a replay and with both channels drained, a tab's queue is empty if and
      only if something was left to deliver, or the acknowledgement of its newest
      message has arrived or is still on its way.  (The webview does not repeat an
      acknowledgement that a dying page lost: duplicates are dropped silently.) */
  lemma QueueEmptiesUnlessAckWasLost(s: System, t: TabId)
    requires AboutToReplay(s) && SafeUp(s)
    ensures var r := s.DoReceive();
            var d := r.DrainDown(|r.down|);
            var top := |s.Sent(t)| - 1;
            d.DrainUp(|d.up|).ext.Queue(t) == [] <==>
              s.Seen(t) < top || s.HighestAck(t) == top || AckIn(s.up, t, top)
  {
    var r := s.DoReceive();
    var d := r.DrainDown(|r.down|);
    ReplayAcks(s, t);
    SafeAfterReplay(s);
    QueueAfterDrainUp(d, t);
  }

  /** Which acknowledgement of the newest message is on its way after a replay. */
  lemma ReplayAcks(s: System, t: TabId)
    requires AboutToReplay(s)
    ensures var r := s.DoReceive();
            var d := r.DrainDown(|r.down|);
            var top := |s.Sent(t)| - 1;
            && Inv(d) && d.Sent(t) == s.Sent(t) && d.HighestAck(t) == s.HighestAck(t)
            && (AckIn(d.up, t, top) <==> AckIn(s.up, t, top) || s.Seen(t) < top)
  {
    var r := s.DoReceive();
    ReplaySeesNewest(s, t);
    DrainDownAcks(r, |r.down|, t);
    assert s.up == [Ready] + r.up;
    AckInAppend([Ready], r.up, t, |s.Sent(t)| - 1);
  }

  lemma SafeAfterReplay(s: System)
    requires AboutToReplay(s) && SafeUp(s)
    ensures var r := s.DoReceive();
            SafeUp(r.DrainDown(|r.down|))
  {
    var r := s.DoReceive();
    var d := r.DrainDown(|r.down|);
    SafeUpKept(s);
    forall u | u in d.up && u.NewTab? ensures d.Sent(u.tab) == [] {
      ReplaySeesNewest(s, u.tab);
      DrainDownTabs(r, |r.down|, u.tab);
      assert u in s.up;
    }
  }

  lemma QueueAfterDrainUp(s: System, t: TabId)
    requires Inv(s) && SafeUp(s)
    ensures var top := |s.Sent(t)| - 1;
            s.DrainUp(|s.up|).ext.Queue(t) == [] <==> s.HighestAck(t) == top || AckIn(s.up, t, top)
  {
    DrainUpFacts(s, |s.up|, t);
    assert s.up[..|s.up|] == s.up;
    Facts(s.DrainUp(|s.up|), t);
  }

  // ----- the order of tabs -----

  /** A tab comes behind those that had a queue before it, and keeps its place. */
  lemma OrderGrows(s: System, step: Step)
    requires !step.Restart?
    ensures s.ext.order <= s.Next(step).ext.order
  {
  }

  /** A replay goes through the tabs in the order in which they first had a queue: in any run
      within an activation, those of the beginning come first. */
  lemma {:induction false} RunOrderGrows(s: System, steps: seq<Step>)
    requires forall k :: 0 <= k < |steps| ==> !steps[k].Restart?
    ensures s.ext.order <= s.Run(steps).ext.order
    decreases |steps|
  {
    if steps != [] {
      OrderGrows(s, steps[0]);
      RunOrderGrows(s.Next(steps[0]), steps[1..]);
    }
  }
}
