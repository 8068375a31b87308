/** When handling `new-tab` is harmless, exactly: it starts the tab's index at 0 again
    and throws its queue away, whatever was sent to the tab before. */
module ChatRegistration {
  import opened ChatProvider
  import opened ChatSystem
  import opened ChatConsistency
  import opened ChatDelivery
  import opened ChatTheorems

  // ----- the invariant -----

  lemma LateRegistrationBreaks(s: System, t: TabId)
    requires Inv(s) && s.up != [] && s.up[0] == NewTab(t) && !s.Clear(t)
    ensures !Inv(s.DoReceive())
  {
    var s' := s.DoReceive();
    ReceiveEffect(s, t);
    Facts(s, t);
    if s.Seen(t) != -1 {
      assert !TabInv(s', t);
    } else {
      var m :| m in s.down && m.tab == t;
      assert m in s'.down && !(m.index < |s'.Sent(t)|);
    }
  }

  /** Registering a tab keeps extension and webview consistent if and only if the
      webview has seen nothing of the tab and nothing of it is on its way. */
  lemma RegistrationKeepsIffClear(s: System, t: TabId)
    requires Inv(s) && s.up != [] && s.up[0] == NewTab(t)
    ensures Inv(s.DoReceive()) <==> s.Clear(t)
  {
    if s.Clear(t) {
      ReceiveKeeps(s);
    } else {
      LateRegistrationBreaks(s, t);
    }
  }

  /** Consistent at every moment of a run. */
  ghost predicate AllConsistent(s: System, steps: seq<Step>)
    decreases |steps|
  {
    Inv(s) && (steps == [] || AllConsistent(s.Next(steps[0]), steps[1..]))
  }

  /** A run is consistent throughout exactly when each `new-tab` finds its tab clear. */
  lemma {:induction false} ConsistentIffRegistered(s: System, steps: seq<Step>)
    requires Inv(s)
    ensures AllConsistent(s, steps) <==> s.AllRegister(steps)
    decreases |steps|
  {
    if steps != [] {
      var s' := s.Next(steps[0]);
      if s.Registers(steps[0]) {
        NextKeeps(s, steps[0]);
        ConsistentIffRegistered(s', steps[1..]);
      } else {
        RegistrationKeepsIffClear(s, s.up[0].tab);
        assert !AllConsistent(s', steps[1..]);
      }
    }
  }

  lemma {:induction false} StartConsistentIffRegistered(steps: seq<Step>)
    ensures AllConsistent(INITIAL, steps) <==> INITIAL.AllRegister(steps)
  {
    InitialInv();
    ConsistentIffRegistered(INITIAL, steps);
  }

  // ----- the page does not look at the extension -----

  /** The page of `w` is that of `s`, with `more` behind what is on its way to it. */
  predicate Behind(s: System, w: System, more: seq<Indexed>) {
    && w.page == s.page && w.saved == s.saved && w.activation == s.activation
    && w.processed == s.processed && w.down == s.down + more
  }

  lemma DeliverBehind(s: System, w: System, more: seq<Indexed>)
    requires Behind(s, w, more) && s.page.Live? && s.down != []
    ensures Behind(s.DoDeliver(), w.DoDeliver(), more)
    ensures s.DoDeliver().page.Live? && s.DoDeliver().down == s.down[1..]
  {
    assert w.down[0] == s.down[0] && w.down[1..] == s.down[1..] + more;
  }

  lemma {:induction false} DrainBehind(s: System, w: System, more: seq<Indexed>, n: nat)
    requires Behind(s, w, more) && s.page.Live? && n <= |s.down|
    ensures Behind(s.DrainDown(n), w.DrainDown(n), more)
    decreases n
  {
    if n > 0 {
      DeliverBehind(s, w, more);
      DrainBehind(s.DoDeliver(), w.DoDeliver(), more, n - 1);
    }
  }

  /** Reading the first message of a channel neither makes a tab clear nor unclear. */
  lemma ClearTail(down: seq<Indexed>, t: TabId, seen: int, seen': int)
    requires down != [] && -1 <= seen <= seen'
    requires if down[0].tab == t then down[0].index <= seen' else seen' == seen
    ensures seen' == -1 && (forall m :: m in down[1..] ==> m.tab != t)
       <==> seen == -1 && (forall m :: m in down ==> m.tab != t)
  {
    assert down == [down[0]] + down[1..];
  }

  lemma DeliverClear(s: System, t: TabId)
    requires Inv(s) && s.page.Live? && s.down != []
    ensures var s' := s.DoDeliver();
            Inv(s') && s'.page.Live? && s'.down == s.down[1..] && (s'.Clear(t) <==> s.Clear(t))
  {
    DeliverStep(s, t);
    Facts(s, t);
    ClearTail(s.down, t, s.Seen(t), s.DoDeliver().Seen(t));
  }

  /** After draining, a tab has seen something if and only if it was not clear. */
  lemma {:induction false} DrainedIsClear(s: System, n: nat, t: TabId)
    requires Inv(s) && s.page.Live? && n == |s.down|
    ensures var d := s.DrainDown(n);
            Inv(d) && d.page.Live? && d.down == [] && (d.Seen(t) == -1 <==> s.Clear(t))
    decreases n
  {
    if n > 0 {
      DeliverClear(s, t);
      DrainedIsClear(s.DoDeliver(), n - 1, t);
    }
  }

  // ----- what is sent after a registration -----

  /** `m` is on its way, alone, to a page that has seen `seen` of its tab. */
  lemma ReadAlone(s: System, m: Indexed)
    requires s.page.Live? && s.down == [m]
    ensures s.DoDeliver().Processed(m.tab)
         == if m.index > s.page.page.LastSeen(m.tab) then s.Processed(m.tab) + [m] else s.Processed(m.tab)
  {
  }

  lemma RegisteredPostLive(s: System, t: TabId, x: Payload)
    requires Inv(s) && s.up != [] && s.up[0] == NewTab(t)
    requires s.page.Live? && s.ext.Accepts(t) && s.ext.visible
    ensures var w := s.DoReceive().DoSend(t, x);
            var before := s.DrainDown(|s.down|).Processed(t);
            w.DrainDown(|w.down|).Processed(t) == if s.Clear(t) then before + [Indexed(t, 0, x)] else before
  {
    var m := Indexed(t, 0, x);
    var w := s.DoReceive().DoSend(t, x);
    var n := |s.down|;
    assert Behind(s, w, [m]);
    DrainBehind(s, w, [m], n);
    DrainedIsClear(s, n, t);
    var d, d' := s.DrainDown(n), w.DrainDown(n);
    Facts(d, t);
    assert d'.down == [m];
    ReadAlone(d', m);
    DrainOneMore(w, n);
  }

  /** It makes no difference whether a page that is loading runs its script before or
      after a registration and a post. */
  lemma AwakeThenRegister(s: System)
    requires s.up != [] && s.up[0].NewTab?
    ensures s.DoReceive().Awake() == s.Awake().DoReceive()
  {
    if s.page.Loading? {
      assert (s.up + [Ready])[1..] == s.up[1..] + [Ready];
    }
  }

  lemma PostThenAwake(s: System, t: TabId, x: Payload)
    ensures s.DoSend(t, x).Awake() == s.Awake().DoSend(t, x)
  {
  }

  /** After `new-tab` is handled, the next message posted to a page that runs or is
      still loading gets index 0, and is processed if and only if nothing of the tab
      was seen or on its way; otherwise it is dropped as a duplicate. */
  lemma RegisteredPostIsProcessedIffClear(s: System, t: TabId, x: Payload)
    requires Inv(s) && s.up != [] && s.up[0] == NewTab(t)
    requires !s.page.Gone? && s.ext.Accepts(t) && s.ext.visible
    ensures var w := s.DoReceive().DoSend(t, x).Awake();
            var before := s.Awake().DrainDown(|s.down|).Processed(t);
            w.DrainDown(|w.down|).Processed(t) == if s.Clear(t) then before + [Indexed(t, 0, x)] else before
  {
    var l := s.Awake();
    AwakeThenPost(s, t, x);
    AwakeThenRegister(s);
    PostThenAwake(s.DoReceive(), t, x);
    assert l.up[0] == s.up[0];
    RegisteredPostLive(l, t, x);
  }

  // ----- what was sent before it -----

  /** The extension forgets what it had queued: something if and only if the queue was
      not empty, that is, if not everything sent had been acknowledged. */
  lemma RegistrationForgetsQueue(s: System, t: TabId)
    requires Inv(s) && s.up != [] && s.up[0] == NewTab(t)
    ensures s.DoReceive().ext.Queue(t) == []
    ensures (exists m :: m in s.ext.Queue(t) && m !in s.DoReceive().ext.Queue(t)) <==> s.HighestAck(t) < |s.Sent(t)| - 1
  {
    Facts(s, t);
    if s.HighestAck(t) < |s.Sent(t)| - 1 {
      assert s.ext.Queue(t)[0] in s.ext.Queue(t);
    }
  }

  /** What was sent before the registration is all processed, by a page that runs or is
      still loading and handles what is on its way, if and only if the tab was caught
      up.  What was neither seen nor on its way is then nowhere. */
  lemma RegistrationLosesIffNotCaughtUp(s: System, t: TabId)
    requires Inv(s) && InOrder(s, t) && !s.page.Gone? && s.up != [] && s.up[0] == NewTab(t)
    ensures var w := s.DoReceive().Awake();
            w.DrainDown(|w.down|).Processed(t) == Everything(s, t) <==> s.CaughtUp(t)
    ensures forall m :: m in s.ext.Queue(t) && m.index > s.Seen(t) && m !in s.down ==>
              m !in s.DoReceive().ext.Queue(t) && m !in s.DoReceive().down
  {
    var l, w := s.Awake(), s.DoReceive().Awake();
    AwakeThenPost(s, t, AgentComplete);
    assert Behind(l, w, []) by {
      assert l.down + [] == l.down;
    }
    DrainBehind(l, w, [], |l.down|);
    Facts(l, t);
    CaughtUpReach(l, t);
    assert l.CaughtUp(t) == s.CaughtUp(t);
    if s.CaughtUp(t) {
      DrainAll(l, t);
    } else {
      DrainedShort(l, t);
    }
  }

  /** Draining a channel that does not reach the newest message leaves it unprocessed. */
  lemma DrainedShort(s: System, t: TabId)
    requires Inv(s) && InOrder(s, t) && s.page.Live? && Reach(s.Seen(t), s.down, t) != |s.Sent(t)| - 1
    ensures s.DrainDown(|s.down|).Processed(t) != Everything(s, t)
  {
    var d := s.DrainDown(|s.down|);
    DrainDownFacts(s, |s.down|, t);
    DrainDownInOrder(s, |s.down|, t);
    assert d.Seen(t) != |s.Sent(t)| - 1;
    assert |d.Processed(t)| == d.Seen(t) + 1;
  }
}
