/** What follows for users of the chat: when a live post is safe, what an unsafe one
    costs, and what survives page and extension restarts. */
module ChatTheorems {
  import opened ChatProvider
  import opened ChatSystem
  import opened ChatConsistency
  import opened ChatDelivery
  import opened ChatAnyRun

  // ----- draining the channels -----

  /** Everything sent so far, as the webview would log it. */
  function Everything(s: System, t: TabId): seq<Indexed> { Stamp(t, s.Sent(t), 0) }

  /** An acknowledgement of index `i` of tab `t` is among `up`. */
  ghost predicate AckIn(up: seq<Up>, t: TabId, i: int) {
    exists u :: u in up && u.Acked? && u.tab == t && u.index == i
  }

  /** One delivery: at most one message moves into one log, and is acknowledged. */
  lemma DeliverStep(s: System, t: TabId)
    requires Inv(s) && s.page.Live? && s.down != []
    ensures var d := s.DoDeliver();
            && Inv(d) && d.page.Live? && d.ext == s.ext && d.down == s.down[1..] && s.down[0] in s.down
            && d.Sent(t) == s.Sent(t) && d.HighestAck(t) == s.HighestAck(t) && d.Seen(t) >= s.Seen(t)
            && (d.Processed(t) == s.Processed(t) || d.Processed(t) == s.Processed(t) + [s.down[0]])
            && (d.up == s.up || d.up == s.up + [Acked(s.down[0].tab, s.down[0].index)])
            && (d.Seen(t) > s.Seen(t) ==> s.down[0].tab == t && d.up == s.up + [Acked(t, s.down[0].index)])
            && (d.Seen(t) > s.Seen(t) ==> d.Seen(t) == s.down[0].index)
            && (s.down[0].tab == t && d.Seen(t) == s.Seen(t) ==> d.up == s.up)
            && (s.down[0].tab == t ==> s.down[0].index <= d.Seen(t))
  {
    DeliverKeeps(s);
    Facts(s, t);
    Facts(s, s.down[0].tab);
    DeliverEffect(s, t);
    DeliverEffect(s, s.down[0].tab);
  }

  /** What draining leaves as it is. */
  ghost predicate SameOutside(s: System, d: System, t: TabId) {
    d.ext == s.ext && d.Sent(t) == s.Sent(t) && d.HighestAck(t) == s.HighestAck(t)
  }

  /** A page is there and reads `down`. */
  ghost predicate Listening(s: System, down: seq<Indexed>) { Inv(s) && s.page.Live? && s.down == down }

  lemma DeliverState(s: System, t: TabId, down: seq<Indexed>)
    requires Listening(s, down) && down != []
    ensures Listening(s.DoDeliver(), down[1..]) && SameOutside(s, s.DoDeliver(), t)
  {
    DeliverStep(s, t);
  }

  lemma {:induction false} DrainDownTo(s: System, n: nat, t: TabId, down: seq<Indexed>)
    requires Listening(s, down) && n <= |down|
    ensures Listening(s.DrainDown(n), down[n..]) && SameOutside(s, s.DrainDown(n), t)
    decreases n
  {
    if n > 0 {
      DeliverState(s, t, down);
      DrainDownTo(s.DoDeliver(), n - 1, t, down[1..]);
    }
  }

  lemma DrainDownState(s: System, n: nat, t: TabId)
    requires Inv(s) && s.page.Live? && n <= |s.down|
    ensures var d := s.DrainDown(n);
            Inv(d) && d.page.Live? && d.down == s.down[n..] && SameOutside(s, d, t)
  {
    DrainDownTo(s, n, t, s.down);
  }

  /** What was processed was in the log before, or was read from `down`. */
  ghost predicate ReadFrom(done: seq<Indexed>, down: seq<Indexed>, done': seq<Indexed>) {
    forall m :: m in done' ==> m in done || m in down
  }

  lemma ReadFromTail(done: seq<Indexed>, down: seq<Indexed>, done1: seq<Indexed>, done2: seq<Indexed>)
    requires down != [] && (done1 == done || done1 == done + [down[0]]) && ReadFrom(done1, down[1..], done2)
    ensures ReadFrom(done, down, done2)
  {
    assert down[0] in down;
  }

  lemma DeliverLogged(s: System, t: TabId, down: seq<Indexed>, done: seq<Indexed>) returns (done': seq<Indexed>)
    requires Listening(s, down) && down != [] && s.Processed(t) == done
    ensures Listening(s.DoDeliver(), down[1..]) && s.DoDeliver().Processed(t) == done'
    ensures done' == done || done' == done + [down[0]]
  {
    DeliverStep(s, t);
    done' := s.DoDeliver().Processed(t);
  }

  lemma {:induction false} DrainLogTo(s: System, n: nat, t: TabId, down: seq<Indexed>, done: seq<Indexed>)
    requires Listening(s, down) && n <= |down| && s.Processed(t) == done
    ensures ReadFrom(done, down, s.DrainDown(n).Processed(t))
    decreases n
  {
    if n > 0 {
      var done' := DeliverLogged(s, t, down, done);
      DrainLogTo(s.DoDeliver(), n - 1, t, down[1..], done');
      ReadFromTail(done, down, done', s.DrainDown(n).Processed(t));
    }
  }

  lemma DrainDownFacts(s: System, n: nat, t: TabId)
    requires Inv(s) && s.page.Live? && n <= |s.down|
    ensures var d := s.DrainDown(n);
            && Inv(d) && d.page.Live? && d.ext == s.ext && d.down == s.down[n..]
            && d.Sent(t) == s.Sent(t) && d.HighestAck(t) == s.HighestAck(t) && d.Seen(t) >= s.Seen(t)
            && (forall m :: m in d.Processed(t) ==> m in s.Processed(t) || m in s.down)
  {
    DrainDownState(s, n, t);
    DrainLogTo(s, n, t, s.down, s.Processed(t));
    DrainAcksTo(s, n, t, s.down);
  }

  lemma AckInSnoc(up: seq<Up>, a: Up, t: TabId, i: int)
    ensures AckIn(up + [a], t, i) <==> AckIn(up, t, i) || (a.Acked? && a.tab == t && a.index == i)
  {
    assert forall u :: u in up + [a] <==> u in up || u == a;
  }

  /** Draining puts acknowledgements only on the channel going up. */
  lemma {:induction false} DrainDownTabs(s: System, n: nat, t: TabId)
    requires Inv(s) && s.page.Live? && n <= |s.down|
    ensures forall u :: u in s.DrainDown(n).up && u.NewTab? ==> u in s.up
    decreases n
  {
    if n > 0 {
      DeliverStep(s, t);
      DrainDownTabs(s.DoDeliver(), n - 1, t);
    }
  }

  /** What one delivery puts on the channel going up, for tab `t`. */
  ghost predicate AcksOnce(up: seq<Up>, up': seq<Up>, t: TabId, a: Up, seen: int, seen': int) {
    && a.Acked? && (up' == up || up' == up + [a]) && seen <= seen'
    && (seen' > seen ==> up' == up + [a] && a.tab == t && a.index == seen')
    && (a.tab == t && seen' == seen ==> up' == up)
  }

  lemma DeliverAcks(s: System, t: TabId, down: seq<Indexed>)
    requires Listening(s, down) && down != []
    ensures var s' := s.DoDeliver();
            && Listening(s', down[1..])
            && AcksOnce(s.up, s'.up, t, Acked(down[0].tab, down[0].index), s.Seen(t), s'.Seen(t))
  {
    DeliverStep(s, t);
  }

  /** From `up` to `end` the newest message seen is acknowledged, if it was not seen before. */
  ghost predicate Newest(up: seq<Up>, end: seq<Up>, t: TabId, seen: int, top: int) {
    top >= seen && (AckIn(end, t, top) <==> AckIn(up, t, top) || top > seen)
  }

  lemma {:induction false} DrainAcksTo(s: System, n: nat, t: TabId, down: seq<Indexed>)
    requires Listening(s, down) && n <= |down|
    ensures Newest(s.up, s.DrainDown(n).up, t, s.Seen(t), s.DrainDown(n).Seen(t))
    decreases n
  {
    if n > 0 {
      var s' := s.DoDeliver();
      var d := s'.DrainDown(n - 1);
      assert s.DrainDown(n) == d;
      DeliverAcks(s, t, down);
      DrainAcksTo(s', n - 1, t, down[1..]);
      AcksCompose(s.up, s'.up, d.up, t, Acked(down[0].tab, down[0].index), s.Seen(t), s'.Seen(t), d.Seen(t));
    }
  }

  /** The last of them is for the newest message seen. */
  lemma DrainDownAcks(s: System, n: nat, t: TabId)
    requires Inv(s) && s.page.Live? && n <= |s.down|
    ensures var d := s.DrainDown(n);
            && d.Seen(t) >= s.Seen(t)
            && (AckIn(d.up, t, d.Seen(t)) <==> AckIn(s.up, t, d.Seen(t)) || d.Seen(t) > s.Seen(t))
  {
    DrainAcksTo(s, n, t, s.down);
  }

  lemma AcksCompose(up: seq<Up>, up': seq<Up>, end: seq<Up>, t: TabId, a: Up, seen: int, seen': int, top: int)
    requires AcksOnce(up, up', t, a, seen, seen') && Newest(up', end, t, seen', top)
    ensures Newest(up, end, t, seen, top)
  {
    AckInSnoc(up, a, t, top);
  }

  /** A page is reading, without gaps, and will have read up to `reach`. */
  ghost predicate Reading(s: System, t: TabId, reach: int) {
    Inv(s) && s.page.Live? && InOrder(s, t) && Reach(s.Seen(t), s.down, t) == reach
  }

  lemma DeliverReading(s: System, t: TabId, reach: int)
    requires Reading(s, t, reach) && s.down != []
    ensures Reading(s.DoDeliver(), t, reach) && s.DoDeliver().down == s.down[1..]
  {
    DeliverKeeps(s);
    DeliverInOrder(s, t);
  }

  lemma {:induction false} DrainDownReading(s: System, n: nat, t: TabId, reach: int)
    requires Reading(s, t, reach) && n <= |s.down|
    ensures Reading(s.DrainDown(n), t, reach)
    decreases n
  {
    if n > 0 {
      DeliverReading(s, t, reach);
      DrainDownReading(s.DoDeliver(), n - 1, t, reach);
    }
  }

  lemma DrainDownInOrder(s: System, n: nat, t: TabId)
    requires Inv(s) && s.page.Live? && n <= |s.down| && InOrder(s, t)
    ensures var d := s.DrainDown(n);
            InOrder(d, t) && Reach(d.Seen(t), d.down, t) == Reach(s.Seen(t), s.down, t)
  {
    DrainDownReading(s, n, t, Reach(s.Seen(t), s.down, t));
  }

  /** Draining a gapless channel that reaches the newest message processes everything. */
  lemma DrainAll(s: System, t: TabId)
    requires Inv(s) && s.page.Live? && InOrder(s, t) && Reach(s.Seen(t), s.down, t) == |s.Sent(t)| - 1
    ensures s.DrainDown(|s.down|).Processed(t) == Everything(s, t)
  {
    DrainDownFacts(s, |s.down|, t);
    DrainDownInOrder(s, |s.down|, t);
    assert s.Sent(t)[..|s.Sent(t)|] == s.Sent(t);
  }

  /** The post of a message to a page that reads: what it leaves unread before it. */
  lemma UnsafePostSkipsLive(s: System, t: TabId, x: Payload)
    requires Inv(s) && InOrder(s, t) && s.page.Live? && s.ext.Accepts(t) && s.ext.visible && !s.CaughtUp(t)
    ensures var s' := s.DoSend(t, x);
            forall m :: m in s'.DrainDown(|s'.down|).Processed(t) ==> m.index != |s.Sent(t)| - 1
  {
    var s' := s.DoSend(t, x);
    var d := s'.DrainDown(|s'.down|);
    Facts(s, t);
    SendKeeps(s, t, x);
    CaughtUpReach(s, t);
    InFlight(s, t);
    DrainDownFacts(s', |s'.down|, t);
    Facts(d, t);
    LoggedBelow(t, s.Sent(t), s.Processed(t));
    forall m | m in d.Processed(t) ensures m.index != |s.Sent(t)| - 1 {
      assert m.tab == t;
      assert m in s.Processed(t) || m in s.down || m == Indexed(t, |s.Sent(t)|, x);
    }
  }

  lemma SafePostDelivers(s: System, t: TabId, x: Payload)
    requires Inv(s) && InOrder(s, t) && s.page.Live? && s.ext.Accepts(t) && s.ext.visible && s.CaughtUp(t)
    ensures var s' := s.DoSend(t, x);
            s'.DrainDown(|s'.down|).Processed(t) == Everything(s', t)
  {
    var s' := s.DoSend(t, x);
    SendKeeps(s, t, x);
    SendInOrder(s, t, x, t);
    PostReach(s, t, x);
    DrainAll(s', t);
  }

  lemma PostReach(s: System, t: TabId, x: Payload)
    requires Inv(s) && InOrder(s, t) && s.page.Live? && s.ext.Accepts(t) && s.ext.visible && s.CaughtUp(t)
    ensures var s' := s.DoSend(t, x);
            s'.page.Live? && Reach(s'.Seen(t), s'.down, t) == |s'.Sent(t)| - 1
  {
    Facts(s, t);
    CaughtUpReach(s, t);
    SendEffect(s, t, x, t);
    ReachAppend(s.Seen(t), s.down, [Indexed(t, s.ext.Next(t), x)], t);
    OneMessage(|s.Sent(t)| - 1, Indexed(t, s.ext.Next(t), x), t);
  }

  lemma LivePostLive(s: System, t: TabId, x: Payload)
    requires Inv(s) && InOrder(s, t) && s.page.Live? && s.ext.Accepts(t) && s.ext.visible
    ensures var s' := s.DoSend(t, x);
            s'.DrainDown(|s'.down|).Processed(t) == Everything(s', t) <==> s.CaughtUp(t)
  {
    if s.CaughtUp(t) {
      SafePostDelivers(s, t, x);
    } else {
      UnsafePostSkipsLive(s, t, x);
      NotCaughtUpWasSent(s, t);
      SendEffect(s, t, x, t);
      var all := Everything(s.DoSend(t, x), t);
      assert all[|s.Sent(t)| - 1] in all;
    }
  }

  lemma NotCaughtUpWasSent(s: System, t: TabId)
    requires Inv(s) && !s.CaughtUp(t)
    ensures s.Sent(t) != []
  {
    Facts(s, t);
  }

  /** A loading page that runs its script sees what it would have seen before the post. */
  lemma AwakeThenPost(s: System, t: TabId, x: Payload)
    requires Inv(s) && !s.page.Gone?
    ensures var l := s.Awake();
            && Inv(l) && l.page.Live? && l.ext == s.ext && l.down == s.down
            && l.Sent(t) == s.Sent(t) && l.Seen(t) == s.Seen(t) && l.Processed(t) == s.Processed(t)
            && s.DoSend(t, x).Awake() == l.DoSend(t, x)
  {
    if s.page.Loading? {
      QuietKeeps(s, Load);
      Facts(s, t);
    }
  }

  /** A live post made while the tab is not caught up, to a page that runs or is still
      loading, makes the webview skip the message before it. */
  lemma UnsafePostSkips(s: System, t: TabId, x: Payload)
    requires Inv(s) && InOrder(s, t) && !s.page.Gone? && s.ext.Accepts(t) && s.ext.visible && !s.CaughtUp(t)
    ensures var s' := s.DoSend(t, x).Awake();
            forall m :: m in s'.DrainDown(|s'.down|).Processed(t) ==> m.index != |s.Sent(t)| - 1
  {
    AwakeThenPost(s, t, x);
    UnsafePostSkipsLive(s.Awake(), t, x);
  }

  lemma {:induction false} DrainOneMore(s: System, n: nat)
    ensures s.DrainDown(n + 1) == s.DrainDown(n).DoDeliver()
    decreases n
  {
    if n > 0 {
      DrainOneMore(s.DoDeliver(), n - 1);
    }
  }

  /** The posted message is the last on its way, and is read. */
  lemma PostIsSeen(s: System, t: TabId, x: Payload)
    requires Inv(s) && s.page.Live? && s.ext.Accepts(t) && s.ext.visible
    ensures var s' := s.DoSend(t, x);
            var d := s'.DrainDown(|s'.down|);
            Inv(d) && d.Seen(t) >= |s.Sent(t)|
  {
    var s' := s.DoSend(t, x);
    Facts(s, t);
    SendKeeps(s, t, x);
    SendEffect(s, t, x, t);
    LastIsSeen(s', t);
  }

  lemma LastIsSeen(s: System, t: TabId)
    requires Inv(s) && s.page.Live? && s.down != [] && s.down[|s.down| - 1].tab == t
    ensures var d := s.DrainDown(|s.down|);
            Inv(d) && d.Seen(t) >= s.down[|s.down| - 1].index
  {
    var n := |s.down| - 1;
    DrainDownFacts(s, n, t);
    DrainOneMore(s, n);
    DeliverStep(s.DrainDown(n), t);
  }

  /** The message skipped by an unsafe live post is lost: whatever happens later in the
      activation, replays and reloads included, it is never processed. */
  lemma UnsafePostLoses(s: System, t: TabId, x: Payload, steps: seq<Step>)
    requires Inv(s) && InOrder(s, t) && !s.page.Gone? && s.ext.Accepts(t) && s.ext.visible && !s.CaughtUp(t)
    requires Restart !in steps
    ensures var s' := s.DoSend(t, x).Awake();
            var later := s'.DrainDown(|s'.down|).Run(steps);
            forall m :: m in later.Processed(t) ==> m.index != |s.Sent(t)| - 1
  {
    var s' := s.DoSend(t, x).Awake();
    UnsafePostSkips(s, t, x);
    AwakeThenPost(s, t, x);
    PostIsSeen(s.Awake(), t, x);
    NotCaughtUpWasSent(s, t);
    InvIsWebInv(s'.DrainDown(|s'.down|));
    SkippedIsLost(s'.DrainDown(|s'.down|), steps, t, |s.Sent(t)| - 1);
  }

  /** When a live post is safe, exactly: in any state reached without a gap, with a page
      that runs or is still loading, after posting live and handling all that is in
      flight, the tab has processed all that was sent to it if and only if it was
      caught up before the post. */
  lemma LivePostIsSafeIffCaughtUp(s: System, t: TabId, x: Payload)
    requires Inv(s) && InOrder(s, t) && !s.page.Gone? && s.ext.Accepts(t) && s.ext.visible
    ensures var s' := s.DoSend(t, x).Awake();
            s'.DrainDown(|s'.down|).Processed(t) == Everything(s', t) <==> s.CaughtUp(t)
  {
    AwakeThenPost(s, t, x);
    LivePostLive(s.Awake(), t, x);
  }

  lemma LoggedBelow(t: TabId, xs: seq<Payload>, done: seq<Indexed>)
    requires Logged(t, xs, done)
    ensures forall m :: m in done ==> m.index <= LastIndex(done)
  {
  }

  // ----- activations and reloads -----

  /** Across any number of page deaths and extension restarts, the listener drops a
      message only when the current activation has processed that index or a later
      one; without gaps, only when it has processed that very message. */
  lemma DropsOnlyItsOwnDuplicates(s: System)
    requires Inv(s) && s.page.Live? && s.down != [] && s.down[0].index <= s.page.page.LastSeen(s.down[0].tab)
    ensures var m := s.down[0];
            && (exists done :: done in s.Processed(m.tab) && done.index >= m.index)
            && (InOrder(s, m.tab) ==> m in s.Processed(m.tab))
  {
    var m := s.down[0];
    assert m in s.down;
    Facts(s, m.tab);
    var done := s.Processed(m.tab);
    assert done[|done| - 1] in done;
    if InOrder(s, m.tab) {
      assert done[m.index] in done;
    }
  }

  /** After a restart no tab is hindered by state saved by an older activation. */
  lemma RestartForgets(s: System, t: TabId)
    requires Inv(s)
    ensures var s' := s.DoRestart();
            Inv(s') && GapFree(s') && s'.Seen(t) == -1 && s'.Cards(t) == []
  {
    QuietKeeps(s, Restart);
    var s' := s.DoRestart();
    forall u ensures InOrder(s', u) {
      Facts(s', u);
    }
    Facts(s', t);
  }

  // ----- the documented handshake as a discipline -----

  /** A monitor the extension could run by itself: `synced` says that everything
      queued has been posted to the page that exists now. */
  function Monitor(s: System, synced: bool, step: Step): bool {
    match step
    case Destroy(_) => false
    case Send(t, _) => synced && (s.ext.Accepts(t) ==> s.PostsLive(step))
    case Receive => synced || (s.up != [] && s.up[0].Ready? && s.ext.resolved && !s.page.Gone?)
    case Restart => true
    case _ => synced
  }

  /** Live posts wait for `webview-ready` to be handled, unless nothing is queued. */
  predicate Handshake(s: System, synced: bool, steps: seq<Step>)
    decreases |steps|
  {
    steps == [] ||
    (&& (s.PostsLive(steps[0]) ==> synced || s.ext.Queue(steps[0].tab) == [])
     && Handshake(s.Next(steps[0]), Monitor(s, synced, steps[0]), steps[1..]))
  }

  ghost predicate AllCaughtUp(s: System) { forall t :: s.CaughtUp(t) }

  lemma {:induction false} BacklogHolds(p: Provider, tabs: seq<TabId>, t: TabId)
    requires t in tabs
    ensures forall m :: m in p.Queue(t) ==> m in p.Backlog(tabs)
  {
    var n := |tabs| - 1;
    if tabs[n] != t {
      BacklogHolds(p, tabs[..n], t);
    }
  }

  lemma SendCaughtUp(s: System, u: TabId, x: Payload, t: TabId)
    requires Inv(s) && s.CaughtUp(t) && (s.ext.Accepts(u) ==> s.PostsLive(Send(u, x)))
    ensures s.DoSend(u, x).CaughtUp(t)
  {
    var s' := s.DoSend(u, x);
    assert s'.Seen(t) == s.Seen(t);
    if s.ext.Accepts(u) && u == t {
      var m := Indexed(t, s.ext.Next(t), x);
      assert s'.ext.Queue(t) == s.ext.Queue(t) + [m] && s'.down == s.down + [m];
    }
  }

  lemma DeliverCaughtUp(s: System, t: TabId)
    requires Inv(s) && s.CaughtUp(t)
    ensures s.DoDeliver().CaughtUp(t)
  {
    if s.page.Live? && s.down != [] {
      DeliverStep(s, t);
      Facts(s, t);
      StillCaughtUp(s.ext.Queue(t), t, s.Seen(t), s.DoDeliver().Seen(t), s.down);
    }
  }

  /** A queue that was seen or under way stays so when the head of the channel is read. */
  lemma StillCaughtUp(queue: seq<Indexed>, t: TabId, seen: int, seen': int, down: seq<Indexed>)
    requires down != [] && seen <= seen' && (down[0].tab == t ==> down[0].index <= seen')
    requires forall m :: m in queue ==> m.tab == t && (m.index <= seen || m in down)
    ensures forall m :: m in queue ==> m.index <= seen' || m in down[1..]
  {
    assert down == [down[0]] + down[1..];
  }

  lemma ReplayCaughtUp(s: System, t: TabId)
    requires Inv(s) && s.up != [] && s.up[0].Ready? && s.ext.resolved && !s.page.Gone?
    ensures s.DoReceive().CaughtUp(t)
  {
    ReceiveEffect(s, t);
    if t in s.ext.order {
      BacklogHolds(s.ext, s.ext.order, t);
    } else {
      assert t !in s.ext.queues;
    }
  }

  lemma {:induction false} AboveIn(queue: seq<Indexed>, acked: int)
    ensures forall m :: m in Above(queue, acked) ==> m in queue
    decreases |queue|
  {
    if queue != [] {
      AboveIn(queue[..|queue| - 1], acked);
    }
  }

  lemma AckCaughtUp(s: System, t: TabId)
    requires s.CaughtUp(t)
    ensures s.DoReceive().CaughtUp(t)
  {
    var s' := s.DoReceive();
    ReceiveEffect(s, t);
    if s.up != [] && s.up[0].Acked? {
      AboveIn(s.ext.Queue(t), s.up[0].index);
    }
    assert forall m :: m in s'.ext.Queue(t) ==> m in s.ext.Queue(t);
  }

  lemma MonitorStep(s: System, synced: bool, step: Step, t: TabId)
    requires Inv(s) && s.Registers(step) && (synced ==> s.CaughtUp(t)) && Monitor(s, synced, step)
    ensures s.Next(step).CaughtUp(t)
  {
    match step
    case Send(u, x) => SendCaughtUp(s, u, x, t);
    case Deliver => DeliverCaughtUp(s, t);
    case Receive =>
      if s.up != [] && s.up[0].Ready? && s.ext.resolved && !s.page.Gone? {
        ReplayCaughtUp(s, t);
      } else {
        AckCaughtUp(s, t);
      }
    case Prompt(u, prompt) =>
      Facts(s, t);
      if s.page.Live? {
        PromptEffect(s, u, prompt, t);
      }
    case _ => Facts(s, t);
  }

  /** The documented handshake suffices: a run that posts live only after
      `webview-ready` was handled for the current page, or while nothing is queued,
      is careful, and so delivers exactly once and in order. */
  lemma {:induction false} HandshakeIsCareful(s: System, synced: bool, steps: seq<Step>)
    requires Inv(s) && s.AllRegister(steps) && Handshake(s, synced, steps) && (synced ==> AllCaughtUp(s))
    ensures s.AllCareful(steps)
    decreases |steps|
  {
    if steps != [] {
      var s' := s.Next(steps[0]);
      NextKeeps(s, steps[0]);
      if Monitor(s, synced, steps[0]) {
        forall t ensures s'.CaughtUp(t) {
          MonitorStep(s, synced, steps[0], t);
        }
      }
      HandshakeIsCareful(s', Monitor(s, synced, steps[0]), steps[1..]);
    }
  }

  lemma HandshakeDelivers(steps: seq<Step>, t: TabId)
    requires INITIAL.AllRegister(steps) && Handshake(INITIAL, true, steps)
    ensures var s := INITIAL.Run(steps);
            -1 <= s.Seen(t) < |s.Sent(t)| && s.Processed(t) == Stamp(t, s.Sent(t)[..s.Seen(t) + 1], 0)
  {
    InitialInv();
    HandshakeIsCareful(INITIAL, true, steps);
    ExactlyOnceInOrder(steps, t);
  }
}
