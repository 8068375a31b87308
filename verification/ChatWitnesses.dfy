/** Runs that show the hypotheses of the delivery theorems are needed. */
module ChatWitnesses {
  import opened ChatProvider
  import opened ChatWebview
  import opened ChatSystem

  /** Some run that registers tabs before sending to them ends in `s`. */
  ghost predicate Reachable(s: System) {
    exists steps :: INITIAL.AllRegister(steps) && INITIAL.Run(steps) == s
  }

  lemma {:induction false} RunSnoc(s: System, steps: seq<Step>, last: Step)
    ensures s.Run(steps + [last]) == s.Run(steps).Next(last)
    ensures s.AllRegister(steps + [last]) <==> s.AllRegister(steps) && s.Run(steps).Registers(last)
    decreases |steps|
  {
    var all := steps + [last];
    if steps == [] {
      assert all == [last] && all[1..] == [];
    } else {
      assert all[1..] == steps[1..] + [last];
      RunSnoc(s.Next(steps[0]), steps[1..], last);
    }
  }

  lemma ReachableNext(s: System, step: Step)
    requires Reachable(s) && s.Registers(step)
    ensures Reachable(s.Next(step))
  {
    var steps :| INITIAL.AllRegister(steps) && INITIAL.Run(steps) == s;
    RunSnoc(INITIAL, steps, step);
  }

  lemma ReachableInitial()
    ensures Reachable(INITIAL)
  {
    assert INITIAL.AllRegister([]) && INITIAL.Run([]) == INITIAL;
  }

  const X := AgentText("x")
  const Y := AgentText("y")

  /** A run up to a live page, with nothing on its way. */
  lemma ReachPage() returns (s: System)
    ensures Reachable(s)
    ensures s == System(0, Provider(true, true, [], map[], map[]), Live(Page(map[], map[], map[])),
                        NoState, [], [], map[], map[], map[])
  {
    ReachableInitial();
    s := INITIAL;
    ReachableNext(s, Resolve);
    s := s.Next(Resolve);
    ReachableNext(s, Show);
    s := s.Next(Show);
    ReachableNext(s, Create);
    s := s.Next(Create);
    ReachableNext(s, Load);
    s := s.Next(Load);
    assert s.up == [Ready];
    ReachableNext(s, Receive);
    s := s.Next(Receive);
    assert s.down == [] && s.up == [];
  }

  /** Then the user opens tab "a" and the extension registers it. */
  lemma ReachTab() returns (s: System)
    ensures Reachable(s)
    ensures s == System(0, Provider(true, true, ["a"], map["a" := []], map["a" := 0]), Live(Page(map[], map[], map[])),
                        SavedState(0, map[], map[]), [], [], map["a" := []], map[], map[])
  {
    s := ReachPage();
    ReachableNext(s, AddTab("a"));
    s := s.Next(AddTab("a"));
    assert s.up == [NewTab("a")];
    ReachableNext(s, Receive);
    s := s.Next(Receive);
    assert s.ext.order == ["a"];
  }

  /** From there: the view is hidden, its page dies, and "x" is queued. */
  lemma ReachBacklog() returns (s: System)
    ensures Reachable(s)
    ensures s == System(0, Provider(true, false, ["a"], map["a" := [Indexed("a", 0, X)]], map["a" := 1]), Gone,
                        SavedState(0, map[], map[]), [], [], map["a" := [X]], map[], map[])
  {
    s := ReachTab();
    ReachableNext(s, Hide);
    s := s.Next(Hide);
    ReachableNext(s, Destroy(0));
    s := s.Next(Destroy(0));
    assert s.up == [];
    assert |"a"| == 1 && s.ext.Accepts("a");
    ReachableNext(s, Send("a", X));
    s := s.Next(Send("a", X));
    assert s.ext.Queue("a") == [Indexed("a", 0, X)] && s.Sent("a") == [X];
  }

  /** Then the view is shown, and "y" is posted live to its new page. */
  lemma ReachOvertaking() returns (s: System)
    ensures Reachable(s)
    ensures var x, y := Indexed("a", 0, X), Indexed("a", 1, Y);
            s == System(0, Provider(true, true, ["a"], map["a" := [x, y]], map["a" := 2]),
                        Live(Page(map[], map[], map[])),
                        SavedState(0, map[], map[]), [y], [Ready], map["a" := [X, Y]], map[], map[])
  {
    s := ReachBacklog();
    var x, y := Indexed("a", 0, X), Indexed("a", 1, Y);
    ReachableNext(s, Show);
    s := s.Next(Show);
    ReachableNext(s, Create);
    s := s.Next(Create);
    assert |"a"| == 1 && s.ext.Accepts("a");
    ReachableNext(s, Send("a", Y));
    s := s.Next(Send("a", Y));
    assert s.ext.Queue("a") == [x, y] && s.Sent("a") == [X, Y] && s.down == [y];
    ReachableNext(s, Load);
    s := s.Next(Load);
    assert s.up == [Ready];
  }

  /** A live post between the view becoming visible again and `webview-ready`
      overtakes the backlog: "x" was sent while the view was hidden, "y" is posted
      live to the new page, and "x" is dropped as a duplicate and then forgotten by
      the extension. */
  lemma LivePostBeforeReadyLosesBacklog()
    ensures exists s ::
      && Reachable(s) && s.page.Live? && s.down == [] && s.up == []
      && s.Sent("a") == [X, Y] && s.Processed("a") == [Indexed("a", 1, Y)] && s.ext.Queue("a") == []
  {
    var s := ReachOvertaking();
    var x, y := Indexed("a", 0, X), Indexed("a", 1, Y);
    ReachableNext(s, Receive);
    var s' := s.Next(Receive);
    assert ["a"][..0] == [];
    assert s'.ext.Backlog(["a"]) == [x, y];
    assert s'.down == [y, x, y] && s'.up == [];
    FinishGap(s');
  }

  /** A page that has seen nothing of "a" reads `m`. */
  lemma ReadNew(s: System, m: Indexed)
    requires Reachable(s) && s.page.Live? && s.down != [] && s.down[0] == m && m.tab == "a"
    requires s.page.page.LastSeen("a") == -1 && s.Processed("a") == []
    ensures var s' := s.Next(Deliver);
            && Reachable(s') && s'.page.Live? && s'.ext == s.ext && s'.sent == s.sent && s'.down == s.down[1..]
            && s'.up == s.up + [Acked("a", m.index)] && s'.Processed("a") == [m]
            && s'.page.page.LastSeen("a") == m.index
  {
    ReachableNext(s, Deliver);
  }

  /** A page drops what it has seen. */
  lemma ReadOld(s: System)
    requires Reachable(s) && s.page.Live? && s.down != [] && s.down[0].index <= s.page.page.LastSeen(s.down[0].tab)
    ensures var s' := s.Next(Deliver);
            Reachable(s') && s' == s.(down := s.down[1..])
  {
    ReachableNext(s, Deliver);
  }

  lemma FinishGap(s: System)
    requires Reachable(s) && s.page.Live? && s.up == [] && s.page.page.LastSeen("a") == -1 && s.Processed("a") == []
    requires var x, y := Indexed("a", 0, X), Indexed("a", 1, Y);
             s.down == [y, x, y] && s.ext.Queue("a") == [x, y] && "a" in s.ext.queues && s.Sent("a") == [X, Y]
    ensures exists s' ::
      && Reachable(s') && s'.page.Live? && s'.down == [] && s'.up == []
      && s'.Sent("a") == [X, Y] && s'.Processed("a") == [Indexed("a", 1, Y)] && s'.ext.Queue("a") == []
  {
    var x, y := Indexed("a", 0, X), Indexed("a", 1, Y);
    ReadNew(s, y);
    var s1 := s.Next(Deliver);
    assert s1.down == [x, y];
    ReadOld(s1);
    var s2 := s1.Next(Deliver);
    assert s2.down == [y];
    ReadOld(s2);
    ForgetQueue(s2.Next(Deliver));
  }

  lemma ForgetQueue(s: System)
    requires Reachable(s) && s.page.Live? && s.down == [] && s.up == [Acked("a", 1)] && "a" in s.ext.queues
    requires s.ext.Queue("a") == [Indexed("a", 0, X), Indexed("a", 1, Y)]
    ensures var s' := s.Next(Receive);
            && Reachable(s') && s'.page.Live? && s'.down == [] && s'.up == [] && s'.Sent("a") == s.Sent("a")
            && s'.Processed("a") == s.Processed("a") && s'.ext.Queue("a") == []
  {
    var x, y := Indexed("a", 0, X), Indexed("a", 1, Y);
    ReachableNext(s, Receive);
    assert [x, y][..1] == [x] && [x][..0] == [];
    assert Above([], 1) == [] && Above([x], 1) == [] && Above([x, y], 1) == [];
  }

  /** The user opens tab "a", and "x" is sent to it before `new-tab` is handled. */
  lemma ReachLateTab() returns (s: System)
    ensures Reachable(s)
    ensures s == System(0, Provider(true, true, ["a"], map["a" := [Indexed("a", 0, X)]], map["a" := 1]),
                        Live(Page(map[], map[], map[])), SavedState(0, map[], map[]),
                        [Indexed("a", 0, X)], [NewTab("a")], map["a" := [X]], map[], map[])
  {
    s := ReachPage();
    ReachableNext(s, AddTab("a"));
    s := s.Next(AddTab("a"));
    assert s.up == [NewTab("a")];
    assert |"a"| == 1 && s.ext.Accepts("a");
    ReachableNext(s, Send("a", X));
    s := s.Next(Send("a", X));
    assert s.ext.Queue("a") == s.down == [Indexed("a", 0, X)] && s.Sent("a") == [X] && s.ext.order == ["a"];
  }

  /** Registering a tab after something was sent to it resets its index, and the
      next message is dropped: "y", the only message sent since, takes the index of "x". */
  lemma LateRegistrationLosesAMessage()
    ensures exists s: System ::
      && Reachable(s) && !s.Registers(Receive)
      && var s' := s.Next(Receive).Next(Send("a", Y)).Next(Deliver).Next(Deliver);
         s'.Sent("a") == [Y] && s'.Processed("a") == [Indexed("a", 0, X)] && s'.down == []
  {
    var s := ReachLateTab();
    var x, y := Indexed("a", 0, X), Indexed("a", 0, Y);
    var s1 := s.Next(Receive);
    assert s1.ext.Next("a") == 0 && s1.down == [x] && s1.ext.visible && s1.ext.resolved;
    assert |"a"| == 1 && s1.ext.Accepts("a");
    var s2 := s1.Next(Send("a", Y));
    assert s2.down == [x, y] && s2.Sent("a") == [Y];
    DeliverTwo(s2, x, y);
  }

  lemma DeliverTwo(s: System, x: Indexed, y: Indexed)
    requires s.page.Live? && s.down == [x, y] && x.tab == y.tab == "a" && y.index <= x.index
    requires s.page.page.LastSeen("a") == -1 && s.Processed("a") == []
    ensures var s' := s.Next(Deliver).Next(Deliver);
            s'.Sent("a") == s.Sent("a") && s'.Processed("a") == [x] && s'.down == []
  {
    var s1 := s.Next(Deliver);
    assert s1.down == [y] && s1.page.page.LastSeen("a") == x.index && s1.Processed("a") == [x];
  }
}
