/** Requests and replies over the bus, in every run: no response is missed, each
    waiting `send` is completed by the first response to its own id and by nothing
    else, and only live waiters stay filed. */
module BusCorrelation {
  import opened Collections
  import opened BusDispatch
  import opened BusSystem

  function Heard(s: System, k: nat): seq<Message>
    requires k < |s.nodes|
  {
    var nd := s.nodes[k];
    if nd.joined <= nd.seen <= |s.bus| then s.bus[nd.joined..nd.seen] else []
  }

  ghost predicate NodeOk(s: System, k: nat)
    requires k < |s.nodes|
  {
    && s.nodes[k].server.node == k
    && s.nodes[k].joined <= s.nodes[k].seen <= |s.bus|
    && ServerOk(s.nodes[k].server, s.sent, Heard(s, k))
  }

  ghost predicate Inv(s: System) {
    && (forall k :: 0 <= k < |s.nodes| ==> NodeOk(s, k))
    && Ids(s.bus) <= s.sent
    && (forall x :: x in s.sent && x.Own? ==> x.node < |s.nodes|)
  }

  lemma HeardIsOnBus(s: System, k: nat)
    requires k < |s.nodes|
    ensures Ids(Heard(s, k)) <= Ids(s.bus)
  {
  }

  /** One server changes, and may hand messages to the bus. */
  lemma BecomeKeeps(s: System, k: nat, sv: Server)
    requires Inv(s) && k < |s.nodes| && sv.node == k
    requires forall x :: x in Ids(sv.outgoing) ==> x in s.sent || (x.Own? && x.node == k)
    requires ServerOk(sv, s.sent + Ids(sv.outgoing), Heard(s, k))
    ensures Inv(Become(s, k, sv))
  {
    var s' := Become(s, k, sv);
    forall j | 0 <= j < |s'.nodes| ensures NodeOk(s', j) {
      assert NodeOk(s, j) && Heard(s', j) == Heard(s, j);
      if j != k {
        OthersSend(s.nodes[j].server, s.sent, Heard(s, j), Ids(sv.outgoing));
      }
    }
  }

  /** One server changes without handing anything to the bus. */
  lemma LocalKeeps(s: System, k: nat, sv: Server)
    requires Inv(s) && k < |s.nodes| && sv.node == k
    requires ServerOk(sv, s.sent, Heard(s, k))
    ensures Inv(Become(s, k, sv))
  {
    assert s.sent + Ids(sv.outgoing) == s.sent;
    BecomeKeeps(s, k, sv);
  }

  /** The bus grows. */
  lemma BusGrows(s: System, m: Message)
    requires Inv(s) && (m.id in s.sent || m.id.Foreign?)
    ensures Inv(s.(bus := s.bus + [m], sent := s.sent + {m.id}))
  {
    var s' := s.(bus := s.bus + [m], sent := s.sent + {m.id});
    IdsAppend(s.bus, m);
    forall j | 0 <= j < |s'.nodes| ensures NodeOk(s', j) {
      assert NodeOk(s, j);
      assert Heard(s', j) == Heard(s, j);
      OthersSend(s.nodes[j].server, s.sent, Heard(s, j), {m.id});
    }
  }

  lemma JoinKeeps(s: System, references: bool)
    requires Inv(s)
    ensures Inv(Next(s, Join(references)))
  {
    var s' := Next(s, Join(references));
    forall j | 0 <= j < |s'.nodes| ensures NodeOk(s', j) {
      if j < |s.nodes| {
        assert NodeOk(s, j) && Heard(s', j) == Heard(s, j);
      } else {
        assert Heard(s', j) == [];
      }
    }
  }

  lemma RequestKeeps(s: System, k: nat)
    requires Inv(s) && Enabled(s, TakeRequest(k))
    ensures Inv(Next(s, TakeRequest(k)))
  {
    assert NodeOk(s, k);
    var sv, heard := s.nodes[k].server, Heard(s, k);
    var r := sv.requests[0].message;
    AcceptOk(sv, s.sent, heard);
    RetainOk(sv.Accept(), s.sent + {r.id}, heard);
    IdsAppend(sv.outgoing, r);
    assert s.sent + Ids(sv.RequestTurn().outgoing) == s.sent + {r.id};
    BecomeKeeps(s, k, sv.RequestTurn());
  }

  lemma TurnOk(sv: Server, sent: set<Id>, heard: seq<Message>, m: Message)
    requires ServerOk(sv, sent, heard) && m.id in sent
    ensures var sv' := sv.MessageTurn(m);
            && ServerOk(sv', sent + Ids(sv'.outgoing), heard + [m])
            && sv'.node == sv.node
            && forall x :: x in Ids(sv'.outgoing) ==> x in sent || (x.Own? && x.node == sv.node)
  {
    var sv' := sv.MessageTurn(m);
    if m.body.Response? {
      SettleOk(sv, sent, heard, m);
      assert sent + Ids(sv'.outgoing) == sent;
    } else {
      HandleOk(sv, sent, heard, m);
    }
    RetainOk(sv.Handle(m), sent + Ids(sv'.outgoing), heard + [m]);
    match m.body
    case Marco => IdsAppend(sv.outgoing, Message(Own(sv.node, sv.made), Polo));
    case StoreReference(_) => IdsAppend(sv.outgoing, Message(m.id, Response(Some(sv.StoreReply()))));
    case _ =>
  }

  lemma DeliverKeeps(s: System, k: nat)
    requires Inv(s) && Enabled(s, Deliver(k))
    ensures Inv(Next(s, Deliver(k)))
  {
    assert NodeOk(s, k);
    var nd := s.nodes[k];
    var m := s.bus[nd.seen];
    var ahead := s.(nodes := s.nodes[k := nd.(seen := nd.seen + 1)]);
    assert m in s.bus;
    TurnOk(nd.server, s.sent, Heard(s, k), m);
    assert Heard(ahead, k) == Heard(s, k) + [m];
    var sv := nd.server.MessageTurn(m);
    var s' := Next(s, Deliver(k));
    forall j | 0 <= j < |s'.nodes| ensures NodeOk(s', j) {
      if j != k {
        assert NodeOk(s, j) && Heard(s', j) == Heard(s, j);
        OthersSend(s.nodes[j].server, s.sent, Heard(s, j), Ids(sv.outgoing));
      } else {
        assert Heard(s', k) == Heard(ahead, k);
      }
    }
  }

  /** A message leaves the server, for the bus or for good. */
  lemma SuppressKeeps(s: System, k: nat)
    requires Inv(s) && k < |s.nodes| && s.nodes[k].server.outgoing != []
    ensures var sv := s.nodes[k].server;
            Inv(Become(s, k, sv.(outgoing := sv.outgoing[1..]))) && sv.outgoing[0].id in s.sent
  {
    assert NodeOk(s, k);
    var sv := s.nodes[k].server;
    var sv' := sv.(outgoing := sv.outgoing[1..]);
    assert sv.outgoing[0] in sv.outgoing;
    assert Ids(sv'.outgoing) <= s.sent;
    assert ServerOk(sv', s.sent, Heard(s, k)) by {
      forall c | 0 <= c < |sv'.waiters| ensures WaiterOk(sv', s.sent, Heard(s, k), c) {
        assert WaiterOk(sv, s.sent, Heard(s, k), c);
        assert Queued(sv, c) ==> Queued(sv', c);
      }
    }
    LocalKeeps(s, k, sv');
  }

  lemma BroadcastKeeps(s: System, k: nat)
    requires Inv(s) && Enabled(s, Broadcast(k))
    ensures Inv(Next(s, Broadcast(k)))
  {
    SuppressKeeps(s, k);
    var sv := s.nodes[k].server;
    var t := Become(s, k, sv.(outgoing := sv.outgoing[1..]));
    BusGrows(t, sv.outgoing[0]);
    assert t.sent + {sv.outgoing[0].id} == t.sent;
  }

  lemma NextKeeps(s: System, step: Step)
    requires Inv(s) && Enabled(s, step)
    ensures Inv(Next(s, step))
  {
    match step
    case Join(references) => JoinKeeps(s, references);
    case Publish(m) =>
      BusGrows(s, m);
    case TakeRequest(k) => RequestKeeps(s, k);
    case Broadcast(k) => BroadcastKeeps(s, k);
    case Suppress(k) => SuppressKeeps(s, k);
    case Deliver(k) => DeliverKeeps(s, k);
    case Ask(k, body, expectsReply) =>
      assert NodeOk(s, k);
      HeardIsOnBus(s, k);
      AskOk(s.nodes[k].server, s.sent, Heard(s, k), body, expectsReply);
      LocalKeeps(s, k, s.nodes[k].server.Ask(body, expectsReply));
    case Expire(k, c) =>
      assert NodeOk(s, k);
      ExpireOk(s.nodes[k].server, s.sent, Heard(s, k), c);
      LocalKeeps(s, k, s.nodes[k].server.Expire(c));
    case StopReferences(k) =>
      assert NodeOk(s, k);
      StopOk(s.nodes[k].server, s.sent, Heard(s, k));
      LocalKeeps(s, k, s.nodes[k].server.StopReferences());
  }

  lemma {:induction false} RunKeeps(s: System, steps: seq<Step>)
    requires Inv(s) && Possible(s, steps)
    ensures Inv(Run(s, steps))
    decreases |steps|
  {
    if steps != [] {
      NextKeeps(s, steps[0]);
      RunKeeps(Next(s, steps[0]), steps[1..]);
    }
  }

  // ----- what it means -----

  /** In every run, a `send` that has not timed out stands exactly where the first
      response to its id, among the messages its server has read, puts it: waiting if
      there was none, completed with that reply, or dropped if it did not parse. */
  lemma OutcomeIsFirstResponse(steps: seq<Step>, k: nat, c: nat)
    requires Possible(START, steps)
    requires var s := Run(START, steps); k < |s.nodes| && c < |s.nodes[k].server.waiters|
    ensures var s := Run(START, steps);
            var w := s.nodes[k].server.waiters[c];
            w.state != TimedOut ==> w.state == OutcomeOf(FirstResponse(Heard(s, k), w.id))
  {
    RunKeeps(START, steps);
    var s := Run(START, steps);
    assert NodeOk(s, k) && WaiterOk(s.nodes[k].server, s.sent, Heard(s, k), c);
  }

  /** A response that reaches a server while its `send` waits settles it, however early
      it comes: the entry was filed before the request could be answered. */
  lemma NoResponseIsMissed(steps: seq<Step>, k: nat, c: nat)
    requires Possible(START, steps) && Enabled(Run(START, steps), Deliver(k))
    requires var s := Run(START, steps);
             var m := s.bus[s.nodes[k].seen];
             && c < |s.nodes[k].server.waiters|
             && s.nodes[k].server.waiters[c] == Waiter(m.id, Waiting)
             && m.body.Response?
    ensures var s := Run(START, steps);
            Next(s, Deliver(k)).nodes[k].server.waiters[c].state
            == OutcomeOf(Some(s.bus[s.nodes[k].seen].body.reply))
  {
    RunKeeps(START, steps);
    var s := Run(START, steps);
    var m := s.bus[s.nodes[k].seen];
    assert NodeOk(s, k) && WaiterOk(s.nodes[k].server, s.sent, Heard(s, k), c);
    assert m in s.bus;
  }

  /** What becomes of a waiting `send` in one step. */
  predicate Fate(s: System, step: Step, k: nat, c: nat, w: Waiter, w': Waiter)
    requires Enabled(s, step)
  {
    && w'.id == w.id
    && (w.state != Waiting ==> w' == w)
    && (w.state == Waiting && w' != w && step != Expire(k, c) ==>
          && step == Deliver(k)
          && s.bus[s.nodes[k].seen].body.Response?
          && s.bus[s.nodes[k].seen].id == w.id
          && w'.state == OutcomeOf(Some(s.bus[s.nodes[k].seen].body.reply)))
  }

  lemma TurnFate(sv: Server, sent: set<Id>, m: Message, c: nat)
    requires Filed(sv, sent) && c < |sv.waiters|
    ensures var w := sv.waiters[c];
            && c < |sv.MessageTurn(m).waiters|
            && var w' := sv.MessageTurn(m).waiters[c];
               w' == w || (w.state == Waiting && m.body.Response? && m.id == w.id
                           && w' == Waiter(w.id, OutcomeOf(Some(m.body.reply))))
  {
  }

  /** Only the turn that reads a response to its id completes a `send`; a settled or
      timed-out one stays as it is. */
  lemma SettledByOwnResponseOnly(steps: seq<Step>, step: Step, k: nat, c: nat)
    requires Possible(START, steps) && Enabled(Run(START, steps), step)
    requires var s := Run(START, steps); k < |s.nodes| && c < |s.nodes[k].server.waiters|
    ensures var s := Run(START, steps);
            var s' := Next(s, step);
            && k < |s'.nodes| && c < |s'.nodes[k].server.waiters|
            && Fate(s, step, k, c, s.nodes[k].server.waiters[c], s'.nodes[k].server.waiters[c])
  {
    RunKeeps(START, steps);
    var s := Run(START, steps);
    assert NodeOk(s, k);
    if step == Deliver(k) {
      TurnFate(s.nodes[k].server, s.sent, s.bus[s.nodes[k].seen], c);
    }
  }

  lemma SentIsNotQueued(sv: Server, sent: set<Id>, c: nat)
    requires Numbered(sv, sent) && Filed(sv, sent) && c < |sv.waiters| && sv.waiters[c].id in sent
    ensures !Queued(sv, c)
  {
    forall i | 0 <= i < |sv.requests| ensures sv.requests[i].reply != Some(c) {
      assert sv.requests[i].message.id !in sent;
    }
  }

  /** After a turn of its loop, the ids a server has filed are exactly those of its
      `send`s that still wait and whose request it has sent. */
  lemma OnlyLiveWaitersFiled(steps: seq<Step>, k: nat, turn: Step, x: Id)
    requires turn == TakeRequest(k) || turn == Deliver(k)
    requires Possible(START, steps) && Enabled(Run(START, steps), turn)
    ensures var s := Next(Run(START, steps), turn);
            k < |s.nodes| && (x in s.nodes[k].server.pending <==>
              exists c :: 0 <= c < |s.nodes[k].server.waiters|
                && s.nodes[k].server.waiters[c] == Waiter(x, Waiting) && !Queued(s.nodes[k].server, c))
  {
    RunKeeps(START, steps);
    var s0 := Run(START, steps);
    NextKeeps(s0, turn);
    var s := Next(s0, turn);
    var sv := s.nodes[k].server;
    assert NodeOk(s, k);
    if x in sv.pending {
      var c := sv.pending[x];
      assert Unsettled(sv, c, x) && !sv.Closed(c);
      SentIsNotQueued(sv, s.sent, c);
    }
    forall c | 0 <= c < |sv.waiters| && sv.waiters[c] == Waiter(x, Waiting) && !Queued(sv, c)
      ensures x in sv.pending
    {
      assert WaiterOk(sv, s.sent, Heard(s, k), c);
    }
  }

  /** Servers that joined together and have read equally far, and whose reference actors
      run, hold the same references, those of the stores read: the total order makes them
      replicas. */
  lemma ReplicasAgree(steps: seq<Step>, j: nat, k: nat)
    requires Possible(START, steps)
    requires var s := Run(START, steps);
             && j < |s.nodes| && k < |s.nodes|
             && s.nodes[j].server.storage.Table? && s.nodes[k].server.storage.Table?
             && s.nodes[j].joined == s.nodes[k].joined && s.nodes[j].seen == s.nodes[k].seen
    ensures var s := Run(START, steps);
            s.nodes[j].server.storage == s.nodes[k].server.storage == Table(Stored(Heard(s, k)))
  {
    RunKeeps(START, steps);
    var s := Run(START, steps);
    assert NodeOk(s, j) && NodeOk(s, k);
  }
}
