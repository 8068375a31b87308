/** Any number of servers on one bus, as a system of steps.  The bus is one list, in which
    each server has a place where it joined and a place it has read to; that servers on
    the repeater behave so is proved in `BusRefinement`
    (outdated/mcp-server/src/actor/dispatch.rs, repeater.rs). */
module BusSystem {
  import opened Collections
  import opened BusDispatch

  datatype Node = Node(server: Server, joined: nat, seen: nat)

  /** `sent` remembers the ids ever handed to the bus; no step depends on it. */
  datatype System = System(nodes: seq<Node>, bus: seq<Message>, sent: set<Id>)

  datatype Step =
    | Join(references: bool)
    | Ask(k: nat, body: Body, expectsReply: bool)
    | Publish(message: Message)
    | TakeRequest(k: nat)
    | Broadcast(k: nat)
    | Suppress(k: nat)     // a log message, which the repeater keeps to itself
    | Deliver(k: nat)
    | Expire(k: nat, channel: nat)
    | StopReferences(k: nat)

  function Ids(ms: seq<Message>): set<Id> {
    set m | m in ms :: m.id
  }

  const START := System([], [], {})

  function FreshServer(node: nat, references: bool): Server {
    Server(node, [], [], map[], [], if references then Table(map[]) else Absent, 0)
  }

  /** Whether a step can be taken.  Clients that are not servers may publish what they
      like, with an id of their own or one they have seen on the bus. */
  predicate Enabled(s: System, step: Step) {
    match step
    case Join(_) => true
    case Ask(k, _, _) => k < |s.nodes|
    case StopReferences(k) => k < |s.nodes|
    case Publish(m) => m.id.Foreign? || m.id in Ids(s.bus)
    case TakeRequest(k) => k < |s.nodes| && s.nodes[k].server.requests != []
    case Broadcast(k) => k < |s.nodes| && s.nodes[k].server.outgoing != []
    case Suppress(k) =>
      k < |s.nodes| && s.nodes[k].server.outgoing != [] && s.nodes[k].server.outgoing[0].body.Other?
    case Deliver(k) => k < |s.nodes| && s.nodes[k].seen < |s.bus|
    case Expire(k, c) =>
      k < |s.nodes| && c < |s.nodes[k].server.waiters| && s.nodes[k].server.waiters[c].state == Waiting
  }

  /** Server `k` becomes `sv`, which may have handed new messages to the bus. */
  function Become(s: System, k: nat, sv: Server): System
    requires k < |s.nodes|
  {
    s.(nodes := s.nodes[k := s.nodes[k].(server := sv)], sent := s.sent + Ids(sv.outgoing))
  }

  function Next(s: System, step: Step): System
    requires Enabled(s, step)
  {
    match step
    case Join(references) =>
      s.(nodes := s.nodes + [Node(FreshServer(|s.nodes|, references), |s.bus|, |s.bus|)])
    case Ask(k, body, expectsReply) => Become(s, k, s.nodes[k].server.Ask(body, expectsReply))
    case Publish(m) => s.(bus := s.bus + [m], sent := s.sent + {m.id})
    case TakeRequest(k) => Become(s, k, s.nodes[k].server.RequestTurn())
    case Broadcast(k) =>
      var sv := s.nodes[k].server;
      Become(s, k, sv.(outgoing := sv.outgoing[1..])).(bus := s.bus + [sv.outgoing[0]])
    case Suppress(k) =>
      var sv := s.nodes[k].server;
      Become(s, k, sv.(outgoing := sv.outgoing[1..]))
    case Deliver(k) =>
      var nd := s.nodes[k];
      var s' := Become(s, k, nd.server.MessageTurn(s.bus[nd.seen]));
      s'.(nodes := s'.nodes[k := s'.nodes[k].(seen := nd.seen + 1)])
    case Expire(k, c) => Become(s, k, s.nodes[k].server.Expire(c))
    case StopReferences(k) => Become(s, k, s.nodes[k].server.StopReferences())
  }

  /** A run in which every step can be taken. */
  predicate Possible(s: System, steps: seq<Step>)
    decreases |steps|
  {
    steps == [] || (Enabled(s, steps[0]) && Possible(Next(s, steps[0]), steps[1..]))
  }

  function Run(s: System, steps: seq<Step>): System
    requires Possible(s, steps)
    decreases |steps|
  {
    if steps == [] then s else Run(Next(s, steps[0]), steps[1..])
  }

  // ----- what was heard decides what is known -----

  /** The first response to `x`, if any: its reply, or that it did not parse. */
  function FirstResponse(heard: seq<Message>, x: Id): Option<Option<Reply>> {
    if heard == [] then None
    else
      var before, last := FirstResponse(heard[..|heard| - 1], x), heard[|heard| - 1];
      if before.Some? then before
      else if last.body.Response? && last.id == x then Some(last.body.reply)
      else None
  }

  /** What the first response makes of a `send` that waits for it. */
  function OutcomeOf(first: Option<Option<Reply>>): WaitState {
    match first
    case None => Waiting
    case Some(None) => Dropped
    case Some(Some(reply)) => Completed(reply)
  }

  /** The reference table after the stores heard. */
  function Stored(heard: seq<Message>): map<string, string> {
    if heard == [] then map[]
    else
      var before, last := Stored(heard[..|heard| - 1]), heard[|heard| - 1];
      if last.body.StoreReference? && last.body.entry.Some? then
        before[last.body.entry.value.0 := last.body.entry.value.1]
      else before
  }

  // ----- the invariant of one server -----

  /** Ids are the server's own and used once; queued requests are not sent yet. */
  ghost predicate Numbered(sv: Server, sent: set<Id>) {
    && (forall n: nat :: Own(sv.node, n) in sent ==> n < sv.made)
    && (forall c :: 0 <= c < |sv.waiters| ==> Made(sv, sv.waiters[c].id))
    && (forall c, d :: 0 <= c < d < |sv.waiters| ==> sv.waiters[c].id != sv.waiters[d].id)
    && (forall i :: 0 <= i < |sv.requests| ==>
          Made(sv, sv.requests[i].message.id) && sv.requests[i].message.id !in sent)
    && (forall i, j :: 0 <= i < j < |sv.requests| ==> sv.requests[i].message.id != sv.requests[j].message.id)
  }

  ghost predicate Made(sv: Server, x: Id) { x.Own? && x.node == sv.node && x.serial < sv.made }

  /** `c` is the channel of a `send` with id `x` that nothing has settled yet. */
  ghost predicate Unsettled(sv: Server, c: nat, x: Id) {
    c < |sv.waiters| && sv.waiters[c].id == x && (sv.waiters[c].state == Waiting || sv.waiters[c].state == TimedOut)
  }

  /** The reply channels of queued and of sent requests. */
  ghost predicate Filed(sv: Server, sent: set<Id>) {
    && (forall i :: 0 <= i < |sv.requests| && sv.requests[i].reply.Some? ==>
          Unsettled(sv, sv.requests[i].reply.value, sv.requests[i].message.id))
    && (forall x :: x in sv.pending ==> x in sent && Unsettled(sv, sv.pending[x], x))
  }

  ghost predicate Queued(sv: Server, c: nat) {
    exists i :: 0 <= i < |sv.requests| && sv.requests[i].reply == Some(c)
  }

  /** A waiting `send` is filed as soon as its request is sent, and its outcome is that
      of the first response heard. */
  ghost predicate WaiterOk(sv: Server, sent: set<Id>, heard: seq<Message>, c: nat)
    requires c < |sv.waiters|
  {
    var w := sv.waiters[c];
    && (w.id in sent && w.state == Waiting ==> w.id in sv.pending && sv.pending[w.id] == c)
    && (w.id !in sent ==> Queued(sv, c))
    && (w.state != TimedOut ==> w.state == OutcomeOf(FirstResponse(heard, w.id)))
  }

  ghost predicate ServerOk(sv: Server, sent: set<Id>, heard: seq<Message>) {
    && Numbered(sv, sent)
    && Filed(sv, sent)
    && (forall c :: 0 <= c < |sv.waiters| ==> WaiterOk(sv, sent, heard, c))
    && (sv.storage.Table? ==> sv.storage.entries == Stored(heard))
    && Ids(sv.outgoing) <= sent
  }

  // ----- it is kept -----

  lemma FirstResponseNext(heard: seq<Message>, m: Message, x: Id)
    ensures FirstResponse(heard + [m], x)
         == if FirstResponse(heard, x).Some? then FirstResponse(heard, x)
            else if m.body.Response? && m.id == x then Some(m.body.reply) else None
  {
    assert (heard + [m])[..|heard|] == heard;
  }

  lemma {:induction false} NoResponseUnsent(heard: seq<Message>, x: Id)
    requires x !in Ids(heard)
    ensures FirstResponse(heard, x) == None
  {
    if heard != [] {
      var n := |heard| - 1;
      assert heard[n] in heard;
      NoResponseUnsent(heard[..n], x);
    }
  }

  lemma StoredNext(heard: seq<Message>, m: Message)
    ensures Stored(heard + [m])
         == if m.body.StoreReference? && m.body.entry.Some? then
              Stored(heard)[m.body.entry.value.0 := m.body.entry.value.1]
            else Stored(heard)
  {
    assert (heard + [m])[..|heard|] == heard;
  }

  lemma IdsAppend(ms: seq<Message>, m: Message)
    ensures Ids(ms + [m]) == Ids(ms) + {m.id}
  {
    assert forall x :: x in ms + [m] <==> x in ms || x == m;
    assert forall x :: x in ms ==> x.id in Ids(ms);
  }

  /** Others handing messages to the bus changes nothing for a server. */
  lemma OthersSend(sv: Server, sent: set<Id>, heard: seq<Message>, more: set<Id>)
    requires ServerOk(sv, sent, heard)
    requires forall x :: x in more ==> x in sent || !(x.Own? && x.node == sv.node)
    ensures ServerOk(sv, sent + more, heard)
  {
    forall c | 0 <= c < |sv.waiters| ensures WaiterOk(sv, sent + more, heard, c) {
      assert WaiterOk(sv, sent, heard, c) && Made(sv, sv.waiters[c].id);
    }
  }

  lemma AskOk(sv: Server, sent: set<Id>, heard: seq<Message>, body: Body, expectsReply: bool)
    requires ServerOk(sv, sent, heard) && Ids(heard) <= sent
    ensures ServerOk(sv.Ask(body, expectsReply), sent, heard)
  {
    var sv' := sv.Ask(body, expectsReply);
    var x := Own(sv.node, sv.made);
    NoResponseUnsent(heard, x);
    forall c | 0 <= c < |sv'.waiters| ensures WaiterOk(sv', sent, heard, c) {
      if c < |sv.waiters| {
        assert WaiterOk(sv, sent, heard, c);
        if sv.waiters[c].id !in sent {
          var i :| 0 <= i < |sv.requests| && sv.requests[i].reply == Some(c);
          assert sv'.requests[i].reply == Some(c);
        }
      } else {
        assert sv'.requests[|sv.requests|].reply == Some(c);
      }
    }
  }

  lemma ExpireOk(sv: Server, sent: set<Id>, heard: seq<Message>, c: nat)
    requires ServerOk(sv, sent, heard) && c < |sv.waiters|
    ensures ServerOk(sv.Expire(c), sent, heard)
  {
    var sv' := sv.Expire(c);
    forall d | 0 <= d < |sv'.waiters| ensures WaiterOk(sv', sent, heard, d) {
      assert WaiterOk(sv, sent, heard, d);
      assert Queued(sv, d) ==> Queued(sv', d);
    }
  }

  lemma StopOk(sv: Server, sent: set<Id>, heard: seq<Message>)
    requires ServerOk(sv, sent, heard)
    ensures ServerOk(sv.StopReferences(), sent, heard)
  {
    var sv' := sv.StopReferences();
    forall c | 0 <= c < |sv'.waiters| ensures WaiterOk(sv', sent, heard, c) {
      assert WaiterOk(sv, sent, heard, c);
      assert Queued(sv, c) ==> Queued(sv', c);
    }
  }

  lemma RetainOk(sv: Server, sent: set<Id>, heard: seq<Message>)
    requires ServerOk(sv, sent, heard)
    ensures ServerOk(sv.Retain(), sent, heard)
  {
    var sv' := sv.Retain();
    forall c | 0 <= c < |sv'.waiters| ensures WaiterOk(sv', sent, heard, c) {
      assert WaiterOk(sv, sent, heard, c);
      assert Queued(sv, c) ==> Queued(sv', c);
    }
  }

  lemma AcceptOk(sv: Server, sent: set<Id>, heard: seq<Message>)
    requires ServerOk(sv, sent, heard) && sv.requests != []
    ensures ServerOk(sv.Accept(), sent + {sv.requests[0].message.id}, heard)
  {
    var sv', r := sv.Accept(), sv.requests[0];
    var sent' := sent + {r.message.id};
    IdsAppend(sv.outgoing, r.message);
    forall c | 0 <= c < |sv'.waiters| ensures WaiterOk(sv', sent', heard, c) {
      var x := sv.waiters[c].id;
      assert WaiterOk(sv, sent, heard, c);
      if x !in sent {
        var i :| 0 <= i < |sv.requests| && sv.requests[i].reply == Some(c);
        assert Unsettled(sv, c, sv.requests[i].message.id);
        if i > 0 {
          assert sv'.requests[i - 1].reply == Some(c);
        }
      }
    }
  }

  lemma SettleOk(sv: Server, sent: set<Id>, heard: seq<Message>, m: Message)
    requires ServerOk(sv, sent, heard) && m.id in sent && m.body.Response?
    ensures ServerOk(sv.Handle(m), sent, heard + [m])
  {
    var sv' := sv.Handle(m);
    StoredNext(heard, m);
    forall c | 0 <= c < |sv'.waiters| ensures WaiterOk(sv', sent, heard + [m], c) {
      FirstResponseNext(heard, m, sv.waiters[c].id);
      assert WaiterOk(sv, sent, heard, c);
      assert Queued(sv, c) ==> Queued(sv', c);
    }
  }

  lemma HandleOk(sv: Server, sent: set<Id>, heard: seq<Message>, m: Message)
    requires ServerOk(sv, sent, heard) && m.id in sent && !m.body.Response?
    ensures ServerOk(sv.Handle(m), sent + Ids(sv.Handle(m).outgoing), heard + [m])
  {
    var sv' := sv.Handle(m);
    var sent' := sent + Ids(sv'.outgoing);
    StoredNext(heard, m);
    if m.body.Marco? {
      IdsAppend(sv.outgoing, Message(Own(sv.node, sv.made), Polo));
    } else if m.body.StoreReference? {
      IdsAppend(sv.outgoing, Message(m.id, Response(Some(sv.StoreReply()))));
    }
    forall c | 0 <= c < |sv'.waiters| ensures WaiterOk(sv', sent', heard + [m], c) {
      FirstResponseNext(heard, m, sv.waiters[c].id);
      assert WaiterOk(sv, sent, heard, c) && Made(sv, sv.waiters[c].id);
      assert Queued(sv, c) ==> Queued(sv', c);
    }
  }
}
