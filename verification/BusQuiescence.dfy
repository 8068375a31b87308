/** Once nobody sends of their own accord, the bus falls silent: every run ends, and
    the number of further messages is bounded by the requests still to be answered. */
module BusQuiescence {
  import opened Collections
  import opened BusDispatch
  import opened BusSystem
  import opened BusCorrelation

  /** Messages a server may answer; `Polo` and `Response` trigger nothing. */
  predicate Triggers(m: Message) { m.body.Marco? || m.body.StoreReference? }

  /** A weighting of what is in flight with `n` servers: a message to be read, to be
      broadcast (and then read by every server), to be accepted; and a waiting `send`. */
  datatype Weights = Weights(n: nat, plain: nat, trigger: nat, cast: nat, post: nat, wait: nat)
  {
    function Hear(m: Message): nat { if Triggers(m) then trigger else plain }

    function Cast(m: Message): nat { cast + n * Hear(m) }

    function Hears(ms: seq<Message>): nat {
      if ms == [] then 0 else Hear(ms[0]) + Hears(ms[1..])
    }

    function Casts(ms: seq<Message>): nat {
      if ms == [] then 0 else Cast(ms[0]) + Casts(ms[1..])
    }

    function Posts(rs: seq<BusDispatch.Request>): nat {
      if rs == [] then 0 else post + Cast(rs[0].message) + Posts(rs[1..])
    }

    function Waits(ws: seq<Waiter>): nat {
      if ws == [] then 0 else (if ws[0].state == Waiting then wait else 0) + Waits(ws[1..])
    }

    function OfServer(sv: Server): nat {
      Posts(sv.requests) + Casts(sv.outgoing) + Waits(sv.waiters)
    }

    function OfNode(nd: Node, bus: seq<Message>): nat {
      OfServer(nd.server) + if nd.seen <= |bus| then Hears(bus[nd.seen..]) else 0
    }

    function OfNodes(nodes: seq<Node>, bus: seq<Message>): nat {
      if nodes == [] then 0 else OfNodes(nodes[..|nodes| - 1], bus) + OfNode(nodes[|nodes| - 1], bus)
    }

    /** Everything in flight. */
    function Of(s: System): nat { OfNodes(s.nodes, s.bus) }
  }

  // ----- sums -----

  lemma {:induction false} HearsAppend(w: Weights, ms: seq<Message>, m: Message)
    ensures w.Hears(ms + [m]) == w.Hears(ms) + w.Hear(m)
  {
    if ms != [] {
      assert (ms + [m])[1..] == ms[1..] + [m];
      HearsAppend(w, ms[1..], m);
    }
  }

  lemma {:induction false} CastsAppend(w: Weights, ms: seq<Message>, m: Message)
    ensures w.Casts(ms + [m]) == w.Casts(ms) + w.Cast(m)
  {
    if ms != [] {
      assert (ms + [m])[1..] == ms[1..] + [m];
      CastsAppend(w, ms[1..], m);
    }
  }

  lemma {:induction false} WaitsUpdate(w: Weights, ws: seq<Waiter>, c: nat, x: Waiter)
    requires c < |ws| && ws[c].state == Waiting && x.state != Waiting
    ensures w.Waits(ws[c := x]) + w.wait == w.Waits(ws)
  {
    if c > 0 {
      assert ws[c := x][1..] == ws[1..][c - 1 := x];
      WaitsUpdate(w, ws[1..], c - 1, x);
    } else {
      assert ws[c := x][1..] == ws[1..];
    }
  }

  lemma {:induction false} NodesUpdate(w: Weights, nodes: seq<Node>, bus: seq<Message>, k: nat, nd: Node)
    requires k < |nodes|
    ensures w.OfNodes(nodes[k := nd], bus) + w.OfNode(nodes[k], bus) == w.OfNodes(nodes, bus) + w.OfNode(nd, bus)
  {
    var n := |nodes| - 1;
    if k < n {
      assert nodes[k := nd][..n] == nodes[..n][k := nd];
      NodesUpdate(w, nodes[..n], bus, k, nd);
    } else {
      assert nodes[k := nd][..n] == nodes[..n];
    }
  }

  lemma NodeBroadcast(w: Weights, nd: Node, bus: seq<Message>, m: Message)
    requires nd.seen <= |bus|
    ensures w.OfNode(nd, bus + [m]) == w.OfNode(nd, bus) + w.Hear(m)
  {
    assert (bus + [m])[nd.seen..] == bus[nd.seen..] + [m];
    HearsAppend(w, bus[nd.seen..], m);
  }

  lemma OneMore(n: nat, h: nat)
    ensures (n + 1) * h == n * h + h
  {
  }

  /** A broadcast message is read once by each server. */
  lemma {:induction false} NodesBroadcast(w: Weights, nodes: seq<Node>, bus: seq<Message>, m: Message)
    requires forall k :: 0 <= k < |nodes| ==> nodes[k].seen <= |bus|
    ensures w.OfNodes(nodes, bus + [m]) == w.OfNodes(nodes, bus) + |nodes| * w.Hear(m)
  {
    if nodes != [] {
      var n := |nodes| - 1;
      NodesBroadcast(w, nodes[..n], bus, m);
      NodeBroadcast(w, nodes[n], bus, m);
      OneMore(n, w.Hear(m));
    }
  }

  // ----- what each step does to them -----

  predicate Reading(s: System) { forall k :: 0 <= k < |s.nodes| ==> s.nodes[k].seen <= |s.bus| }

  /** Steps of the servers and the bus; nobody sends of their own accord. */
  predicate Reaction(step: Step) {
    step.TakeRequest? || step.Broadcast? || step.Suppress? || step.Deliver? || step.Expire?
  }

  lemma SettleWeight(w: Weights, sv: Server, c: nat, reply: Option<Reply>)
    ensures w.OfServer(sv.Settle(c, reply)) <= w.OfServer(sv)
  {
    if c < |sv.waiters| && sv.waiters[c].state == Waiting {
      var x := sv.waiters[c].(state := if reply.Some? then Completed(reply.value) else Dropped);
      WaitsUpdate(w, sv.waiters, c, x);
    }
  }

  /** Reading a message creates at most one, and only if it triggers; that one does not. */
  lemma TurnWeight(w: Weights, sv: Server, m: Message)
    ensures w.OfServer(sv.MessageTurn(m)) <= w.OfServer(sv) + if Triggers(m) then w.cast + w.n * w.plain else 0
  {
    match m.body
    case Marco => CastsAppend(w, sv.outgoing, Message(Own(sv.node, sv.made), Polo));
    case StoreReference(_) => CastsAppend(w, sv.outgoing, Message(m.id, Response(Some(sv.StoreReply()))));
    case Response(reply) =>
      if m.id in sv.pending {
        SettleWeight(w, sv.(pending := sv.pending - {m.id}), sv.pending[m.id], reply);
      }
    case _ =>
  }

  lemma DeliverWeight(w: Weights, s: System, k: nat)
    requires w.n == |s.nodes| && Reading(s) && Enabled(s, Deliver(k))
    ensures var m := s.bus[s.nodes[k].seen];
            w.Of(Next(s, Deliver(k))) + w.Hear(m) <= w.Of(s) + if Triggers(m) then w.cast + w.n * w.plain else 0
  {
    var nd := s.nodes[k];
    var m := s.bus[nd.seen];
    var nd' := Node(nd.server.MessageTurn(m), nd.joined, nd.seen + 1);
    assert s.bus[nd.seen..][0] == m && s.bus[nd.seen..][1..] == s.bus[nd.seen + 1..];
    TurnWeight(w, nd.server, m);
    NodesUpdate(w, s.nodes, s.bus, k, nd');
    assert Next(s, Deliver(k)).nodes == s.nodes[k := nd'];
  }

  lemma BroadcastWeight(w: Weights, s: System, k: nat)
    requires w.n == |s.nodes| && Reading(s) && Enabled(s, Broadcast(k))
    ensures w.Of(Next(s, Broadcast(k))) + w.cast == w.Of(s)
  {
    var nd := s.nodes[k];
    var m := nd.server.outgoing[0];
    var nd' := nd.(server := nd.server.(outgoing := nd.server.outgoing[1..]));
    NodesUpdate(w, s.nodes, s.bus, k, nd');
    NodesBroadcast(w, s.nodes[k := nd'], s.bus, m);
    assert Next(s, Broadcast(k)).nodes == s.nodes[k := nd'];
  }

  lemma CastAtLeast(w: Weights, m: Message)
    ensures w.Cast(m) >= w.cast
  {
    assert w.n * w.Hear(m) >= 0;
  }

  lemma LeavesWeight(w: Weights, nd: Node, bus: seq<Message>)
    requires nd.server.outgoing != []
    ensures var sv := nd.server;
            w.OfNode(nd.(server := sv.(outgoing := sv.outgoing[1..])), bus) + w.Cast(sv.outgoing[0])
            == w.OfNode(nd, bus)
  {
  }

  lemma SuppressWeight(w: Weights, s: System, k: nat)
    requires Reading(s) && Enabled(s, Suppress(k))
    ensures w.Of(Next(s, Suppress(k))) + w.cast <= w.Of(s)
  {
    var nd := s.nodes[k];
    var nd' := nd.(server := nd.server.(outgoing := nd.server.outgoing[1..]));
    NodesUpdate(w, s.nodes, s.bus, k, nd');
    LeavesWeight(w, nd, s.bus);
    CastAtLeast(w, nd.server.outgoing[0]);
    assert Next(s, Suppress(k)).nodes == s.nodes[k := nd'];
  }

  lemma TakeRequestWeight(w: Weights, s: System, k: nat)
    requires Reading(s) && Enabled(s, TakeRequest(k))
    ensures w.Of(Next(s, TakeRequest(k))) + w.post == w.Of(s)
  {
    var nd := s.nodes[k];
    CastsAppend(w, nd.server.outgoing, nd.server.requests[0].message);
    NodesUpdate(w, s.nodes, s.bus, k, nd.(server := nd.server.RequestTurn()));
  }

  lemma ExpireWeight(w: Weights, s: System, k: nat, c: nat)
    requires Reading(s) && Enabled(s, Expire(k, c))
    ensures w.Of(Next(s, Expire(k, c))) + w.wait == w.Of(s)
  {
    var nd := s.nodes[k];
    var ws := nd.server.waiters;
    WaitsUpdate(w, ws, c, ws[c].(state := TimedOut));
    NodesUpdate(w, s.nodes, s.bus, k, nd.(server := nd.server.Expire(c)));
  }

  // ----- silence -----

  /** Steps still to come: a reply takes one step to broadcast and one per server to read. */
  function StepsLeft(s: System): nat {
    Weights(|s.nodes|, 1, |s.nodes| + 2, 1, 1, 1).Of(s)
  }

  /** Messages made so far, wherever they are. */
  function Messages(s: System): nat {
    |s.bus| + Weights(|s.nodes|, 0, 0, 1, 0, 0).Of(s)
  }

  /** Messages there are or may come to be: one for each message that triggers and each
      server that has not read it yet. */
  function MessagesAtMost(s: System): nat {
    |s.bus| + Weights(|s.nodes|, 0, 1, 1, 0, 0).Of(s)
  }

  /** The pairs of a message in flight that triggers and a server still to read it. */
  function RepliesOwed(s: System): nat {
    Weights(|s.nodes|, 0, 1, 0, 0, 0).Of(s)
  }

  lemma DeliverTakesStep(s: System, k: nat)
    requires Reading(s) && Enabled(s, Deliver(k))
    ensures StepsLeft(Next(s, Deliver(k))) < StepsLeft(s)
  {
    var steps := Weights(|s.nodes|, 1, |s.nodes| + 2, 1, 1, 1);
    DeliverWeight(steps, s, k);
    assert steps.n * steps.plain == |s.nodes|;
  }

  lemma ReactionTakesStep(s: System, step: Step)
    requires Reading(s) && Enabled(s, step) && Reaction(step)
    ensures StepsLeft(Next(s, step)) < StepsLeft(s)
  {
    var steps := Weights(|s.nodes|, 1, |s.nodes| + 2, 1, 1, 1);
    match step
    case TakeRequest(k) => TakeRequestWeight(steps, s, k);
    case Broadcast(k) => BroadcastWeight(steps, s, k);
    case Suppress(k) => SuppressWeight(steps, s, k);
    case Deliver(k) => DeliverTakesStep(s, k);
    case Expire(k, c) => ExpireWeight(steps, s, k, c);
  }

  lemma ReactionKeepsBound(s: System, step: Step)
    requires Reading(s) && Enabled(s, step) && Reaction(step)
    ensures MessagesAtMost(Next(s, step)) <= MessagesAtMost(s)
  {
    var messages := Weights(|s.nodes|, 0, 1, 1, 0, 0);
    match step
    case TakeRequest(k) => TakeRequestWeight(messages, s, k);
    case Broadcast(k) => BroadcastWeight(messages, s, k);
    case Suppress(k) => SuppressWeight(messages, s, k);
    case Deliver(k) => DeliverWeight(messages, s, k);
    case Expire(k, c) => ExpireWeight(messages, s, k, c);
  }

  lemma ReactionKeepsReading(s: System, step: Step)
    requires Reading(s) && Enabled(s, step) && Reaction(step)
    ensures Reading(Next(s, step)) && |Next(s, step).nodes| == |s.nodes|
  {
  }

  lemma {:induction false} ReactionsShrink(s: System, steps: seq<Step>)
    requires Reading(s) && Possible(s, steps) && forall i :: 0 <= i < |steps| ==> Reaction(steps[i])
    ensures |steps| + StepsLeft(Run(s, steps)) <= StepsLeft(s)
    ensures MessagesAtMost(Run(s, steps)) <= MessagesAtMost(s)
    ensures Reading(Run(s, steps)) && |Run(s, steps).nodes| == |s.nodes|
    decreases |steps|
  {
    if steps != [] {
      ReactionTakesStep(s, steps[0]);
      ReactionKeepsBound(s, steps[0]);
      ReactionKeepsReading(s, steps[0]);
      ReactionsShrink(Next(s, steps[0]), steps[1..]);
    }
  }

  lemma {:induction false} AtMostIsOwed(s: System, nodes: seq<Node>, n: nat)
    ensures Weights(n, 0, 1, 1, 0, 0).OfNodes(nodes, s.bus)
         == Weights(n, 0, 0, 1, 0, 0).OfNodes(nodes, s.bus) + Weights(n, 0, 1, 0, 0, 0).OfNodes(nodes, s.bus)
  {
    if nodes != [] {
      var m := |nodes| - 1;
      AtMostIsOwed(s, nodes[..m], n);
      var sv := nodes[m].server;
      CastsAdd(n, sv.outgoing);
      PostsAdd(n, sv.requests);
      WaitsNothing(sv.waiters, n);
      if nodes[m].seen <= |s.bus| {
        HearsNothing(n, s.bus[nodes[m].seen..]);
      }
    }
  }

  lemma {:induction false} CastsAdd(n: nat, ms: seq<Message>)
    ensures Weights(n, 0, 1, 1, 0, 0).Casts(ms)
         == Weights(n, 0, 0, 1, 0, 0).Casts(ms) + Weights(n, 0, 1, 0, 0, 0).Casts(ms)
  {
    if ms != [] {
      CastsAdd(n, ms[1..]);
    }
  }

  lemma {:induction false} PostsAdd(n: nat, rs: seq<BusDispatch.Request>)
    ensures Weights(n, 0, 1, 1, 0, 0).Posts(rs)
         == Weights(n, 0, 0, 1, 0, 0).Posts(rs) + Weights(n, 0, 1, 0, 0, 0).Posts(rs)
  {
    if rs != [] {
      PostsAdd(n, rs[1..]);
    }
  }

  lemma {:induction false} WaitsNothing(ws: seq<Waiter>, n: nat)
    ensures Weights(n, 0, 1, 1, 0, 0).Waits(ws) == 0
    ensures Weights(n, 0, 0, 1, 0, 0).Waits(ws) == Weights(n, 0, 1, 0, 0, 0).Waits(ws) == 0
  {
    if ws != [] {
      WaitsNothing(ws[1..], n);
    }
  }

  lemma {:induction false} HearsNothing(n: nat, ms: seq<Message>)
    ensures Weights(n, 0, 1, 1, 0, 0).Hears(ms) == Weights(n, 0, 1, 0, 0, 0).Hears(ms)
    ensures Weights(n, 0, 0, 1, 0, 0).Hears(ms) == 0
  {
    if ms != [] {
      HearsNothing(n, ms[1..]);
    }
  }

  lemma RunReading(before: seq<Step>)
    requires Possible(START, before)
    ensures Reading(Run(START, before))
  {
    RunKeeps(START, before);
    var s := Run(START, before);
    forall k | 0 <= k < |s.nodes| ensures s.nodes[k].seen <= |s.bus| {
      assert NodeOk(s, k);
    }
  }

  lemma BoundedByOwed(s: System)
    ensures MessagesAtMost(s) == Messages(s) + RepliesOwed(s)
  {
    AtMostIsOwed(s, s.nodes, |s.nodes|);
  }

  /** After any run, once servers stop sending of their own accord, the rest of the run
      ends within a number of steps fixed by then, and makes no more messages than there
      are pairs of a message in flight that triggers and a server yet to read it. */
  lemma TheBusFallsSilent(before: seq<Step>, steps: seq<Step>)
    requires Possible(START, before)
    requires Possible(Run(START, before), steps) && forall i :: 0 <= i < |steps| ==> Reaction(steps[i])
    ensures var s := Run(START, before);
            && |steps| <= StepsLeft(s)
            && Messages(Run(s, steps)) <= Messages(s) + RepliesOwed(s)
  {
    var s := Run(START, before);
    RunReading(before);
    ReactionsShrink(s, steps);
    BoundedByOwed(s);
    BoundedByOwed(Run(s, steps));
  }
}
