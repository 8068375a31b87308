/** Servers that talk through the repeater, each reading from the mailbox of its own
    channel, are the servers of `BusSystem`: what is proved there of one shared list
    holds of the repeater and its mailboxes
    (outdated/mcp-server/src/actor/repeater.rs, daemon.rs, dispatch.rs). */
module BusRefinement {
  import opened Collections
  import opened BusDispatch
  import opened BusRepeater
  import opened BusBroadcast
  import BusSystem
  import BusCorrelation

  // ----- the servers, the repeater and its mailboxes -----

  /** How messages are written on a line and read from one, and which lines the repeater
      takes for log messages. */
  datatype Wire = Wire(write: Message -> string, read: string -> Message, isLog: string -> bool)
  {
    /** Messages are read back, and only messages the servers ignore can be logs. */
    ghost predicate Sound() {
      forall m :: read(write(m)) == m && (isLog(write(m)) ==> m.body.Other?)
    }

    function ReadAll(lines: seq<string>): (r: seq<Message>)
      ensures |r| == |lines| && forall i :: 0 <= i < |r| ==> r[i] == read(lines[i])
    {
      seq(|lines|, i requires 0 <= i < |lines| => read(lines[i]))
    }
  }

  /** A server with its channel: event `at` subscribed it, and `taken` lines of its mailbox
      have been read. */
  datatype Peer = Peer(server: Server, channel: ChannelId, at: nat, taken: nat)

  /** Everything the repeater was sent, the servers, and the ids ever handed to it. */
  datatype Hub = Hub(events: seq<Event>, peers: seq<Peer>, sent: set<Id>)

  datatype Step =
    | Join(channel: ChannelId, references: bool)
    | Aside(event: Event)      // other clients come, go, are named and log; servers go away
    | Publish(client: ClientId, line: string, timestamp: nat)
    | Ask(k: nat, body: Body, expectsReply: bool)
    | TakeRequest(k: nat)
    | Send(k: nat, client: ClientId, timestamp: nat)
    | Read(k: nat)
    | Expire(k: nat, waiter: nat)
    | StopReferences(k: nat)

  const NO_PEERS := Hub([], [], {})

  /** What the repeater has put into the mailbox of a channel. */
  function Inbox(w: Wire, events: seq<Event>, c: ChannelId): seq<string> {
    var r := Run(w.isLog, events);
    if c in r.mailboxes then r.mailboxes[c].inbox else []
  }

  /** The messages broadcast. */
  function Bus(w: Wire, events: seq<Event>): seq<Message> { w.ReadAll(Broadcasts(w.isLog, events)) }

  /** Channels are new to the repeater; clients that are not servers log, or publish with
      an id of their own or one they have seen. */
  predicate Enabled(w: Wire, h: Hub, step: Step) {
    match step
    case Join(c, _) => Subscribe(c) !in h.events && Drop(c) !in h.events
    case Aside(e) =>
      && (e.Incoming? ==> w.isLog(e.content))
      && (e.Subscribe? ==> forall k :: 0 <= k < |h.peers| ==> h.peers[k].channel != e.channel)
    case Publish(_, line, _) =>
      !w.isLog(line) && (w.read(line).id.Foreign? || w.read(line).id in BusSystem.Ids(Bus(w, h.events)))
    case Ask(k, _, _) => k < |h.peers|
    case TakeRequest(k) => k < |h.peers| && h.peers[k].server.requests != []
    case Send(k, _, _) => k < |h.peers| && h.peers[k].server.outgoing != []
    case Read(k) => k < |h.peers| && h.peers[k].taken < |Inbox(w, h.events, h.peers[k].channel)|
    case Expire(k, c) =>
      k < |h.peers| && c < |h.peers[k].server.waiters| && h.peers[k].server.waiters[c].state == Waiting
    case StopReferences(k) => k < |h.peers|
  }

  function Become(h: Hub, k: nat, p: Peer): Hub
    requires k < |h.peers|
  {
    h.(peers := h.peers[k := p], sent := h.sent + BusSystem.Ids(p.server.outgoing))
  }

  function Next(w: Wire, h: Hub, step: Step): Hub
    requires Enabled(w, h, step)
  {
    match step
    case Join(c, references) =>
      var server := BusSystem.FreshServer(|h.peers|, references);
      h.(events := h.events + [Subscribe(c)], peers := h.peers + [Peer(server, c, |h.events|, 0)])
    case Aside(e) => h.(events := h.events + [e])
    case Publish(client, line, timestamp) =>
      h.(events := h.events + [Incoming(client, line, timestamp)], sent := h.sent + {w.read(line).id})
    case Ask(k, body, expectsReply) =>
      var p := h.peers[k];
      Become(h, k, p.(server := p.server.Ask(body, expectsReply)))
    case TakeRequest(k) =>
      var p := h.peers[k];
      Become(h, k, p.(server := p.server.RequestTurn()))
    case Send(k, client, timestamp) =>
      var p := h.peers[k];
      var sv := p.server;
      Become(h, k, p.(server := sv.(outgoing := sv.outgoing[1..])))
      .(events := h.events + [Incoming(client, w.write(sv.outgoing[0]), timestamp)])
    case Read(k) =>
      var p := h.peers[k];
      var m := w.read(Inbox(w, h.events, p.channel)[p.taken]);
      Become(h, k, p.(server := p.server.MessageTurn(m), taken := p.taken + 1))
    case Expire(k, c) =>
      var p := h.peers[k];
      Become(h, k, p.(server := p.server.Expire(c)))
    case StopReferences(k) =>
      var p := h.peers[k];
      Become(h, k, p.(server := p.server.StopReferences()))
  }

  predicate Possible(w: Wire, h: Hub, steps: seq<Step>)
    decreases |steps|
  {
    steps == [] || (Enabled(w, h, steps[0]) && Possible(w, Next(w, h, steps[0]), steps[1..]))
  }

  function RunAll(w: Wire, h: Hub, steps: seq<Step>): Hub
    requires Possible(w, h, steps)
    decreases |steps|
  {
    if steps == [] then h else RunAll(w, Next(w, h, steps[0]), steps[1..])
  }

  // ----- as a system with one bus -----

  /** How much had been broadcast when event `at` came. */
  function Joined(w: Wire, events: seq<Event>, at: nat): nat {
    if at <= |events| then |Broadcasts(w.isLog, events[..at])| else 0
  }

  function AbsNode(w: Wire, events: seq<Event>, p: Peer): BusSystem.Node {
    BusSystem.Node(p.server, Joined(w, events, p.at), Joined(w, events, p.at) + p.taken)
  }

  function AbsNodes(w: Wire, events: seq<Event>, peers: seq<Peer>): (r: seq<BusSystem.Node>)
    ensures |r| == |peers| && forall k :: 0 <= k < |r| ==> r[k] == AbsNode(w, events, peers[k])
  {
    seq(|peers|, k requires 0 <= k < |peers| => AbsNode(w, events, peers[k]))
  }

  function Abs(w: Wire, h: Hub): BusSystem.System {
    BusSystem.System(AbsNodes(w, h.events, h.peers), Bus(w, h.events), h.sent)
  }

  /** The step of the system with one bus that a step amounts to, if any. */
  function StepOf(w: Wire, h: Hub, step: Step): Option<BusSystem.Step>
    requires Enabled(w, h, step)
  {
    match step
    case Join(_, references) => Some(BusSystem.Join(references))
    case Aside(_) => None
    case Publish(_, line, _) => Some(BusSystem.Publish(w.read(line)))
    case Ask(k, body, expectsReply) => Some(BusSystem.Ask(k, body, expectsReply))
    case TakeRequest(k) => Some(BusSystem.TakeRequest(k))
    case Send(k, _, _) =>
      var line := w.write(h.peers[k].server.outgoing[0]);
      Some(if w.isLog(line) then BusSystem.Suppress(k) else BusSystem.Broadcast(k))
    case Read(k) => Some(BusSystem.Deliver(k))
    case Expire(k, c) => Some(BusSystem.Expire(k, c))
    case StopReferences(k) => Some(BusSystem.StopReferences(k))
  }

  function StepsOf(w: Wire, h: Hub, steps: seq<Step>): seq<BusSystem.Step>
    requires Possible(w, h, steps)
    decreases |steps|
  {
    if steps == [] then []
    else
      (match StepOf(w, h, steps[0]) case Some(step) => [step] case None => [])
      + StepsOf(w, Next(w, h, steps[0]), steps[1..])
  }

  // ----- the invariant -----

  /** The peer's channel was subscribed once, by event `at`. */
  ghost predicate PeerOk(w: Wire, events: seq<Event>, p: Peer) {
    && p.at < |events| && events[p.at] == Subscribe(p.channel)
    && Subscribe(p.channel) !in events[..p.at] && Drop(p.channel) !in events[..p.at]
    && Subscribe(p.channel) !in events[p.at + 1..]
    && p.taken <= |Inbox(w, events, p.channel)|
  }

  ghost predicate Inv(w: Wire, h: Hub) {
    forall k :: 0 <= k < |h.peers| ==> PeerOk(w, h.events, h.peers[k])
  }

  lemma {:induction false} UntilDropPrefix(isLog: string -> bool, es: seq<Event>, c: ChannelId)
    ensures Broadcasts(isLog, UntilDrop(es, c)) <= Broadcasts(isLog, es)
  {
    if Drop(c) in es {
      UntilDropPrefix(isLog, es[..|es| - 1], c);
    }
  }

  lemma CutAt(events: seq<Event>, at: nat)
    requires at < |events|
    ensures events == events[..at] + [events[at]] + events[at + 1..]
  {
  }

  lemma Stretch<T>(before: seq<T>, since: seq<T>, got: seq<T>, all: seq<T>)
    requires all == before + since && got <= since
    ensures |before| + |got| <= |all| && got == all[|before|..|before| + |got|]
  {
  }

  lemma InboxIs(w: Wire, events: seq<Event>, p: Peer)
    requires PeerOk(w, events, p)
    ensures Inbox(w, events, p.channel) == Broadcasts(w.isLog, UntilDrop(events[p.at + 1..], p.channel))
  {
    CutAt(events, p.at);
    ReceivesAllSinceSubscription(w.isLog, events[..p.at], p.channel, events[p.at + 1..]);
  }

  lemma BusIs(w: Wire, events: seq<Event>, p: Peer)
    requires PeerOk(w, events, p)
    ensures Broadcasts(w.isLog, events)
         == Broadcasts(w.isLog, events[..p.at]) + Broadcasts(w.isLog, events[p.at + 1..])
  {
    CutAt(events, p.at);
    BroadcastsAround(w.isLog, events[..p.at], p.channel, events[p.at + 1..]);
  }

  /** A mailbox holds a stretch of the bus, from where its channel was subscribed. */
  lemma InboxOnBus(w: Wire, events: seq<Event>, p: Peer)
    requires PeerOk(w, events, p)
    ensures var inbox, all, joined := Inbox(w, events, p.channel), Broadcasts(w.isLog, events), Joined(w, events, p.at);
            joined + |inbox| <= |all| && inbox == all[joined..joined + |inbox|]
  {
    InboxIs(w, events, p);
    BusIs(w, events, p);
    UntilDropPrefix(w.isLog, events[p.at + 1..], p.channel);
    Stretch(Broadcasts(w.isLog, events[..p.at]), Broadcasts(w.isLog, events[p.at + 1..]),
            Inbox(w, events, p.channel), Broadcasts(w.isLog, events));
  }

  lemma InboxGrows(w: Wire, events: seq<Event>, e: Event, c: ChannelId)
    requires c in Run(w.isLog, events).mailboxes && e != Subscribe(c)
    ensures |Inbox(w, events + [e], c)| >= |Inbox(w, events, c)|
  {
    RunNext(w.isLog, events, e);
    NextChannel(w.isLog, Run(w.isLog, events), e, c);
  }

  lemma Subscribed(w: Wire, events: seq<Event>, p: Peer)
    requires PeerOk(w, events, p)
    ensures p.channel in Run(w.isLog, events).mailboxes
  {
    CutAt(events, p.at);
    ReceivesAllSinceSubscription(w.isLog, events[..p.at], p.channel, events[p.at + 1..]);
  }

  /** One more event at the repeater, for a peer that is there. */
  lemma EventKeepsPeer(w: Wire, events: seq<Event>, e: Event, p: Peer)
    requires PeerOk(w, events, p) && e != Subscribe(p.channel)
    ensures PeerOk(w, events + [e], p) && AbsNode(w, events + [e], p) == AbsNode(w, events, p)
  {
    var more := events + [e];
    assert more[..p.at] == events[..p.at] && more[p.at + 1..] == events[p.at + 1..] + [e];
    Subscribed(w, events, p);
    InboxGrows(w, events, e, p.channel);
  }

  lemma EventBroadcast(w: Wire, events: seq<Event>, e: Event)
    ensures Broadcasts(w.isLog, events + [e])
         == Broadcasts(w.isLog, events) + if e.Incoming? && !w.isLog(e.content) then [e.content] else []
  {
    assert (events + [e])[..|events|] == events;
  }

  /** One more event at the repeater, for the whole. */
  lemma EventAbs(w: Wire, h: Hub, e: Event)
    requires Inv(w, h) && forall k :: 0 <= k < |h.peers| ==> e != Subscribe(h.peers[k].channel)
    ensures var h' := h.(events := h.events + [e]);
            && Inv(w, h')
            && AbsNodes(w, h'.events, h'.peers) == AbsNodes(w, h.events, h.peers)
            && Bus(w, h'.events)
               == Bus(w, h.events) + if e.Incoming? && !w.isLog(e.content) then [w.read(e.content)] else []
  {
    forall k | 0 <= k < |h.peers|
      ensures PeerOk(w, h.events + [e], h.peers[k])
      ensures AbsNode(w, h.events + [e], h.peers[k]) == AbsNode(w, h.events, h.peers[k])
    {
      EventKeepsPeer(w, h.events, e, h.peers[k]);
    }
    EventBroadcast(w, h.events, e);
  }

  // ----- each step -----

  /** A step keeps the invariant, and is the step of the system it amounts to. */
  ghost predicate Simulated(w: Wire, h: Hub, step: Step)
    requires Enabled(w, h, step)
  {
    var h' := Next(w, h, step);
    && Inv(w, h')
    && match StepOf(w, h, step)
       case None => Abs(w, h') == Abs(w, h)
       case Some(a) => BusSystem.Enabled(Abs(w, h), a) && BusSystem.Next(Abs(w, h), a) == Abs(w, h')
  }

  lemma JoinSimulated(w: Wire, h: Hub, c: ChannelId, references: bool)
    requires Inv(w, h) && Enabled(w, h, Join(c, references))
    ensures Simulated(w, h, Join(c, references))
  {
    forall k | 0 <= k < |h.peers| ensures h.peers[k].channel != c {
      assert h.events[h.peers[k].at] in h.events;
    }
    EventAbs(w, h, Subscribe(c));
    var h' := Next(w, h, Join(c, references));
    var p := h'.peers[|h.peers|];
    assert h'.events[..p.at] == h.events && h'.events[p.at + 1..] == [];
    assert PeerOk(w, h'.events, p);
    assert Abs(w, h').nodes == Abs(w, h).nodes + [AbsNode(w, h'.events, p)];
  }

  lemma AsideSimulated(w: Wire, h: Hub, e: Event)
    requires Inv(w, h) && Enabled(w, h, Aside(e))
    ensures Simulated(w, h, Aside(e))
  {
    EventAbs(w, h, e);
  }

  lemma PublishSimulated(w: Wire, h: Hub, client: ClientId, line: string, timestamp: nat)
    requires Inv(w, h) && Enabled(w, h, Publish(client, line, timestamp))
    ensures Simulated(w, h, Publish(client, line, timestamp))
  {
    EventAbs(w, h, Incoming(client, line, timestamp));
  }

  /** One peer changes, but not the events. */
  lemma BecomeAbs(w: Wire, h: Hub, k: nat, p: Peer)
    requires Inv(w, h) && k < |h.peers| && PeerOk(w, h.events, p)
    ensures Inv(w, Become(h, k, p))
    ensures Abs(w, Become(h, k, p)).nodes == Abs(w, h).nodes[k := AbsNode(w, h.events, p)]
  {
  }

  lemma SendSimulated(w: Wire, h: Hub, k: nat, client: ClientId, timestamp: nat)
    requires w.Sound() && Inv(w, h) && Enabled(w, h, Send(k, client, timestamp))
    ensures Simulated(w, h, Send(k, client, timestamp))
  {
    var p, sv := h.peers[k], h.peers[k].server;
    var p' := p.(server := sv.(outgoing := sv.outgoing[1..]));
    var m := sv.outgoing[0];
    assert w.read(w.write(m)) == m;
    BecomeAbs(w, h, k, p');
    EventAbs(w, Become(h, k, p'), Incoming(client, w.write(m), timestamp));
  }

  /** The next line in a peer's mailbox is the next message on the bus. */
  lemma NextOnBus(w: Wire, h: Hub, k: nat)
    requires Inv(w, h) && Enabled(w, h, Read(k))
    ensures var p := h.peers[k];
            var seen := Joined(w, h.events, p.at) + p.taken;
            seen < |Bus(w, h.events)| && Bus(w, h.events)[seen] == w.read(Inbox(w, h.events, p.channel)[p.taken])
  {
    InboxOnBus(w, h.events, h.peers[k]);
  }

  lemma ReadSimulated(w: Wire, h: Hub, k: nat)
    requires Inv(w, h) && Enabled(w, h, Read(k))
    ensures Simulated(w, h, Read(k))
  {
    var p := h.peers[k];
    NextOnBus(w, h, k);
    var sv := p.server.MessageTurn(w.read(Inbox(w, h.events, p.channel)[p.taken]));
    var p' := p.(server := sv, taken := p.taken + 1);
    BecomeAbs(w, h, k, p');
    assert AbsNode(w, h.events, p') == Abs(w, h).nodes[k].(server := sv, seen := Abs(w, h).nodes[k].seen + 1);
  }

  /** One server changes. */
  lemma ServerAbs(w: Wire, h: Hub, k: nat, sv: Server)
    requires Inv(w, h) && k < |h.peers|
    ensures var h' := Become(h, k, h.peers[k].(server := sv));
            Inv(w, h') && Abs(w, h') == BusSystem.Become(Abs(w, h), k, sv)
  {
    BecomeAbs(w, h, k, h.peers[k].(server := sv));
  }

  lemma LocalSimulated(w: Wire, h: Hub, step: Step)
    requires Inv(w, h) && Enabled(w, h, step)
    requires step.Ask? || step.TakeRequest? || step.Expire? || step.StopReferences?
    ensures Simulated(w, h, step)
  {
    var sv := h.peers[step.k].server;
    match step
    case Ask(k, body, expectsReply) => ServerAbs(w, h, k, sv.Ask(body, expectsReply));
    case TakeRequest(k) => ServerAbs(w, h, k, sv.RequestTurn());
    case Expire(k, c) => ServerAbs(w, h, k, sv.Expire(c));
    case StopReferences(k) => ServerAbs(w, h, k, sv.StopReferences());
  }

  lemma StepSimulated(w: Wire, h: Hub, step: Step)
    requires w.Sound() && Inv(w, h) && Enabled(w, h, step)
    ensures Simulated(w, h, step)
  {
    match step
    case Join(c, references) => JoinSimulated(w, h, c, references);
    case Aside(e) => AsideSimulated(w, h, e);
    case Publish(client, line, timestamp) => PublishSimulated(w, h, client, line, timestamp);
    case Send(k, client, timestamp) => SendSimulated(w, h, k, client, timestamp);
    case Read(k) => ReadSimulated(w, h, k);
    case _ => LocalSimulated(w, h, step);
  }

  // ----- runs -----

  lemma {:induction false} RunSimulated(w: Wire, h: Hub, steps: seq<Step>)
    requires w.Sound() && Inv(w, h) && Possible(w, h, steps)
    ensures Inv(w, RunAll(w, h, steps))
    ensures BusSystem.Possible(Abs(w, h), StepsOf(w, h, steps))
    ensures BusSystem.Run(Abs(w, h), StepsOf(w, h, steps)) == Abs(w, RunAll(w, h, steps))
    decreases |steps|
  {
    if steps != [] {
      var h' := Next(w, h, steps[0]);
      StepSimulated(w, h, steps[0]);
      RunSimulated(w, h', steps[1..]);
      OneStep(Abs(w, h), StepOf(w, h, steps[0]), Abs(w, h'), StepsOf(w, h', steps[1..]));
    }
  }

  /** A step, or none, in front of a run. */
  lemma OneStep(s: BusSystem.System, step: Option<BusSystem.Step>, s': BusSystem.System, steps: seq<BusSystem.Step>)
    requires if step.None? then s' == s else BusSystem.Enabled(s, step.value) && BusSystem.Next(s, step.value) == s'
    requires BusSystem.Possible(s', steps)
    ensures var all := (match step case Some(a) => [a] case None => []) + steps;
            BusSystem.Possible(s, all) && BusSystem.Run(s, all) == BusSystem.Run(s', steps)
  {
    if step.None? {
      assert [] + steps == steps;
    } else {
      assert ([step.value] + steps)[1..] == steps;
    }
  }

  /** Every run of servers over the repeater is a run of the system with one bus. */
  lemma RepeaterRefinesBus(w: Wire, steps: seq<Step>)
    requires w.Sound() && Possible(w, NO_PEERS, steps)
    ensures BusSystem.Possible(BusSystem.START, StepsOf(w, NO_PEERS, steps))
    ensures BusSystem.Run(BusSystem.START, StepsOf(w, NO_PEERS, steps)) == Abs(w, RunAll(w, NO_PEERS, steps))
  {
    assert Abs(w, NO_PEERS) == BusSystem.START;
    RunSimulated(w, NO_PEERS, steps);
  }

  /** What a server has read from its mailbox is what it heard on the bus. */
  lemma HeardIsRead(w: Wire, h: Hub, k: nat)
    requires Inv(w, h) && k < |h.peers|
    ensures var p := h.peers[k];
            && p.taken <= |Inbox(w, h.events, p.channel)|
            && BusCorrelation.Heard(Abs(w, h), k) == w.ReadAll(Inbox(w, h.events, p.channel)[..p.taken])
  {
    var p := h.peers[k];
    InboxOnBus(w, h.events, p);
  }

  /** So a `send` over the repeater that has not timed out stands where the first response
      to its id, in what its server has read from its mailbox, puts it. */
  lemma OutcomeIsFirstRead(w: Wire, steps: seq<Step>, k: nat, c: nat)
    requires w.Sound() && Possible(w, NO_PEERS, steps)
    requires var h := RunAll(w, NO_PEERS, steps); k < |h.peers| && c < |h.peers[k].server.waiters|
    ensures var h := RunAll(w, NO_PEERS, steps);
            var p := h.peers[k];
            var waiter := p.server.waiters[c];
            && p.taken <= |Inbox(w, h.events, p.channel)|
            && (waiter.state != TimedOut ==>
                  waiter.state == BusSystem.OutcomeOf(BusSystem.FirstResponse(
                                    w.ReadAll(Inbox(w, h.events, p.channel)[..p.taken]), waiter.id)))
  {
    var h := RunAll(w, NO_PEERS, steps);
    RepeaterRefinesBus(w, steps);
    RunSimulated(w, NO_PEERS, steps);
    HeardIsRead(w, h, k);
    BusCorrelation.OutcomeIsFirstResponse(StepsOf(w, NO_PEERS, steps), k, c);
  }
}
