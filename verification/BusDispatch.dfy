/** A server on the message bus: the dispatch actor, its reply channels and its
    reference store (outdated/mcp-server/src/actor/dispatch.rs, reference.rs). */
module BusDispatch {
  import opened Collections

  /** A UUID: who made it and the how-manieth it is, so that no two are equal. */
  datatype Id = Own(node: nat, serial: nat) | Foreign(serial: nat)

  /** `data` is what came out, or the text of the error. */
  datatype Reply = Reply(success: bool, data: string)

  /** `None` is a payload that does not parse. */
  datatype Body =
    | Marco
    | Polo
    | Response(reply: Option<Reply>)
    | StoreReference(entry: Option<(string, string)>)
    | Other

  datatype Message = Message(id: Id, body: Body)

  /** A one-shot reply channel, as the sender waiting on it sees it. */
  datatype WaitState = Waiting | Completed(reply: Reply) | Dropped | TimedOut

  /** A `send` that expects a reply, and the id of its request. */
  datatype Waiter = Waiter(id: Id, state: WaitState)

  /** `reply` names the channel of a request that expects a reply. */
  datatype Request = Request(message: Message, reply: Option<nat>)

  /** What `ReferenceStored {}` serializes to. */
  const STORED := Reply(true, "{}")

  const UNAVAILABLE := Reply(false, "Reference actor unavailable")

  /** The reference actor of a server: there is none, it has stopped, or it has a table. */
  datatype Storage = Absent | Stopped | Table(entries: map<string, string>)

  datatype Server = Server(
    node: nat,
    requests: seq<Request>,
    outgoing: seq<Message>,
    pending: map<Id, nat>,
    waiters: seq<Waiter>,
    storage: Storage,
    made: nat)
  {
    /** `DispatchHandle::send`, up to where it waits. */
    function Ask(body: Body, expectsReply: bool): Server {
      var id := Own(node, made);
      var channel := if expectsReply then Some(|waiters|) else None;
      this.(requests := requests + [Request(Message(id, body), channel)],
            waiters := if expectsReply then waiters + [Waiter(id, Waiting)] else waiters,
            made := made + 1)
    }

    /** The waiting `send` times out and drops its end of the channel. */
    function Expire(c: nat): Server
      requires c < |waiters|
    {
      if waiters[c].state == Waiting then this.(waiters := waiters[c := waiters[c].(state := TimedOut)]) else this
    }

    predicate Closed(c: nat) { c < |waiters| && waiters[c].state == TimedOut }

    /** `pending_replies.retain(|_, tx| !tx.is_closed())`. */
    function Retain(): Server {
      this.(pending := map x | x in pending && !Closed(pending[x]) :: pending[x])
    }

    /** The request arm of the loop: the reply channel is filed before the message is sent. */
    function Accept(): Server
      requires requests != []
    {
      var r := requests[0];
      this.(requests := requests[1..],
            pending := if r.reply.Some? then pending[r.message.id := r.reply.value] else pending,
            outgoing := outgoing + [r.message])
    }

    /** The sending half of channel `c` is used up, by a reply or without one. */
    function Settle(c: nat, reply: Option<Reply>): Server {
      if c < |waiters| && waiters[c].state == Waiting then
        this.(waiters := waiters[c := waiters[c].(state := if reply.Some? then Completed(reply.value) else Dropped)])
      else this
    }

    /** What a store is answered with. */
    function StoreReply(): Reply { if storage.Table? then STORED else UNAVAILABLE }

    /** The reference actor goes away, and its table with it. */
    function StopReferences(): Server { if storage.Table? then this.(storage := Stopped) else this }

    /** `handle_incoming_message`. */
    function Handle(m: Message): Server {
      match m.body
      case Marco => this.(outgoing := outgoing + [Message(Own(node, made), Polo)], made := made + 1)
      case Response(reply) =>
        if m.id in pending then this.(pending := pending - {m.id}).Settle(pending[m.id], reply) else this
      case StoreReference(entry) =>
        if storage.Absent? || entry.None? then this
        else
          this.(storage := if storage.Table? then Table(storage.entries[entry.value.0 := entry.value.1]) else storage,
                outgoing := outgoing + [Message(m.id, Response(Some(StoreReply())))])
      case _ => this
    }

    /** One turn of the loop that takes a request. */
    function RequestTurn(): Server
      requires requests != []
    {
      Accept().Retain()
    }

    /** One turn of the loop that takes a message from the bus. */
    function MessageTurn(m: Message): Server {
      Handle(m).Retain()
    }
  }

  /** The reference actor: a table kept for as long as it runs. */
  class ReferenceActor {
    var running: bool
    var storage: map<string, string>

    function State(): Storage
      reads this
    {
      if running then Table(storage) else Stopped
    }

    constructor ()
      ensures State() == Table(map[])
    {
      running := true;
      storage := map[];
    }

    method StoreReference(key: string, value: string) returns (reply: Reply)
      modifies this`storage
      ensures State() == match old(State()) { case Table(entries) => Table(entries[key := value]) case other => other }
      ensures reply == if running then STORED else UNAVAILABLE
    {
      if !running {
        return UNAVAILABLE;
      }
      storage := storage[key := value];
      reply := STORED;
    }

    method GetReference(key: string) returns (value: Option<string>)
      ensures value == if State().Table? && key in State().entries then Some(State().entries[key]) else None
    {
      value := if running && key in storage then Some(storage[key]) else None;
    }

    method Stop()
      modifies this`running
      ensures State() == Stopped
    {
      running := false;
    }
  }

  class DispatchActor {
    const node: nat
    const reference: ReferenceActor?
    var requestRx: seq<Request>
    var clientTx: seq<Message>
    var pendingReplies: map<Id, nat>
    var waiters: seq<Waiter>
    var made: nat

    function State(): Server
      reads this, reference
    {
      Server(node, requestRx, clientTx, pendingReplies, waiters,
             if reference == null then Absent else reference.State(), made)
    }

    constructor (node: nat, reference: ReferenceActor?)
      ensures this.node == node && this.reference == reference
      ensures State() == Server(node, [], [], map[], [], if reference == null then Absent else reference.State(), 0)
    {
      this.node, this.reference := node, reference;
      requestRx, clientTx, pendingReplies, waiters, made := [], [], map[], [], 0;
    }

    method FreshMessageId() returns (id: Id)
      modifies this`made
      ensures id == Own(node, old(made)) && made == old(made) + 1
    {
      id := Own(node, made);
      made := made + 1;
    }

    /** `DispatchHandle::send`, up to where it waits. */
    method Ask(body: Body, expectsReply: bool)
      modifies this
      ensures State() == old(State()).Ask(body, expectsReply)
    {
      var id := FreshMessageId();
      var reply := None;
      if expectsReply {
        reply := Some(|waiters|);
        waiters := waiters + [Waiter(id, Waiting)];
      }
      requestRx := requestRx + [Request(Message(id, body), reply)];
    }

    /** The body of the loop when a request is there, with the clean-up after it. */
    method RequestTurn()
      requires requestRx != []
      modifies this
      ensures State() == old(State()).RequestTurn()
    {
      var request := requestRx[0];
      requestRx := requestRx[1..];
      if request.reply.Some? {
        pendingReplies := pendingReplies[request.message.id := request.reply.value];
      }
      clientTx := clientTx + [request.message];
      Retain();
    }

    /** The body of the loop when a message has come in, with the clean-up after it. */
    method MessageTurn(m: Message)
      modifies this, reference
      ensures State() == old(State()).MessageTurn(m)
    {
      HandleIncomingMessage(m);
      Retain();
    }

    method Retain()
      modifies this`pendingReplies
      ensures State() == old(State()).Retain()
    {
      pendingReplies := map x | x in pendingReplies && !State().Closed(pendingReplies[x]) :: pendingReplies[x];
    }

    method HandleIncomingMessage(m: Message)
      modifies this, reference
      ensures State() == old(State()).Handle(m)
    {
      match m.body {
        case Marco => SendPolo();
        case Response(reply) =>
          if m.id in pendingReplies {
            var channel := pendingReplies[m.id];
            pendingReplies := pendingReplies - {m.id};
            Settle(channel, reply);
          }
        case StoreReference(entry) =>
          if reference != null && entry.Some? {
            var reply := reference.StoreReference(entry.value.0, entry.value.1);
            RespondTo(m.id, reply);
          }
        case _ =>
      }
    }

    /** The reference actor goes away. */
    method StopReferences()
      modifies reference
      ensures State() == old(State()).StopReferences()
    {
      if reference != null {
        reference.Stop();
      }
    }

    /** `reply_tx.send(payload)`, or dropping `reply_tx` when the payload does not parse. */
    method Settle(channel: nat, reply: Option<Reply>)
      modifies this`waiters
      ensures State() == old(State()).Settle(channel, reply)
    {
      if channel < |waiters| && waiters[channel].state == Waiting {
        var state := if reply.Some? then Completed(reply.value) else Dropped;
        waiters := waiters[channel := Waiter(waiters[channel].id, state)];
      }
    }

    method RespondTo(id: Id, reply: Reply)
      modifies this`clientTx
      ensures clientTx == old(clientTx) + [Message(id, Response(Some(reply)))]
    {
      clientTx := clientTx + [Message(id, Response(Some(reply)))];
    }

    method SendPolo()
      modifies this`made, this`clientTx
      ensures made == old(made) + 1
      ensures clientTx == old(clientTx) + [Message(Own(node, old(made)), Polo)]
    {
      var id := FreshMessageId();
      clientTx := clientTx + [Message(id, Polo)];
    }
  }
}
