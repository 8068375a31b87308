/** The repeater behind the message bus (outdated/mcp-server/src/actor/repeater.rs):
    one list of subscribers, everything but log messages to all of them. */
module BusRepeater {
  import opened Collections
  import opened Numerals

  const MAX_MESSAGE_HISTORY: nat := 1024

  type ClientId = nat

  /** Names a channel; each client's handler makes a new one. */
  type ChannelId = nat

  datatype LoggedMessage = LoggedMessage(timestamp: nat, fromClient: ClientId, fromIdentifier: string, content: string)

  /** The receiving end of a channel: sending fails once it is dropped. */
  datatype Mailbox = Mailbox(open: bool, inbox: seq<string>)

  /** What the actor receives, and `Drop`, by which a client goes away. */
  datatype Event =
    | Subscribe(channel: ChannelId)
    | Incoming(client: ClientId, content: string, timestamp: nat)
    | SetIdentifier(client: ClientId, identifier: string)
    | DebugDump
    | Drop(channel: ChannelId)

  /** The actor's state, and the mailboxes at the far ends of its channels. */
  datatype Repeater = Repeater(
    subscribers: seq<ChannelId>,
    history: seq<LoggedMessage>,
    identifiers: map<ClientId, string>,
    mailboxes: map<ChannelId, Mailbox>)
  {
    function Identifier(client: ClientId): string {
      Get(identifiers, client, Digits(client))
    }

    predicate Open(c: ChannelId) { c in mailboxes && mailboxes[c].open }

    function Post(c: ChannelId, content: string): Repeater {
      if Open(c) then this.(mailboxes := mailboxes[c := Mailbox(true, mailboxes[c].inbox + [content])]) else this
    }

    /** Send to each of `cs` in turn. */
    function PostAll(cs: seq<ChannelId>, content: string): Repeater {
      if cs == [] then this else PostAll(cs[..|cs| - 1], content).Post(cs[|cs| - 1], content)
    }

    function OpenOnes(cs: seq<ChannelId>): seq<ChannelId> {
      if cs == [] then []
      else OpenOnes(cs[..|cs| - 1]) + if Open(cs[|cs| - 1]) then [cs[|cs| - 1]] else []
    }

    function Remember(m: LoggedMessage): Repeater {
      var kept := if |history| >= MAX_MESSAGE_HISTORY then history[1..] else history;
      this.(history := kept + [m])
    }

    /** `handle_incoming_message`. */
    function Handle(isLog: string -> bool, client: ClientId, content: string, timestamp: nat): Repeater {
      var r := Remember(LoggedMessage(timestamp, client, Identifier(client), content));
      if isLog(content) then r
      else r.PostAll(subscribers, content).(subscribers := OpenOnes(subscribers))
    }

    function Next(isLog: string -> bool, e: Event): Repeater {
      match e
      case Subscribe(c) =>
        this.(subscribers := subscribers + [c],
              mailboxes := if c in mailboxes then mailboxes else mailboxes[c := Mailbox(true, [])])
      case Incoming(client, content, timestamp) => Handle(isLog, client, content, timestamp)
      case SetIdentifier(client, identifier) => this.(identifiers := identifiers[client := identifier])
      case DebugDump => this
      case Drop(c) =>
        if c in mailboxes then this.(mailboxes := mailboxes[c := mailboxes[c].(open := false)])
        else this.(mailboxes := mailboxes[c := Mailbox(false, [])])
    }
  }

  const START := Repeater([], [], map[], map[])

  function Run(isLog: string -> bool, es: seq<Event>): Repeater {
    if es == [] then START else Run(isLog, es[..|es| - 1]).Next(isLog, es[|es| - 1])
  }

  // ----- the actor as it runs -----

  class RepeaterActor {
    const isLog: string -> bool
    var subscribers: seq<ChannelId>
    var messageHistory: seq<LoggedMessage>
    var clientIdentifiers: map<ClientId, string>
    var mailboxes: map<ChannelId, Mailbox>

    function State(): Repeater
      reads this
    {
      Repeater(subscribers, messageHistory, clientIdentifiers, mailboxes)
    }

    constructor (isLog: string -> bool)
      ensures State() == START && this.isLog == isLog
    {
      this.isLog := isLog;
      subscribers, messageHistory, clientIdentifiers, mailboxes := [], [], map[], map[];
    }

    /** `UnboundedSender::send`. */
    method Send(c: ChannelId, content: string) returns (ok: bool)
      modifies this`mailboxes
      ensures ok == old(State()).Open(c) && State() == old(State()).Post(c, content)
    {
      ok := c in mailboxes && mailboxes[c].open;
      if ok {
        mailboxes := mailboxes[c := Mailbox(true, mailboxes[c].inbox + [content])];
      }
    }

    /** `subscribers.retain(|sender| sender.send(..).is_ok())`. */
    method Broadcast(content: string)
      modifies this`subscribers, this`mailboxes
      ensures State() == old(State()).PostAll(old(subscribers), content)
                         .(subscribers := old(State()).OpenOnes(old(subscribers)))
    {
      var kept: seq<ChannelId> := [];
      ghost var start := State();
      for i := 0 to |subscribers|
        invariant subscribers == old(subscribers)
        invariant State() == start.PostAll(subscribers[..i], content)
        invariant kept == start.OpenOnes(subscribers[..i])
      {
        assert subscribers[..i + 1][..i] == subscribers[..i];
        PostAllOpen(start, subscribers[..i], content, subscribers[i]);
        var ok := Send(subscribers[i], content);
        if ok {
          kept := kept + [subscribers[i]];
        }
      }
      assert subscribers[..|subscribers|] == subscribers;
      subscribers := kept;
    }

    method HandleIncomingMessage(client: ClientId, content: string, timestamp: nat)
      modifies this
      ensures State() == old(State()).Handle(isLog, client, content, timestamp)
    {
      var fromIdentifier := if client in clientIdentifiers then clientIdentifiers[client] else Digits(client);
      if |messageHistory| >= MAX_MESSAGE_HISTORY {
        messageHistory := messageHistory[1..];
      }
      messageHistory := messageHistory + [LoggedMessage(timestamp, client, fromIdentifier, content)];
      PostAllFrame(old(State()), State(), subscribers, content);
      if !isLog(content) {
        Broadcast(content);
      }
    }

    /** One message taken from the receiver; a dump answers with the history. */
    method Handle(e: Event) returns (dump: seq<LoggedMessage>)
      requires !e.Drop?
      modifies this
      ensures State() == old(State()).Next(isLog, e)
      ensures e.DebugDump? ==> dump == messageHistory
    {
      dump := [];
      match e {
        case Subscribe(c) =>
          subscribers := subscribers + [c];
          if c !in mailboxes {
            mailboxes := mailboxes[c := Mailbox(true, [])];
          }
        case Incoming(client, content, timestamp) => HandleIncomingMessage(client, content, timestamp);
        case SetIdentifier(client, identifier) => clientIdentifiers := clientIdentifiers[client := identifier];
        case DebugDump => dump := messageHistory;
      }
    }
  }

  /** Sending changes nothing about which channels are open, nor the rest. */
  lemma {:induction false} PostAllOpen(r: Repeater, cs: seq<ChannelId>, content: string, c: ChannelId)
    ensures r.PostAll(cs, content).Open(c) == r.Open(c)
    ensures var r' := r.PostAll(cs, content);
            r'.subscribers == r.subscribers && r'.history == r.history && r'.identifiers == r.identifiers
  {
    if cs != [] {
      PostAllOpen(r, cs[..|cs| - 1], content, c);
    }
  }

  /** Sending does not look at the history. */
  lemma {:induction false} PostAllFrame(r: Repeater, s: Repeater, cs: seq<ChannelId>, content: string)
    requires r.mailboxes == s.mailboxes
    ensures r.PostAll(cs, content).mailboxes == s.PostAll(cs, content).mailboxes
    ensures r.OpenOnes(cs) == s.OpenOnes(cs)
  {
    if cs != [] {
      PostAllFrame(r, s, cs[..|cs| - 1], content);
    }
  }
}
