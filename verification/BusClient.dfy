/** A client of the daemon: it subscribes before anything it sends is read
    (outdated/mcp-server/src/daemon.rs, `handle_client`), so it hears itself. */
module BusClient {
  import opened Trimming
  import opened BusRepeater
  import opened BusBroadcast

  const DUMP: string := "#debug_dump_messages"

  const IDENTIFY: string := "#identify:"

  /** A line as read, and when. */
  datatype Line = Line(text: string, timestamp: nat)

  /** What a line makes the handler send to the repeater. */
  function LineEvents(ws: char -> bool, client: ClientId, line: Line): seq<Event> {
    var message := Trim(ws, line.text);
    if message == "" then []
    else if message[0] != '#' then [Incoming(client, message, line.timestamp)]
    else if message == DUMP then [DebugDump]
    else if IDENTIFY <= message then [SetIdentifier(client, message[|IDENTIFY|..])]
    else []
  }

  function LinesEvents(ws: char -> bool, client: ClientId, lines: seq<Line>): seq<Event> {
    if lines == [] then []
    else LinesEvents(ws, client, lines[..|lines| - 1]) + LineEvents(ws, client, lines[|lines| - 1])
  }

  /** All a handler sends for the lines read so far. */
  function ClientEvents(ws: char -> bool, client: ClientId, lines: seq<Line>): seq<Event> {
    [Subscribe(client)] + LinesEvents(ws, client, lines)
  }

  // ----- what is to become of lines -----

  predicate Blank(ws: char -> bool, text: string) { forall k :: 0 <= k < |text| ==> ws(text[k]) }

  /** `said` is `text` but for white space around it. */
  ghost predicate Bare(ws: char -> bool, text: string, said: string) {
    exists a, b: string :: Around(ws, text, a, said, b)
  }

  ghost predicate Around(ws: char -> bool, text: string, a: string, said: string, b: string) {
    && text == a + said + b && Blank(ws, a) && Blank(ws, b)
    && said != "" && !ws(said[0]) && !ws(said[|said| - 1])
  }

  /** A line that is sent to the bus: with text, and no command. */
  predicate Plain(ws: char -> bool, line: Line) {
    var said := Trim(ws, line.text);
    said != "" && said[0] != '#'
  }

  /** A line something comes of: a plain one, or a command that is known. */
  predicate Heeded(ws: char -> bool, line: Line) {
    Plain(ws, line) || Trim(ws, line.text) == DUMP || IDENTIFY <= Trim(ws, line.text)
  }

  /** The lines something comes of. */
  function HeededLines(ws: char -> bool, lines: seq<Line>): seq<Line> {
    if lines == [] then []
    else
      var n := |lines| - 1;
      HeededLines(ws, lines[..n]) + if Heeded(ws, lines[n]) then [lines[n]] else []
  }

  /** The text of a line from which an event comes. */
  function TextOf(e: Event): string {
    match e
    case Incoming(_, content, _) => content
    case SetIdentifier(_, identifier) => IDENTIFY + identifier
    case DebugDump => DUMP
    case _ => ""
  }

  /** A plain line is a message of the client with the bare text and the time of the line;
      a command asks for the history or names the client. */
  predicate IsFor(client: ClientId, line: Line, e: Event) {
    match e
    case Incoming(c, content, timestamp) =>
      c == client && timestamp == line.timestamp && content != "" && content[0] != '#'
    case SetIdentifier(c, _) => c == client
    case DebugDump => true
    case _ => false
  }

  ghost predicate Says(ws: char -> bool, client: ClientId, line: Line, e: Event) {
    Bare(ws, line.text, TextOf(e)) && IsFor(client, line, e)
  }

  ghost predicate AllSay(ws: char -> bool, client: ClientId, lines: seq<Line>, es: seq<Event>) {
    |es| == |lines| && forall k :: 0 <= k < |lines| ==> Says(ws, client, lines[k], es[k])
  }

  /** The reading side of `handle_client`: the subscription first, then one event for each
      line something comes of, in order. */
  method HandleClient(ws: char -> bool, client: ClientId, lines: seq<Line>) returns (sent: seq<Event>)
    ensures sent == ClientEvents(ws, client, lines)
    ensures sent != [] && sent[0] == Subscribe(client) && AllSay(ws, client, HeededLines(ws, lines), sent[1..])
  {
    sent := [Subscribe(client)];
    for i := 0 to |lines|
      invariant sent == ClientEvents(ws, client, lines[..i])
    {
      assert lines[..i + 1][..i] == lines[..i];
      var message := Trim(ws, lines[i].text);
      if message != "" {
        if message[0] == '#' {
          var command := DebugCommand(client, message);
          sent := sent + command;
        } else {
          sent := sent + [Incoming(client, message, lines[i].timestamp)];
        }
      }
    }
    assert lines[..|lines|] == lines;
    ClientSays(ws, client, lines);
  }

  /** `handle_debug_command`. */
  method DebugCommand(client: ClientId, command: string) returns (sent: seq<Event>)
    ensures sent == if command == DUMP then [DebugDump]
                    else if IDENTIFY <= command then [SetIdentifier(client, command[|IDENTIFY|..])]
                    else []
  {
    if command == DUMP {
      return [DebugDump];
    } else if IDENTIFY <= command {
      var identifier := command[|IDENTIFY|..];
      return [SetIdentifier(client, identifier)];
    }
    return [];
  }

  /** Trimming leaves nothing of a blank text, and the bare text of any other. */
  lemma TrimIsBare(ws: char -> bool, text: string)
    ensures Trim(ws, text) == "" <==> Blank(ws, text)
    ensures !Blank(ws, text) ==> Bare(ws, text, Trim(ws, text))
  {
    var start := TrimStart(ws, text);
    var said := Trim(ws, text);
    var a, b := text[..|text| - |start|], start[|said|..];
    assert text == a + said + b;
    if said == "" {
      forall k | 0 <= k < |text| ensures ws(text[k]) {
        assert text[k] == a[k];
      }
    } else {
      assert said[0] == start[0] && text[|a|] == start[0];
      assert Around(ws, text, a, said, b);
    }
  }

  lemma LineEventIs(ws: char -> bool, client: ClientId, line: Line)
    ensures var es := LineEvents(ws, client, line);
            if Heeded(ws, line) then |es| == 1 && TextOf(es[0]) == Trim(ws, line.text) && IsFor(client, line, es[0])
            else es == []
  {
    var message := Trim(ws, line.text);
    if IDENTIFY <= message {
      assert message == IDENTIFY + message[|IDENTIFY|..];
    }
  }

  lemma LineSays(ws: char -> bool, client: ClientId, line: Line)
    ensures var es := LineEvents(ws, client, line);
            if Heeded(ws, line) then |es| == 1 && Says(ws, client, line, es[0]) else es == []
  {
    LineEventIs(ws, client, line);
    TrimIsBare(ws, line.text);
  }

  /** One event for each line something comes of, in order. */
  lemma {:induction false} LinesSay(ws: char -> bool, client: ClientId, lines: seq<Line>)
    ensures AllSay(ws, client, HeededLines(ws, lines), LinesEvents(ws, client, lines))
  {
    if lines != [] {
      LinesSay(ws, client, lines[..|lines| - 1]);
      LineSays(ws, client, lines[|lines| - 1]);
    }
  }

  /** The same, with the subscription in front. */
  lemma ClientSays(ws: char -> bool, client: ClientId, lines: seq<Line>)
    ensures var es := ClientEvents(ws, client, lines);
            es[0] == Subscribe(client) && AllSay(ws, client, HeededLines(ws, lines), es[1..])
  {
    LinesSay(ws, client, lines);
    assert ClientEvents(ws, client, lines)[1..] == LinesEvents(ws, client, lines);
  }

  // ----- many clients at once -----

  predicate By(e: Event, client: ClientId) {
    match e
    case Subscribe(c) => c == client
    case Incoming(c, _, _) => c == client
    case SetIdentifier(c, _) => c == client
    case _ => false
  }

  /** The events of one client, in a run in which those of all are interleaved. */
  function Mine(es: seq<Event>, client: ClientId): seq<Event> {
    if es == [] then [] else Mine(es[..|es| - 1], client) + if By(es[|es| - 1], client) then [es[|es| - 1]] else []
  }

  lemma {:induction false} MineAppend(a: seq<Event>, b: seq<Event>, client: ClientId)
    ensures Mine(a + b, client) == Mine(a, client) + Mine(b, client)
    decreases |b|
  {
    if b == [] {
      assert a + b == a;
    } else {
      var n := |b| - 1;
      assert (a + b)[..|a + b| - 1] == a + b[..n];
      MineAppend(a, b[..n], client);
    }
  }

  lemma {:induction false} MineHas(es: seq<Event>, client: ClientId, e: Event)
    requires By(e, client)
    ensures e in es <==> e in Mine(es, client)
  {
    if es != [] {
      var n := |es| - 1;
      MineHas(es[..n], client, e);
      assert es == es[..n] + [es[n]];
    }
  }

  lemma LineDoesNotSubscribe(ws: char -> bool, client: ClientId, line: Line)
    ensures Subscribe(client) !in LineEvents(ws, client, line)
  {
  }

  lemma {:induction false} LinesDoNotSubscribe(ws: char -> bool, client: ClientId, lines: seq<Line>)
    ensures Subscribe(client) !in LinesEvents(ws, client, lines)
  {
    if lines != [] {
      LinesDoNotSubscribe(ws, client, lines[..|lines| - 1]);
      LineDoesNotSubscribe(ws, client, lines[|lines| - 1]);
    }
  }

  /** A client's run splits at its subscription, with nothing of its own before. */
  lemma {:induction false} FirstOfMine(es: seq<Event>, client: ClientId) returns (i: nat)
    requires Mine(es, client) != []
    ensures i < |es| && es[i] == Mine(es, client)[0]
    ensures forall e :: e in es[..i] ==> !By(e, client)
    ensures Mine(es[i + 1..], client) == Mine(es, client)[1..]
  {
    var n := |es| - 1;
    if Mine(es[..n], client) == [] {
      i := n;
      NothingMine(es[..n], client);
      assert Mine([], client) == [];
    } else {
      i := FirstOfMine(es[..n], client);
      assert es[..n][..i] == es[..i];
      assert es[i + 1..][..n - i - 1] == es[..n][i + 1..];
    }
  }

  lemma {:induction false} NothingMine(es: seq<Event>, client: ClientId)
    requires Mine(es, client) == []
    ensures forall e :: e in es ==> !By(e, client)
  {
    if es != [] {
      var n := |es| - 1;
      NothingMine(es[..n], client);
      assert es == es[..n] + [es[n]];
    }
  }

  lemma MineAfter(client: ClientId, said: seq<Event>)
    requires Subscribe(client) !in said
    ensures Mine([Subscribe(client)] + said, client) == [Subscribe(client)] + Mine(said, client)
    ensures Subscribe(client) !in Mine(said, client)
  {
    MineAppend([Subscribe(client)], said, client);
    assert Mine([Subscribe(client)][..0], client) == [];
    MineHas(said, client, Subscribe(client));
  }

  lemma SplitAtSubscription(es: seq<Event>, client: ClientId, said: seq<Event>)
    returns (before: seq<Event>, since: seq<Event>)
    requires Mine(es, client) == [Subscribe(client)] + said && Subscribe(client) !in said && Drop(client) !in es
    ensures es == before + [Subscribe(client)] + since
    ensures Quiet(before, client) && Quiet(since, client)
    ensures forall e :: e in before ==> !(e.Incoming? && e.client == client)
  {
    var i := FirstOfMine(es, client);
    before, since := es[..i], es[i + 1..];
    assert es == before + [es[i]] + since;
    MineHas(since, client, Subscribe(client));
    assert forall e :: e in before ==> !By(e, client);
  }

  /** The bare texts of the plain lines, but for log messages. */
  function Spoken(ws: char -> bool, isLog: string -> bool, lines: seq<Line>): seq<string> {
    if lines == [] then []
    else
      var n := |lines| - 1;
      var said := Trim(ws, lines[n].text);
      Spoken(ws, isLog, lines[..n]) + if Plain(ws, lines[n]) && !isLog(said) then [said] else []
  }

  lemma {:induction false} SentAppend(isLog: string -> bool, a: seq<Event>, b: seq<Event>, client: ClientId)
    ensures SentBy(isLog, a + b, client) == SentBy(isLog, a, client) + SentBy(isLog, b, client)
    decreases |b|
  {
    if b == [] {
      assert a + b == a;
    } else {
      assert (a + b)[..|a + b| - 1] == a + b[..|b| - 1];
      SentAppend(isLog, a, b[..|b| - 1], client);
    }
  }

  lemma SentByOne(isLog: string -> bool, e: Event, client: ClientId)
    ensures SentBy(isLog, [e], client)
         == if e.Incoming? && e.client == client && !isLog(e.content) then [e.content] else []
    ensures SentBy(isLog, [], client) == []
  {
    assert [e][..0] == [];
  }

  lemma LineSpoken(ws: char -> bool, isLog: string -> bool, client: ClientId, line: Line)
    ensures var said := Trim(ws, line.text);
            SentBy(isLog, LineEvents(ws, client, line), client)
            == if Plain(ws, line) && !isLog(said) then [said] else []
  {
    SentByOne(isLog, DebugDump, client);
    var es := LineEvents(ws, client, line);
    if es != [] {
      assert es == [es[0]];
      SentByOne(isLog, es[0], client);
    }
  }

  /** What a client publishes is what its plain lines say. */
  lemma {:induction false} LinesSpoken(ws: char -> bool, isLog: string -> bool, client: ClientId, lines: seq<Line>)
    ensures SentBy(isLog, LinesEvents(ws, client, lines), client) == Spoken(ws, isLog, lines)
  {
    if lines != [] {
      var n := |lines| - 1;
      LinesSpoken(ws, isLog, client, lines[..n]);
      SentAppend(isLog, LinesEvents(ws, client, lines[..n]), LineEvents(ws, client, lines[n]), client);
      LineSpoken(ws, isLog, client, lines[n]);
    }
  }

  /** Only a client's own events tell what it publishes. */
  lemma {:induction false} SentByMine(isLog: string -> bool, es: seq<Event>, client: ClientId)
    ensures SentBy(isLog, es, client) == SentBy(isLog, Mine(es, client), client)
  {
    if es != [] {
      var n := |es| - 1;
      SentByMine(isLog, es[..n], client);
      if By(es[n], client) {
        assert (Mine(es[..n], client) + [es[n]])[..|Mine(es[..n], client)|] == Mine(es[..n], client);
      } else {
        assert Mine(es[..n], client) + [] == Mine(es[..n], client);
      }
    }
  }

  lemma ClientSpoken(ws: char -> bool, isLog: string -> bool, client: ClientId, lines: seq<Line>)
    ensures SentBy(isLog, ClientEvents(ws, client, lines), client) == Spoken(ws, isLog, lines)
  {
    SentAppend(isLog, [Subscribe(client)], LinesEvents(ws, client, lines), client);
    LinesSpoken(ws, isLog, client, lines);
    assert SentBy(isLog, [], client) == [] && [Subscribe(client)][..0] == [];
  }

  /** However the clients are interleaved, one whose connection is open has had the texts of
      all its plain lines echoed, but for log messages, in the order it sent them. */
  lemma EveryClientHearsItself(ws: char -> bool, isLog: string -> bool, es: seq<Event>, client: ClientId,
                               lines: seq<Line>)
    requires Mine(es, client) == Mine(ClientEvents(ws, client, lines), client) && Drop(client) !in es
    ensures var r := Run(isLog, es);
            r.Open(client) && Subsequence(Spoken(ws, isLog, lines), r.mailboxes[client].inbox)
  {
    LinesDoNotSubscribe(ws, client, lines);
    MineAfter(client, LinesEvents(ws, client, lines));
    var before, since := SplitAtSubscription(es, client, Mine(LinesEvents(ws, client, lines), client));
    ReceivesAllSinceSubscription(isLog, before, client, since);
    ServedOpen(isLog, Run(isLog, es), client, since);
    OwnMessagesEchoed(isLog, before, client, since, client);
    SentByMine(isLog, es, client);
    SentByMine(isLog, ClientEvents(ws, client, lines), client);
    ClientSpoken(ws, isLog, client, lines);
  }
}
