/** What a server writes to the bus, over whole runs: its requests, in order and unchanged,
    and one answer for each message it has to answer (outdated/mcp-server/src/actor/dispatch.rs). */
module BusAnswers {
  import opened Collections
  import opened BusDispatch
  import opened BusSystem
  import opened BusCorrelation

  /** What a server has to answer: a marco, and, if it was made with a reference actor, a
      store that parses. */
  predicate Question(m: Message, references: bool) {
    m.body.Marco? || (references && m.body.StoreReference? && m.body.entry.Some?)
  }

  /** The questions among the messages read. */
  function Questions(heard: seq<Message>, references: bool): seq<Message> {
    if heard == [] then []
    else
      var n := |heard| - 1;
      Questions(heard[..n], references) + if Question(heard[n], references) then [heard[n]] else []
  }

  /** The right answer: a polo under an id of the server's own, or the outcome of the store
      under the id of the store. */
  predicate Answers(node: nat, question: Message, answer: Message) {
    if question.body.Marco? then answer.body == Polo && answer.id.Own? && answer.id.node == node
    else
      && answer.id == question.id
      && (answer.body == Response(Some(STORED)) || answer.body == Response(Some(UNAVAILABLE)))
  }

  // ----- one message read -----

  /** In every run: a server with a reference actor that reads a store adds one message, a
      response with the store's id, a success exactly when its table is there. */
  lemma StoreIsAnswered(steps: seq<Step>, k: nat)
    requires Possible(START, steps) && Enabled(Run(START, steps), Deliver(k))
    requires var s := Run(START, steps);
             var m := s.bus[s.nodes[k].seen];
             m.body.StoreReference? && m.body.entry.Some? && !s.nodes[k].server.storage.Absent?
    ensures var s := Run(START, steps);
            var m := s.bus[s.nodes[k].seen];
            var sv, sv' := s.nodes[k].server, Next(s, Deliver(k)).nodes[k].server;
            var (key, value) := m.body.entry.value;
            exists reply: Reply ::
              && sv'.outgoing == sv.outgoing + [Message(m.id, Response(Some(reply)))]
              && (reply.success <==> sv.storage.Table?)
              && (reply.success <==> sv'.storage.Table? && sv'.storage.entries == sv.storage.entries[key := value])
  {
    var s := Run(START, steps);
    var sv := s.nodes[k].server;
    var m := s.bus[s.nodes[k].seen];
    var reply := if sv.storage.Table? then STORED else UNAVAILABLE;
    assert sv.MessageTurn(m).outgoing == sv.outgoing + [Message(m.id, Response(Some(reply)))];
  }

  /** In every run: a server that reads a marco adds one message, a polo, under an id that
      nothing on the bus, and none of its own requests, has. */
  lemma MarcoIsAnswered(steps: seq<Step>, k: nat)
    requires Possible(START, steps) && Enabled(Run(START, steps), Deliver(k))
    requires var s := Run(START, steps); s.bus[s.nodes[k].seen].body.Marco?
    ensures var s := Run(START, steps);
            var sv, sv' := s.nodes[k].server, Next(s, Deliver(k)).nodes[k].server;
            exists id: Id ::
              && sv'.outgoing == sv.outgoing + [Message(id, Polo)]
              && id !in s.sent && id !in Ids(s.bus)
              && forall i :: 0 <= i < |sv.requests| ==> sv.requests[i].message.id != id
  {
    RunKeeps(START, steps);
    var s := Run(START, steps);
    var sv := s.nodes[k].server;
    assert NodeOk(s, k);
    var id := Own(k, sv.made);
    assert sv.MessageTurn(s.bus[s.nodes[k].seen]).outgoing == sv.outgoing + [Message(id, Polo)];
    forall i | 0 <= i < |sv.requests| ensures sv.requests[i].message.id != id {
      assert Made(sv, sv.requests[i].message.id);
    }
  }

  // ----- whole runs -----

  /** A message a server has written, on reading one or on taking a request. */
  datatype Writing = Writing(reading: bool, message: Message)

  /** What has left a server, and all it has written. */
  datatype Written = Written(left: seq<Message>, all: seq<Writing>)

  const NOTHING := Written([], [])

  /** What a list of outgoing messages has gained. */
  function Gained(before: seq<Message>, after: seq<Message>, reading: bool): (r: seq<Writing>)
    ensures |r| == if |before| <= |after| then |after| - |before| else 0
    ensures forall i :: 0 <= i < |r| ==> r[i] == Writing(reading, after[|before| + i])
  {
    if |before| <= |after| then
      seq(|after| - |before|, i requires 0 <= i < |after| - |before| => Writing(reading, after[|before| + i]))
    else []
  }

  /** One more step, as server `k`'s list of outgoing messages shows it. */
  function Extended(s: System, step: Step, k: nat, w: Written): Written
    requires Enabled(s, step)
  {
    if k >= |s.nodes| then w
    else
      var before, after := s.nodes[k].server.outgoing, Next(s, step).nodes[k].server.outgoing;
      if step == Broadcast(k) || step == Suppress(k) then w.(left := w.left + before[..1])
      else w.(all := w.all + Gained(before, after, step != TakeRequest(k)))
  }

  function WrittenBy(s: System, steps: seq<Step>, k: nat, w: Written): Written
    requires Possible(s, steps)
    decreases |steps|
  {
    if steps == [] then w else WrittenBy(Next(s, steps[0]), steps[1..], k, Extended(s, steps[0], k, w))
  }

  /** A message asked for, and whether its sender waits for a reply. */
  datatype Wish = Wish(body: Body, expectsReply: bool)

  /** What server `k` was asked to send. */
  function Asked(steps: seq<Step>, k: nat): seq<Wish> {
    if steps == [] then [] else AskedBy(steps[0], k) + Asked(steps[1..], k)
  }

  function AskedBy(step: Step, k: nat): seq<Wish> {
    if step.Ask? && step.k == k then [Wish(step.body, step.expectsReply)] else []
  }

  /** The messages of a server that are still queued. */
  function Queue(sv: Server): (r: seq<Message>)
    ensures |r| == |sv.requests| && forall i :: 0 <= i < |r| ==> r[i] == sv.requests[i].message
  {
    seq(|sv.requests|, i requires 0 <= i < |sv.requests| => sv.requests[i].message)
  }

  function WaiterIds(ws: seq<Waiter>): (r: seq<Id>)
    ensures |r| == |ws| && forall c :: 0 <= c < |r| ==> r[c] == ws[c].id
  {
    seq(|ws|, c requires 0 <= c < |ws| => ws[c].id)
  }

  /** The ids of the messages whose senders wait. */
  function Expecting(asked: seq<Wish>, sends: seq<Message>): seq<Id>
    requires |asked| == |sends|
  {
    if asked == [] then []
    else
      var n := |asked| - 1;
      Expecting(asked[..n], sends[..n]) + if asked[n].expectsReply then [sends[n].id] else []
  }

  /** Each request is sent as it is, in order, and one `send` waits, under its message's id,
      for each that expects a reply. */
  predicate Carried(asked: seq<Wish>, sends: seq<Message>, waiters: seq<Waiter>) {
    && |sends| == |asked|
    && (forall i :: 0 <= i < |asked| ==> sends[i].body == asked[i].body)
    && WaiterIds(waiters) == Expecting(asked, sends)
  }

  function Messages(ws: seq<Writing>): (r: seq<Message>)
    ensures |r| == |ws| && forall i :: 0 <= i < |r| ==> r[i] == ws[i].message
  {
    seq(|ws|, i requires 0 <= i < |ws| => ws[i].message)
  }

  /** The messages written on reading, or those written on taking a request. */
  function Chosen(ws: seq<Writing>, reading: bool): seq<Message> {
    if ws == [] then []
    else
      var n := |ws| - 1;
      Chosen(ws[..n], reading) + if ws[n].reading == reading then [ws[n].message] else []
  }

  /** A store that failed. */
  predicate Refused(m: Message) { m.body == Response(Some(UNAVAILABLE)) }

  /** One right answer for each question, in order; no two polos with one id; and stores
      succeed until the reference actor stops. */
  predicate AllAnswered(node: nat, questions: seq<Message>, answers: seq<Message>) {
    && |answers| == |questions|
    && (forall i :: 0 <= i < |answers| ==> Answers(node, questions[i], answers[i]))
    && (forall i, j :: 0 <= i < j < |answers| && answers[i].body.Polo? && answers[j].body.Polo? ==>
          answers[i].id != answers[j].id)
    && (forall i, j :: 0 <= i < j < |answers| && Refused(answers[i]) && answers[j].body.Response? ==>
          Refused(answers[j]))
  }

  /** What can still be said of answers in a server that has come so far. */
  predicate Dated(sv: Server, answers: seq<Message>) {
    forall i :: 0 <= i < |answers| ==>
      (answers[i].body.Polo? ==> answers[i].id.serial < sv.made) && (sv.storage.Table? ==> !Refused(answers[i]))
  }

  /** What has left a server is on the bus, but for log messages. */
  predicate OnBus(left: seq<Message>, bus: seq<Message>) { forall m :: m in left ==> m.body.Other? || m in bus }

  /** What a server has written is what it was asked to send and its answers to what it has
      heard. */
  predicate Balanced(sv: Server, heard: seq<Message>, bus: seq<Message>, asked: seq<Wish>, w: Written) {
    && Messages(w.all) == w.left + sv.outgoing
    && Carried(asked, Chosen(w.all, false) + Queue(sv), sv.waiters)
    && AllAnswered(sv.node, Questions(heard, !sv.storage.Absent?), Chosen(w.all, true))
    && Dated(sv, Chosen(w.all, true))
    && OnBus(w.left, bus)
  }

  ghost predicate Accounted(s: System, k: nat, asked: seq<Wish>, w: Written)
    requires k < |s.nodes|
  {
    s.nodes[k].server.node == k && Balanced(s.nodes[k].server, Heard(s, k), s.bus, asked, w)
  }

  ghost predicate AccountedFor(s: System, k: nat, asked: seq<Wish>, w: Written) {
    if k < |s.nodes| then Accounted(s, k, asked, w) else asked == [] && w == NOTHING
  }

  // ----- it is kept -----

  lemma Associate<T>(a: seq<T>, b: seq<T>, c: seq<T>)
    ensures a + b + c == a + (b + c)
  {
  }

  lemma QueueNext(sv: Server)
    requires sv.requests != []
    ensures Queue(sv) == [sv.requests[0].message] + Queue(sv.RequestTurn())
  {
  }

  lemma CarriedNext(asked: seq<Wish>, sends: seq<Message>, waiters: seq<Waiter>, q: Wish, m: Message, w: Waiter)
    requires Carried(asked, sends, waiters) && m.body == q.body && w.id == m.id
    ensures Carried(asked + [q], sends + [m], if q.expectsReply then waiters + [w] else waiters)
  {
    assert (asked + [q])[..|asked|] == asked && (sends + [m])[..|sends|] == sends;
    assert Expecting(asked, sends) + [] == Expecting(asked, sends);
    assert WaiterIds(waiters + [w]) == WaiterIds(waiters) + [w.id];
  }

  lemma ChosenNext(ws: seq<Writing>, x: Writing)
    ensures Chosen(ws + [x], x.reading) == Chosen(ws, x.reading) + [x.message]
    ensures Chosen(ws + [x], !x.reading) == Chosen(ws, !x.reading)
    ensures Messages(ws + [x]) == Messages(ws) + [x.message]
  {
    assert (ws + [x])[..|ws|] == ws;
  }

  lemma QuestionsNext(heard: seq<Message>, m: Message, references: bool)
    ensures Questions(heard + [m], references)
         == Questions(heard, references) + if Question(m, references) then [m] else []
  {
    assert (heard + [m])[..|heard|] == heard;
  }

  lemma MoreOnBus(left: seq<Message>, bus: seq<Message>, bus': seq<Message>)
    requires OnBus(left, bus) && bus <= bus'
    ensures OnBus(left, bus')
  {
    assert forall m :: m in bus ==> m in bus';
  }

  /** A step that neither writes nor reads nor queues anything for a server. */
  lemma QuietBalance(sv: Server, sv': Server, heard: seq<Message>, bus: seq<Message>, bus': seq<Message>,
                     asked: seq<Wish>, w: Written)
    requires Balanced(sv, heard, bus, asked, w) && Quiet(sv, sv') && bus <= bus'
    ensures Balanced(sv', heard, bus', asked, w)
  {
    MoreOnBus(w.left, bus, bus');
    assert Queue(sv') == Queue(sv);
  }

  predicate Quiet(sv: Server, sv': Server) {
    && sv'.node == sv.node && sv'.outgoing == sv.outgoing && sv'.requests == sv.requests && sv'.made >= sv.made
    && WaiterIds(sv'.waiters) == WaiterIds(sv.waiters)
    && (sv'.storage.Absent? <==> sv.storage.Absent?) && (sv'.storage.Table? ==> sv.storage.Table?)
  }

  /** A message leaves a server. */
  lemma LeavesBalance(sv: Server, heard: seq<Message>, bus: seq<Message>, bus': seq<Message>, asked: seq<Wish>,
                      w: Written)
    requires Balanced(sv, heard, bus, asked, w) && sv.outgoing != [] && bus <= bus'
    requires sv.outgoing[0].body.Other? || sv.outgoing[0] in bus'
    ensures Balanced(sv.(outgoing := sv.outgoing[1..]), heard, bus', asked, w.(left := w.left + sv.outgoing[..1]))
  {
    var o := sv.outgoing;
    MoreOnBus(w.left, bus, bus');
    Associate(w.left, o[..1], o[1..]);
    assert o[..1] + o[1..] == o && o[..1] == [o[0]];
    assert Queue(sv.(outgoing := o[1..])) == Queue(sv);
  }

  lemma LeavesIs(s: System, step: Step, k: nat, w: Written)
    requires Inv(s) && Enabled(s, step) && (step == Broadcast(k) || step == Suppress(k))
    ensures var s', sv := Next(s, step), s.nodes[k].server;
            && s'.nodes[k].server == sv.(outgoing := sv.outgoing[1..]) && Heard(s', k) == Heard(s, k)
            && s'.bus == (if step == Broadcast(k) then s.bus + [sv.outgoing[0]] else s.bus)
            && Extended(s, step, k, w) == w.(left := w.left + sv.outgoing[..1])
  {
    assert NodeOk(s, k);
  }

  lemma LeavesKeeps(s: System, step: Step, k: nat, asked: seq<Wish>, w: Written)
    requires Inv(s) && Enabled(s, step) && (step == Broadcast(k) || step == Suppress(k))
    requires Accounted(s, k, asked, w)
    ensures Accounted(Next(s, step), k, asked, Extended(s, step, k, w))
  {
    LeavesIs(s, step, k, w);
    var m := s.nodes[k].server.outgoing[0];
    if step == Broadcast(k) {
      assert (s.bus + [m])[|s.bus|] == m;
      LeavesBalance(s.nodes[k].server, Heard(s, k), s.bus, s.bus + [m], asked, w);
    } else {
      LeavesBalance(s.nodes[k].server, Heard(s, k), s.bus, s.bus, asked, w);
    }
  }

  lemma RequestWrites(sv: Server, w: Written)
    requires sv.requests != [] && Messages(w.all) == w.left + sv.outgoing
    ensures var m, sv' := sv.requests[0].message, sv.RequestTurn();
            var all' := w.all + Gained(sv.outgoing, sv'.outgoing, false);
            && Messages(all') == w.left + sv'.outgoing
            && Chosen(all', false) + Queue(sv') == Chosen(w.all, false) + Queue(sv)
            && Chosen(all', true) == Chosen(w.all, true)
  {
    var m, sv' := sv.requests[0].message, sv.RequestTurn();
    assert sv'.outgoing == sv.outgoing + [m];
    assert Gained(sv.outgoing, sv'.outgoing, false) == [Writing(false, m)];
    ChosenNext(w.all, Writing(false, m));
    QueueNext(sv);
    Associate(Chosen(w.all, false), [m], Queue(sv'));
    Associate(w.left, sv.outgoing, [m]);
  }

  lemma RequestIs(s: System, k: nat, w: Written)
    requires Inv(s) && Enabled(s, TakeRequest(k))
    ensures var s', sv := Next(s, TakeRequest(k)), s.nodes[k].server;
            && s'.nodes[k].server == sv.RequestTurn() && Heard(s', k) == Heard(s, k) && s'.bus == s.bus
            && Extended(s, TakeRequest(k), k, w)
               == w.(all := w.all + Gained(sv.outgoing, sv.RequestTurn().outgoing, false))
  {
    assert NodeOk(s, k);
  }

  lemma RequestKeepsAccount(s: System, k: nat, asked: seq<Wish>, w: Written)
    requires Inv(s) && Enabled(s, TakeRequest(k)) && Accounted(s, k, asked, w)
    ensures Accounted(Next(s, TakeRequest(k)), k, asked, Extended(s, TakeRequest(k), k, w))
  {
    RequestIs(s, k, w);
    RequestWrites(s.nodes[k].server, w);
  }

  /** `sv'` is `sv` after reading `m`, as far as writing goes. */
  predicate Turned(sv: Server, m: Message, sv': Server, added: seq<Message>) {
    && sv'.outgoing == sv.outgoing + added && sv'.requests == sv.requests && sv'.made >= sv.made
    && WaiterIds(sv'.waiters) == WaiterIds(sv.waiters)
    && (sv'.storage.Absent? <==> sv.storage.Absent?) && (sv'.storage.Table? <==> sv.storage.Table?)
    && if Question(m, !sv.storage.Absent?) then
         && |added| == 1 && Answers(sv.node, m, added[0])
         && (added[0].body.Polo? ==> sv.made <= added[0].id.serial < sv'.made)
         && (added[0].body.Response? ==> (Refused(added[0]) <==> !sv.storage.Table?))
       else added == []
  }

  /** What a turn that reads `m` writes. */
  lemma TurnWrites(sv: Server, m: Message) returns (added: seq<Message>)
    ensures Turned(sv, m, sv.MessageTurn(m), added)
  {
    var sv' := sv.MessageTurn(m);
    added := if Question(m, !sv.storage.Absent?) then [sv'.outgoing[|sv.outgoing|]] else [];
    assert sv.outgoing + [] == sv.outgoing;
  }

  lemma AnswersExtended(node: nat, questions: seq<Message>, answers: seq<Message>, q: Message, a: Message,
                        sv: Server)
    requires AllAnswered(node, questions, answers) && Answers(node, q, a)
    requires Dated(sv, answers)
    requires (a.body.Polo? ==> sv.made <= a.id.serial) && (a.body.Response? ==> (Refused(a) <==> !sv.storage.Table?))
    ensures AllAnswered(node, questions + [q], answers + [a])
  {
  }

  lemma DatedNext(sv: Server, m: Message, sv': Server, a: Message, answers: seq<Message>)
    requires Turned(sv, m, sv', [a]) && Dated(sv, answers)
    ensures Dated(sv', answers + [a])
  {
  }

  lemma GainedOnRead(sv: Server, m: Message, sv': Server, added: seq<Message>)
    requires Turned(sv, m, sv', added)
    ensures Gained(sv.outgoing, sv'.outgoing, true) == if added == [] then [] else [Writing(true, added[0])]
    ensures Queue(sv') == Queue(sv)
  {
  }

  lemma ReadWrites(sv: Server, m: Message, sv': Server, added: seq<Message>, w: Written)
    requires Turned(sv, m, sv', added) && Messages(w.all) == w.left + sv.outgoing
    ensures var all' := w.all + Gained(sv.outgoing, sv'.outgoing, true);
            && Messages(all') == w.left + sv'.outgoing
            && Chosen(all', false) == Chosen(w.all, false) && Chosen(all', true) == Chosen(w.all, true) + added
  {
    GainedOnRead(sv, m, sv', added);
    Associate(w.left, sv.outgoing, added);
    if added == [] {
      assert w.all + [] == w.all && w.left + sv.outgoing + [] == w.left + sv.outgoing;
    } else {
      assert added == [added[0]];
      ChosenNext(w.all, Writing(true, added[0]));
    }
  }

  lemma ReadAnswers(sv: Server, m: Message, sv': Server, added: seq<Message>, heard: seq<Message>,
                    answers: seq<Message>)
    requires Turned(sv, m, sv', added) && Dated(sv, answers)
    requires AllAnswered(sv.node, Questions(heard, !sv.storage.Absent?), answers)
    ensures Dated(sv', answers + added)
    ensures AllAnswered(sv.node, Questions(heard + [m], !sv.storage.Absent?), answers + added)
  {
    QuestionsNext(heard, m, !sv.storage.Absent?);
    if Question(m, !sv.storage.Absent?) {
      assert added == [added[0]];
      DatedNext(sv, m, sv', added[0], answers);
      AnswersExtended(sv.node, Questions(heard, !sv.storage.Absent?), answers, m, added[0], sv);
    } else {
      NothingAdded(answers, added);
      NothingAdded(Questions(heard, !sv.storage.Absent?), []);
    }
  }

  lemma NothingAdded<T>(xs: seq<T>, ys: seq<T>)
    requires ys == []
    ensures xs + ys == xs
  {
  }

  /** A read, as server `k` and the bus see it. */
  lemma DeliverIs(s: System, k: nat, w: Written)
    requires Inv(s) && Enabled(s, Deliver(k))
    ensures var s', m := Next(s, Deliver(k)), s.bus[s.nodes[k].seen];
            var sv, sv' := s.nodes[k].server, s'.nodes[k].server;
            && s'.bus == s.bus && sv.node == k && sv' == sv.MessageTurn(m)
            && Heard(s', k) == Heard(s, k) + [m]
            && Extended(s, Deliver(k), k, w) == w.(all := w.all + Gained(sv.outgoing, sv'.outgoing, true))
  {
    assert NodeOk(s, k);
  }

  lemma ReadKeepsAccount(s: System, k: nat, asked: seq<Wish>, w: Written)
    requires Inv(s) && Enabled(s, Deliver(k)) && Accounted(s, k, asked, w)
    ensures Accounted(Next(s, Deliver(k)), k, asked, Extended(s, Deliver(k), k, w))
  {
    DeliverIs(s, k, w);
    var sv, m := s.nodes[k].server, s.bus[s.nodes[k].seen];
    var added := TurnWrites(sv, m);
    ReadWrites(sv, m, sv.MessageTurn(m), added, w);
    ReadAnswers(sv, m, sv.MessageTurn(m), added, Heard(s, k), Chosen(w.all, true));
    GainedOnRead(sv, m, sv.MessageTurn(m), added);
  }

  lemma AskCarries(sv: Server, body: Body, expectsReply: bool, asked: seq<Wish>, written: seq<Message>)
    requires Carried(asked, written + Queue(sv), sv.waiters)
    ensures var sv' := sv.Ask(body, expectsReply);
            Carried(asked + [Wish(body, expectsReply)], written + Queue(sv'), sv'.waiters)
  {
    var id := Own(sv.node, sv.made);
    var m := Message(id, body);
    assert Queue(sv.Ask(body, expectsReply)) == Queue(sv) + [m];
    Associate(written, Queue(sv), [m]);
    CarriedNext(asked, written + Queue(sv), sv.waiters, Wish(body, expectsReply), m, Waiter(id, Waiting));
  }

  lemma AskIs(s: System, k: nat, body: Body, expectsReply: bool, w: Written)
    requires Inv(s) && k < |s.nodes|
    ensures var s', sv := Next(s, Ask(k, body, expectsReply)), s.nodes[k].server;
            && s'.nodes[k].server == sv.Ask(body, expectsReply) && Heard(s', k) == Heard(s, k) && s'.bus == s.bus
            && Extended(s, Ask(k, body, expectsReply), k, w) == w
  {
    assert NodeOk(s, k);
    NothingAdded(w.all, []);
  }

  lemma AskKeepsAccount(s: System, k: nat, body: Body, expectsReply: bool, asked: seq<Wish>, w: Written)
    requires Inv(s) && k < |s.nodes| && Accounted(s, k, asked, w)
    ensures Accounted(Next(s, Ask(k, body, expectsReply)), k, asked + [Wish(body, expectsReply)], w)
    ensures Extended(s, Ask(k, body, expectsReply), k, w) == w
  {
    AskIs(s, k, body, expectsReply, w);
    AskCarries(s.nodes[k].server, body, expectsReply, asked, Chosen(w.all, false));
  }

  lemma NodesStay(s: System, step: Step)
    requires Enabled(s, step)
    ensures |s.nodes| <= |Next(s, step).nodes|
  {
  }

  /** A step of another kind, or of another server. */
  predicate Another(step: Step, k: nat) {
    && step != Broadcast(k) && step != Suppress(k) && step != TakeRequest(k) && step != Deliver(k)
    && !(step.Ask? && step.k == k)
  }

  lemma OtherIs(s: System, step: Step, k: nat, w: Written)
    requires Inv(s) && Enabled(s, step) && k < |s.nodes| && Another(step, k)
    ensures var s' := Next(s, step);
            && k < |s'.nodes| && Quiet(s.nodes[k].server, s'.nodes[k].server)
            && Heard(s', k) == Heard(s, k) && s.bus <= s'.bus
            && Extended(s, step, k, w) == w
  {
    assert NodeOk(s, k);
    NothingAdded(w.all, []);
  }

  lemma OtherKeepsAccount(s: System, step: Step, k: nat, asked: seq<Wish>, w: Written)
    requires Inv(s) && Enabled(s, step) && k < |s.nodes| && Accounted(s, k, asked, w) && Another(step, k)
    ensures AccountedFor(Next(s, step), k, asked, w) && Extended(s, step, k, w) == w
  {
    OtherIs(s, step, k, w);
    var s' := Next(s, step);
    QuietBalance(s.nodes[k].server, s'.nodes[k].server, Heard(s, k), s.bus, s'.bus, asked, w);
  }

  lemma NextAccounted(s: System, step: Step, k: nat, asked: seq<Wish>, w: Written)
    requires Inv(s) && Enabled(s, step) && k < |s.nodes| && Accounted(s, k, asked, w)
    ensures AccountedFor(Next(s, step), k, asked + AskedBy(step, k), Extended(s, step, k, w))
  {
    NodesStay(s, step);
    assert asked + [] == asked;
    if step == Broadcast(k) || step == Suppress(k) {
      LeavesKeeps(s, step, k, asked, w);
    } else if step == TakeRequest(k) {
      RequestKeepsAccount(s, k, asked, w);
    } else if step == Deliver(k) {
      ReadKeepsAccount(s, k, asked, w);
    } else if step.Ask? && step.k == k {
      AskKeepsAccount(s, k, step.body, step.expectsReply, asked, w);
    } else {
      OtherKeepsAccount(s, step, k, asked, w);
    }
  }

  /** A server that is not there yet has written nothing. */
  lemma NewAccounted(s: System, step: Step, k: nat)
    requires Enabled(s, step) && k >= |s.nodes|
    ensures AccountedFor(Next(s, step), k, [], NOTHING) && AskedBy(step, k) == []
  {
    var s' := Next(s, step);
    assert k < |s'.nodes| ==> Heard(s', k) == [];
  }

  lemma AskedNext(asked: seq<Wish>, steps: seq<Step>, k: nat)
    requires steps != []
    ensures asked + AskedBy(steps[0], k) + Asked(steps[1..], k) == asked + Asked(steps, k)
  {
    Associate(asked, AskedBy(steps[0], k), Asked(steps[1..], k));
  }

  lemma {:induction false} RunAccounted(s: System, steps: seq<Step>, k: nat, asked: seq<Wish>, w: Written)
    requires Inv(s) && Possible(s, steps) && AccountedFor(s, k, asked, w)
    ensures AccountedFor(Run(s, steps), k, asked + Asked(steps, k), WrittenBy(s, steps, k, w))
    decreases |steps|
  {
    if steps == [] {
      assert asked + [] == asked;
    } else {
      var s', asked', w' := Next(s, steps[0]), asked + AskedBy(steps[0], k), Extended(s, steps[0], k, w);
      NextKeeps(s, steps[0]);
      assert AccountedFor(s', k, asked', w') by {
        if k < |s.nodes| {
          NextAccounted(s, steps[0], k, asked, w);
        } else {
          NewAccounted(s, steps[0], k);
        }
      }
      RunAccounted(s', steps[1..], k, asked', w');
      AskedNext(asked, steps, k);
    }
  }

  /** In every run, what a server has sent or still holds is what it was asked to send, in
      order but for what is still queued, and one right answer for each question it has
      read, in order: no store and no marco goes unanswered, and no response is made up. */
  lemma WritesRequestsAndAnswers(steps: seq<Step>, k: nat)
    requires Possible(START, steps) && k < |Run(START, steps).nodes|
    ensures var s, w := Run(START, steps), WrittenBy(START, steps, k, NOTHING);
            var sv := s.nodes[k].server;
            && w.left + sv.outgoing == Messages(w.all)
            && Carried(Asked(steps, k), Chosen(w.all, false) + Queue(sv), sv.waiters)
            && AllAnswered(k, Questions(Heard(s, k), !sv.storage.Absent?), Chosen(w.all, true))
            && OnBus(w.left, s.bus)
  {
    RunAccounted(START, steps, k, [], NOTHING);
    assert [] + Asked(steps, k) == Asked(steps, k);
  }
}
