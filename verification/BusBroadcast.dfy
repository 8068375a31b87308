/** What the repeater guarantees over whole runs: one total order of messages, of
    which every subscriber sees all from its subscription on, and a bounded history. */
module BusBroadcast {
  import opened Numerals
  import opened BusRepeater

  // ----- reference definitions, on events alone -----

  /** The contents broadcast in a run: everything but log messages. */
  function Broadcasts(isLog: string -> bool, es: seq<Event>): seq<string> {
    if es == [] then []
    else
      var last := es[|es| - 1];
      Broadcasts(isLog, es[..|es| - 1]) + if last.Incoming? && !isLog(last.content) then [last.content] else []
  }

  /** The run up to the first time the far end of `c` goes away. */
  function UntilDrop(es: seq<Event>, c: ChannelId): seq<Event> {
    if Drop(c) !in es then es
    else if es == [] then [] else UntilDrop(es[..|es| - 1], c)
  }

  /** The identifier last set for a client, or its number. */
  function Named(es: seq<Event>, client: ClientId): string {
    if es == [] then Digits(client)
    else
      var last := es[|es| - 1];
      if last.SetIdentifier? && last.client == client then last.identifier else Named(es[..|es| - 1], client)
  }

  /** Every message of the run, logs included, as the history would keep it. */
  function AllLogged(es: seq<Event>): seq<LoggedMessage> {
    if es == [] then []
    else
      var before, last := es[..|es| - 1], es[|es| - 1];
      AllLogged(before) +
      if last.Incoming? then [LoggedMessage(last.timestamp, last.client, Named(before, last.client), last.content)]
      else []
  }

  function Tail<T>(xs: seq<T>, n: nat): seq<T> {
    if |xs| <= n then xs else xs[|xs| - n..]
  }

  /** What a client sent, but for log messages. */
  function SentBy(isLog: string -> bool, es: seq<Event>, client: ClientId): seq<string> {
    if es == [] then []
    else
      var last := es[|es| - 1];
      SentBy(isLog, es[..|es| - 1], client)
      + if last.Incoming? && last.client == client && !isLog(last.content) then [last.content] else []
  }

  predicate Subsequence<T(==)>(xs: seq<T>, ys: seq<T>)
    decreases |ys|
  {
    xs == []
    || (ys != [] && (Subsequence(xs, ys[..|ys| - 1])
                     || (xs[|xs| - 1] == ys[|ys| - 1] && Subsequence(xs[..|xs| - 1], ys[..|ys| - 1]))))
  }

  // ----- one broadcast -----

  function Repeat(s: string, n: nat): (r: seq<string>)
    ensures |r| == n
  {
    seq(n, _ => s)
  }

  /** Each occurrence of an open channel gets one copy, a closed one none. */
  lemma {:induction false} PostAllInbox(r: Repeater, cs: seq<ChannelId>, content: string, c: ChannelId)
    requires c in r.mailboxes
    ensures var r' := r.PostAll(cs, content);
            && c in r'.mailboxes && r'.mailboxes[c].open == r.mailboxes[c].open
            && r'.mailboxes[c].inbox == r.mailboxes[c].inbox + Repeat(content, if r.Open(c) then multiset(cs)[c] else 0)
  {
    if cs == [] {
      assert r.mailboxes[c].inbox + Repeat(content, 0) == r.mailboxes[c].inbox;
    } else {
      var n := |cs| - 1;
      assert cs == cs[..n] + [cs[n]];
      PostAllInbox(r, cs[..n], content, c);
      PostAllOpen(r, cs[..n], content, cs[n]);
      if r.Open(c) && cs[n] == c {
        var inbox, k := r.mailboxes[c].inbox, multiset(cs[..n])[c];
        assert inbox + Repeat(content, k) + [content] == inbox + Repeat(content, k + 1);
      }
    }
  }

  lemma {:induction false} OpenOnesCount(r: Repeater, cs: seq<ChannelId>, c: ChannelId)
    ensures multiset(r.OpenOnes(cs))[c] == if r.Open(c) then multiset(cs)[c] else 0
  {
    if cs != [] {
      var n := |cs| - 1;
      assert cs == cs[..n] + [cs[n]];
      OpenOnesCount(r, cs[..n], c);
    }
  }

  /** One event, seen from one channel. */
  lemma NextChannel(isLog: string -> bool, r: Repeater, e: Event, c: ChannelId)
    requires c in r.mailboxes && e != Subscribe(c)
    ensures var r' := r.Next(isLog, e);
            var hit := e.Incoming? && !isLog(e.content);
            && c in r'.mailboxes
            && r'.mailboxes[c].open == (r.mailboxes[c].open && e != Drop(c))
            && (!hit ==> r'.mailboxes[c].inbox == r.mailboxes[c].inbox)
            && (!hit ==> multiset(r'.subscribers)[c] == multiset(r.subscribers)[c])
            && (hit ==>
                  && r'.mailboxes[c].inbox
                     == r.mailboxes[c].inbox + Repeat(e.content, if r.Open(c) then multiset(r.subscribers)[c] else 0)
                  && multiset(r'.subscribers)[c] == if r.Open(c) then multiset(r.subscribers)[c] else 0)
  {
    if e.Incoming? && !isLog(e.content) {
      var logged := r.Remember(LoggedMessage(e.timestamp, e.client, r.Identifier(e.client), e.content));
      PostAllInbox(logged, r.subscribers, e.content, c);
      OpenOnesCount(r, r.subscribers, c);
    }
  }

  // ----- whole runs -----

  /** A channel nobody has subscribed yet has received nothing. */
  lemma {:induction false} BeforeSubscribing(isLog: string -> bool, es: seq<Event>, c: ChannelId)
    requires Subscribe(c) !in es && Drop(c) !in es
    ensures c !in Run(isLog, es).subscribers && c !in Run(isLog, es).mailboxes
  {
    if es != [] {
      var n := |es| - 1;
      BeforeSubscribing(isLog, es[..n], c);
      NextAbsent(isLog, Run(isLog, es[..n]), es[n], c);
    }
  }

  lemma NextAbsent(isLog: string -> bool, r: Repeater, e: Event, c: ChannelId)
    requires c !in r.subscribers && c !in r.mailboxes && e != Subscribe(c) && e != Drop(c)
    ensures c !in r.Next(isLog, e).subscribers && c !in r.Next(isLog, e).mailboxes
  {
    if e.Incoming? && !isLog(e.content) {
      var logged := r.Remember(LoggedMessage(e.timestamp, e.client, r.Identifier(e.client), e.content));
      PostAllAbsent(logged, r.subscribers, e.content, c);
      OpenOnesCount(r, r.subscribers, c);
    }
  }

  lemma {:induction false} PostAllAbsent(r: Repeater, cs: seq<ChannelId>, content: string, c: ChannelId)
    requires c !in r.mailboxes
    ensures c !in r.PostAll(cs, content).mailboxes
  {
    if cs != [] {
      PostAllAbsent(r, cs[..|cs| - 1], content, c);
    }
  }

  /** Mailbox and subscription of `c` after `since`, the run since it subscribed. */
  predicate Served(isLog: string -> bool, r: Repeater, c: ChannelId, since: seq<Event>) {
    var got := Broadcasts(isLog, UntilDrop(since, c));
    && c in r.mailboxes
    && r.mailboxes[c] == Mailbox(Drop(c) !in since, got)
    && multiset(r.subscribers)[c] == if |Broadcasts(isLog, since)| == |got| then 1 else 0
  }

  lemma ServedNext(isLog: string -> bool, r: Repeater, c: ChannelId, since: seq<Event>, e: Event)
    requires Served(isLog, r, c, since) && e != Subscribe(c)
    ensures Served(isLog, r.Next(isLog, e), c, since + [e])
  {
    var more := since + [e];
    assert more[..|more| - 1] == since;
    UntilDropIsPrefix(isLog, since, c);
    NextChannel(isLog, r, e, c);
    assert forall x :: x in more <==> x in since || x == e;
    if Drop(c) !in since && e != Drop(c) && e.Incoming? && !isLog(e.content) {
      assert Repeat(e.content, 1) == [e.content];
    } else if e.Incoming? && !isLog(e.content) {
      assert r.mailboxes[c].inbox + Repeat(e.content, 0) == r.mailboxes[c].inbox;
    }
  }

  /** A channel subscribed once has received exactly the messages broadcast since its
      subscription and before its far end went away, in order; and it stays in the
      list of subscribers exactly until the first broadcast after that. */
  lemma {:induction false} ReceivesAllSinceSubscription(isLog: string -> bool, before: seq<Event>, c: ChannelId,
                                                        since: seq<Event>)
    requires Subscribe(c) !in before && Subscribe(c) !in since && Drop(c) !in before
    ensures Served(isLog, Run(isLog, before + [Subscribe(c)] + since), c, since)
    decreases |since|
  {
    if since == [] {
      ServedFirst(isLog, before, c);
      assert before + [Subscribe(c)] + [] == before + [Subscribe(c)];
    } else {
      var n := |since| - 1;
      var es := before + [Subscribe(c)] + since[..n];
      ReceivesAllSinceSubscription(isLog, before, c, since[..n]);
      ServedRun(isLog, es, c, since[..n], since[n]);
      SplitLast(before + [Subscribe(c)], since);
    }
  }

  lemma SplitLast(head: seq<Event>, es: seq<Event>)
    requires es != []
    ensures var n := |es| - 1;
            es == es[..n] + [es[n]] && head + es == (head + es[..n]) + [es[n]]
  {
  }

  lemma ServedRun(isLog: string -> bool, es: seq<Event>, c: ChannelId, since: seq<Event>, e: Event)
    requires Served(isLog, Run(isLog, es), c, since) && e != Subscribe(c)
    ensures Served(isLog, Run(isLog, es + [e]), c, since + [e])
  {
    ServedNext(isLog, Run(isLog, es), c, since, e);
    RunNext(isLog, es, e);
  }

  lemma RunNext(isLog: string -> bool, es: seq<Event>, e: Event)
    ensures Run(isLog, es + [e]) == Run(isLog, es).Next(isLog, e)
  {
    assert (es + [e])[..|es|] == es;
  }

  lemma ServedFirst(isLog: string -> bool, before: seq<Event>, c: ChannelId)
    requires Subscribe(c) !in before && Drop(c) !in before
    ensures Served(isLog, Run(isLog, before + [Subscribe(c)]), c, [])
  {
    BeforeSubscribing(isLog, before, c);
    RunNext(isLog, before, Subscribe(c));
  }

  lemma {:induction false} UntilDropIsPrefix(isLog: string -> bool, es: seq<Event>, c: ChannelId)
    ensures |Broadcasts(isLog, UntilDrop(es, c))| <= |Broadcasts(isLog, es)|
  {
    if Drop(c) in es {
      UntilDropIsPrefix(isLog, es[..|es| - 1], c);
    }
  }

  lemma {:induction false} BroadcastsAppend(isLog: string -> bool, a: seq<Event>, b: seq<Event>)
    ensures Broadcasts(isLog, a + b) == Broadcasts(isLog, a) + Broadcasts(isLog, b)
    decreases |b|
  {
    if b == [] {
      assert a + b == a;
    } else {
      assert (a + b)[..|a + b| - 1] == a + b[..|b| - 1];
      BroadcastsAppend(isLog, a, b[..|b| - 1]);
    }
  }

  /** Neither subscribed to nor dropped in a run. */
  predicate Quiet(es: seq<Event>, c: ChannelId) { Subscribe(c) !in es && Drop(c) !in es }

  lemma QuietAround(before: seq<Event>, d: ChannelId, since: seq<Event>, c: ChannelId)
    requires Quiet(before, c) && Quiet(since, c) && c != d
    ensures Quiet(before + [Subscribe(d)] + since, c)
  {
  }

  /** Of two open subscribers, the later one's stream is a suffix of the earlier one's. */
  lemma LaterIsSuffix(isLog: string -> bool, before: seq<Event>, c: ChannelId, between: seq<Event>, d: ChannelId,
                      since: seq<Event>)
    requires c != d
    requires Quiet(before, c) && Quiet(between, c) && Quiet(since, c)
    requires Quiet(before, d) && Quiet(between, d) && Quiet(since, d)
    ensures var r := Run(isLog, before + [Subscribe(c)] + between + [Subscribe(d)] + since);
            && r.Open(c) && r.Open(d)
            && r.mailboxes[c].inbox == Broadcasts(isLog, between) + r.mailboxes[d].inbox
  {
    var afterC := between + [Subscribe(d)] + since;
    var upToD := before + [Subscribe(c)] + between;
    var r := Run(isLog, upToD + [Subscribe(d)] + since);
    assert upToD + [Subscribe(d)] + since == before + [Subscribe(c)] + afterC;
    QuietAround(between, d, since, c);
    QuietAround(before, c, between, d);
    ReceivesAllSinceSubscription(isLog, before, c, afterC);
    ReceivesAllSinceSubscription(isLog, upToD, d, since);
    ServedOpen(isLog, r, c, afterC);
    ServedOpen(isLog, r, d, since);
    BroadcastsAround(isLog, between, d, since);
  }

  lemma ServedOpen(isLog: string -> bool, r: Repeater, c: ChannelId, since: seq<Event>)
    requires Served(isLog, r, c, since) && Drop(c) !in since
    ensures r.Open(c) && r.mailboxes[c].inbox == Broadcasts(isLog, since)
  {
  }

  lemma BroadcastsAround(isLog: string -> bool, a: seq<Event>, d: ChannelId, b: seq<Event>)
    ensures Broadcasts(isLog, a + [Subscribe(d)] + b) == Broadcasts(isLog, a) + Broadcasts(isLog, b)
  {
    BroadcastsAppend(isLog, a + [Subscribe(d)], b);
    assert (a + [Subscribe(d)])[..|a|] == a;
  }

  /** A client subscribed before it was read from (as `handle_client` does) has its
      own messages echoed, all of them and in the order it sent them. */
  lemma OwnMessagesEchoed(isLog: string -> bool, before: seq<Event>, c: ChannelId, since: seq<Event>, client: ClientId)
    requires Subscribe(c) !in before && Subscribe(c) !in since && Drop(c) !in before && Drop(c) !in since
    requires forall e :: e in before ==> !(e.Incoming? && e.client == client)
    ensures var es := before + [Subscribe(c)] + since;
            && c in Run(isLog, es).mailboxes
            && Subsequence(SentBy(isLog, es, client), Run(isLog, es).mailboxes[c].inbox)
  {
    ReceivesAllSinceSubscription(isLog, before, c, since);
    SentSince(isLog, before, c, since, client);
    SentIsBroadcast(isLog, since, client);
  }

  lemma {:induction false} SentSince(isLog: string -> bool, before: seq<Event>, c: ChannelId, since: seq<Event>,
                                     client: ClientId)
    requires forall e :: e in before ==> !(e.Incoming? && e.client == client)
    ensures SentBy(isLog, before + [Subscribe(c)] + since, client) == SentBy(isLog, since, client)
    decreases |before| + |since|
  {
    var es := before + [Subscribe(c)] + since;
    if since != [] {
      var n := |since| - 1;
      assert es[..|es| - 1] == before + [Subscribe(c)] + since[..n];
      SentSince(isLog, before, c, since[..n], client);
    } else {
      assert es[..|es| - 1] == before;
      SentNothing(isLog, before, client);
    }
  }

  lemma {:induction false} SentNothing(isLog: string -> bool, es: seq<Event>, client: ClientId)
    requires forall e :: e in es ==> !(e.Incoming? && e.client == client)
    ensures SentBy(isLog, es, client) == []
  {
    if es != [] {
      SentNothing(isLog, es[..|es| - 1], client);
    }
  }

  lemma {:induction false} SentIsBroadcast(isLog: string -> bool, es: seq<Event>, client: ClientId)
    ensures Subsequence(SentBy(isLog, es, client), Broadcasts(isLog, es))
  {
    if es != [] {
      var n := |es| - 1;
      SentIsBroadcast(isLog, es[..n], client);
      SubsequenceBoth(SentBy(isLog, es[..n], client), Broadcasts(isLog, es[..n]), es[n]);
    }
  }

  lemma SubsequenceBoth(xs: seq<string>, ys: seq<string>, e: Event)
    requires Subsequence(xs, ys)
    ensures Subsequence(xs, ys + []) && Subsequence(xs + [], ys + [])
    ensures e.Incoming? ==> Subsequence(xs + [], ys + [e.content]) && Subsequence(xs + [e.content], ys + [e.content])
  {
    assert ys + [] == ys && xs + [] == xs;
    if e.Incoming? {
      assert (xs + [e.content])[..|xs|] == xs && (ys + [e.content])[..|ys|] == ys;
    }
  }

  /** The history is the last 1024 messages of the run, or all of them, logs included. */
  lemma {:induction false} HistoryIsTail(isLog: string -> bool, es: seq<Event>)
    ensures Run(isLog, es).history == Tail(AllLogged(es), MAX_MESSAGE_HISTORY)
    ensures forall client :: Run(isLog, es).Identifier(client) == Named(es, client)
  {
    if es != [] {
      var n := |es| - 1;
      var r, e := Run(isLog, es[..n]), es[n];
      HistoryIsTail(isLog, es[..n]);
      if e.Incoming? {
        var m := LoggedMessage(e.timestamp, e.client, r.Identifier(e.client), e.content);
        RememberTail(r.history, AllLogged(es[..n]), m);
        PostAllOpen(r.Remember(m), r.subscribers, e.content, 0);
      }
    }
  }

  lemma RememberTail(history: seq<LoggedMessage>, all: seq<LoggedMessage>, m: LoggedMessage)
    requires history == Tail(all, MAX_MESSAGE_HISTORY)
    ensures (if |history| >= MAX_MESSAGE_HISTORY then history[1..] else history) + [m]
         == Tail(all + [m], MAX_MESSAGE_HISTORY)
  {
  }
}
