/** The daemon's table of clients and its idle clock
    (outdated/mcp-server/src/daemon.rs). */
module BusIdle {
  import opened Collections

  type ClientId = nat

  /** In nanoseconds, from the start of the loop. */
  type Time = nat

  const TICK: nat := 5_000_000_000

  datatype Daemon = Daemon(clients: set<ClientId>, nextClientId: ClientId, lastActivity: Time)
  {
    function Accept(now: Time): Daemon {
      Daemon(clients + {nextClientId}, nextClientId + 1, now)
    }

    /** The idle check: `finished` are the clients whose tasks have ended. */
    function Tick(finished: set<ClientId>, now: Time): Daemon {
      var left := clients - finished;
      Daemon(left, nextClientId, if left == {} then lastActivity else now)
    }

    predicate IdleFor(timeout: nat, now: Time) { clients == {} && now - lastActivity >= timeout }
  }

  class MessageBus {
    const idleTimeout: nat
    var clients: set<ClientId>
    var nextClientId: ClientId
    var lastActivity: Time

    function State(): Daemon
      reads this
    {
      Daemon(clients, nextClientId, lastActivity)
    }

    constructor (idleTimeout: nat)
      ensures State() == Daemon({}, 0, 0) && this.idleTimeout == idleTimeout
    {
      this.idleTimeout := idleTimeout;
      clients, nextClientId, lastActivity := {}, 0, 0;
    }

    method OnAccept(now: Time) returns (client: ClientId)
      modifies this
      ensures client == old(nextClientId) && State() == old(State()).Accept(now)
    {
      client := nextClientId;
      nextClientId := nextClientId + 1;
      lastActivity := now;
      clients := clients + {client};
    }

    method OnIdleCheck(finished: set<ClientId>, now: Time) returns (shutDown: bool)
      modifies this
      ensures State() == old(State()).Tick(finished, now) && shutDown == State().IdleFor(idleTimeout, now)
    {
      clients := clients - finished;
      shutDown := false;
      if clients == {} {
        if now - lastActivity >= idleTimeout {
          shutDown := true;
        }
      } else {
        lastActivity := now;
      }
    }
  }

  // ----- runs -----

  datatype Event = Accepted | Finished(client: ClientId) | Ticked

  datatype Timed = Timed(at: Time, what: Event)

  /** The daemon in its surroundings: clients whose tasks have ended, idle checks made,
      the time of the last event, and of the idle exit if there was one. */
  datatype World = World(daemon: Daemon, finished: set<ClientId>, ticks: nat, now: Time, exit: Option<Time>)

  const START := World(Daemon({}, 0, 0), {}, 0, 0, None)

  function Next(timeout: nat, w: World, e: Timed): World {
    match e.what
    case Accepted => w.(daemon := w.daemon.Accept(e.at), now := e.at)
    case Finished(c) => w.(finished := w.finished + {c}, now := e.at)
    case Ticked =>
      var d := w.daemon.Tick(w.finished, e.at);
      World(d, w.finished, w.ticks + 1, e.at, if d.IdleFor(timeout, e.at) then Some(e.at) else None)
  }

  /** Time does not run backwards; checks come every five seconds from the start, none
      is skipped; only a client there can finish; nothing happens after the exit. */
  predicate OnTime(w: World, e: Timed) {
    && w.exit == None
    && w.now <= e.at <= w.ticks * TICK
    && (e.what.Ticked? ==> e.at == w.ticks * TICK)
    && (e.what.Finished? ==> e.what.client < w.daemon.nextClientId && e.what.client !in w.finished)
  }

  function Run(timeout: nat, es: seq<Timed>): World {
    if es == [] then START else Next(timeout, Run(timeout, es[..|es| - 1]), es[|es| - 1])
  }

  predicate Possible(timeout: nat, es: seq<Timed>) {
    es == [] || (Possible(timeout, es[..|es| - 1]) && OnTime(Run(timeout, es[..|es| - 1]), es[|es| - 1]))
  }

  /** When a client last came, or went. */
  function LastCame(es: seq<Timed>): Time {
    if es == [] then 0 else if es[|es| - 1].what.Accepted? then es[|es| - 1].at else LastCame(es[..|es| - 1])
  }

  function LastWent(es: seq<Timed>): Time {
    if es == [] then 0 else if es[|es| - 1].what.Finished? then es[|es| - 1].at else LastWent(es[..|es| - 1])
  }

  predicate Live(w: World, c: ClientId) { c < w.daemon.nextClientId && c !in w.finished }

  ghost predicate NobodyLive(w: World) { forall c: ClientId :: !Live(w, c) }

  /** What holds all along, before the exit. */
  ghost predicate Inv(timeout: nat, es: seq<Timed>, w: World) {
    var d := w.daemon;
    && (forall c :: c in d.clients ==> c < d.nextClientId)
    && (forall c :: c in w.finished ==> c < d.nextClientId)
    && (forall c: ClientId :: Live(w, c) ==> c in d.clients)
    && LastCame(es) <= d.lastActivity <= w.now <= w.ticks * TICK
    && w.ticks * TICK <= w.now + TICK
    && LastWent(es) <= w.now && LastWent(es) <= d.lastActivity + TICK
    && (w.exit == None && !NobodyLive(w) ==> w.ticks * TICK <= d.lastActivity + TICK)
    && (NobodyLive(w) ==> d.lastActivity <= LastCame(es) || d.lastActivity <= LastWent(es))
    && (w.exit == None && NobodyLive(w) && w.ticks > 0 ==> SurvivedCheck(timeout, es, w))
    && (w.exit.Some? ==> RightlyLeft(timeout, w))
  }

  /** The last check did not exit although nobody is there now: it came before the last
      client came or went, or too early. */
  predicate SurvivedCheck(timeout: nat, es: seq<Timed>, w: World)
    requires w.ticks > 0
  {
    var last := (w.ticks - 1) * TICK;
    last <= LastCame(es) || last <= LastWent(es) || last < w.daemon.lastActivity + timeout
  }

  ghost predicate RightlyLeft(timeout: nat, w: World) {
    && w.exit == Some(w.now)
    && NobodyLive(w)
    && w.now >= w.daemon.lastActivity + timeout
    && w.ticks > 0 && w.now == (w.ticks - 1) * TICK
  }

  lemma NextKeeps(timeout: nat, es: seq<Timed>, w: World, e: Timed)
    requires Inv(timeout, es, w) && OnTime(w, e)
    ensures Inv(timeout, es + [e], Next(timeout, w, e))
  {
    var w' := Next(timeout, w, e);
    assert (es + [e])[..|es|] == es;
    match e.what
    case Accepted =>
      assert Live(w', w.daemon.nextClientId);
    case Finished(c) =>
      assert Live(w, c);
      assert NobodyLive(w) ==> !Live(w, c);
      assert forall x: ClientId :: Live(w', x) ==> Live(w, x);
    case Ticked =>
      assert forall x: ClientId :: Live(w', x) <==> Live(w, x);
      if w'.daemon.clients != {} {
        var x :| x in w'.daemon.clients;
        assert Live(w', x);
      }
  }

  lemma {:induction false} RunKeeps(timeout: nat, es: seq<Timed>)
    requires Possible(timeout, es)
    ensures Inv(timeout, es, Run(timeout, es))
  {
    if es != [] {
      var n := |es| - 1;
      RunKeeps(timeout, es[..n]);
      NextKeeps(timeout, es[..n], Run(timeout, es[..n]), es[n]);
      assert es == es[..n] + [es[n]];
    }
  }

  /** The daemon leaves for idleness only when no client is there, none has come for
      the timeout, and the last one has been gone for the timeout less one interval. */
  lemma LeavesOnlyWhenIdle(timeout: nat, es: seq<Timed>)
    requires Possible(timeout, es) && Run(timeout, es).exit.Some?
    ensures var w := Run(timeout, es);
            && NobodyLive(w)
            && w.exit.value >= LastCame(es) + timeout
            && w.exit.value + TICK >= LastWent(es) + timeout
  {
    RunKeeps(timeout, es);
  }

  /** If all clients are gone by `t` and none comes later, the daemon has left by `t`
      plus the timeout plus one interval. */
  lemma LeavesInTime(timeout: nat, es: seq<Timed>, t: Time)
    requires Possible(timeout, es) && NobodyLive(Run(timeout, es)) && LastCame(es) <= t && LastWent(es) <= t
    ensures var w := Run(timeout, es);
            w.now <= t + timeout + TICK && (w.exit.Some? ==> w.exit.value <= t + timeout + TICK)
  {
    RunKeeps(timeout, es);
    if Run(timeout, es).exit.Some? {
      var n := |es| - 1;
      RunKeeps(timeout, es[..n]);
    }
  }

  function NextCheck(w: World): Timed { Timed(w.ticks * TICK, Ticked) }

  lemma {:induction false} RunSnoc(timeout: nat, es: seq<Timed>, e: Timed)
    ensures Run(timeout, es + [e]) == Next(timeout, Run(timeout, es), e)
    ensures Possible(timeout, es + [e]) <==> Possible(timeout, es) && OnTime(Run(timeout, es), e)
    ensures e.what.Ticked? ==> LastCame(es + [e]) == LastCame(es) && LastWent(es + [e]) == LastWent(es)
  {
    assert (es + [e])[..|es|] == es;
  }

  /** Until the daemon leaves, its next idle check can always come. */
  lemma CheckComes(timeout: nat, es: seq<Timed>)
    requires Possible(timeout, es) && Run(timeout, es).exit == None
    ensures Possible(timeout, es + [NextCheck(Run(timeout, es))])
  {
    RunKeeps(timeout, es);
    RunSnoc(timeout, es, NextCheck(Run(timeout, es)));
  }

  /** A check leaves exactly when nobody is live and the activity last seen lies the
      timeout back, so for certain when the last client came and went that long ago. */
  lemma CheckLeavesIff(timeout: nat, es: seq<Timed>)
    requires Possible(timeout, es) && Run(timeout, es).exit == None
    ensures var w := Run(timeout, es);
            var left := Next(timeout, w, NextCheck(w)).exit;
            && (left.Some? <==> NobodyLive(w) && w.ticks * TICK >= w.daemon.lastActivity + timeout)
            && (left.Some? ==> left.value == w.ticks * TICK)
            && (NobodyLive(w) && w.ticks * TICK >= LastCame(es) + timeout && w.ticks * TICK >= LastWent(es) + timeout
                ==> left.Some?)
  {
    RunKeeps(timeout, es);
    var w := Run(timeout, es);
    var left := w.daemon.clients - w.finished;
    assert left == {} <==> NobodyLive(w) by {
      if c: ClientId :| Live(w, c) {
        assert c in left;
      }
      if c :| c in left {
        assert Live(w, c);
      }
    }
  }

  /** Once all clients are gone for good the daemon does leave: its idle checks alone
      lead to the exit, by `t` plus the timeout plus one interval. */
  lemma {:induction false} WillLeave(timeout: nat, es: seq<Timed>, t: Time) returns (checks: seq<Timed>)
    requires Possible(timeout, es) && Run(timeout, es).exit == None
    requires NobodyLive(Run(timeout, es)) && LastCame(es) <= t && LastWent(es) <= t
    ensures (forall e :: e in checks ==> e.what.Ticked?) && Possible(timeout, es + checks)
    ensures var exit := Run(timeout, es + checks).exit; exit.Some? && exit.value <= t + timeout + TICK
    decreases if t + timeout > Run(timeout, es).ticks * TICK then t + timeout - Run(timeout, es).ticks * TICK else 0
  {
    var w := Run(timeout, es);
    var e := NextCheck(w);
    CheckComes(timeout, es);
    CheckLeavesIff(timeout, es);
    RunSnoc(timeout, es, e);
    var w' := Run(timeout, es + [e]);
    assert forall c: ClientId :: Live(w', c) ==> Live(w, c);
    if w'.exit.Some? {
      LeavesInTime(timeout, es + [e], t);
      checks := [e];
    } else {
      var more := WillLeave(timeout, es + [e], t);
      checks := [e] + more;
      assert es + checks == es + [e] + more;
    }
  }
}
