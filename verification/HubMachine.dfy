/**
 The hub's connection machine. A step is one stretch of handler code between
 two `await`s, so runs of this machine are the interleavings that the event
 loop can produce: registrations in several stages, socket closes, heartbeat
 ticks, pongs, sweep evictions, tunneled requests and relayed WebSockets.
 */
module HubMachine {
  import opened Options
  import A = Agents
  import P = PendingRequests
  import T = TunnelSockets

  const MAX_MISSED_PINGS := 6

  datatype Limit = Unlimited | AtMost(n: nat)

  /** A registration between its first await and its commit; the plan limit was read on the way. */
  datatype Ticket = Ticket(ws: nat, accountId: string, keyId: string, name: string, fingerprint: string, limit: Limit)

  /** A frame handed to the browser of a connection, and the agent socket it came from. */
  datatype Delivery = Delivery(connectionId: string, ws: nat)

  /**
   `ever` and `owners` record the sessions registered and the connections
   opened so far (with their owner); `missed` is the sessions' ping counter.
   */
  datatype Hub = Hub(reg: A.Registry, missed: map<string, nat>, book: P.Book, tunnels: T.Tunnels,
                     tickets: multiset<Ticket>, ever: set<A.Session>, owners: map<string, string>,
                     delivered: seq<Delivery>)

  const START := Hub(A.EMPTY, map[], P.EMPTY, T.EMPTY, multiset{}, {}, map[], [])

  datatype Step =
    | Begin(ticket: Ticket)
    | Abandon(ticket: Ticket)
    | Commit(ticket: Ticket, agentId: string, replaced: Option<A.Session>)
    | Close(ws: nat)
    | Tick(dead: seq<A.Session>)
    | Pong(agentId: string)
    | Sweep(session: A.Session)
    | Request(event: P.Event)
    | OpenWs(conn: T.Conn)
    | Frame(ws: nat, connectionId: string)
    | CloseWs(ws: nat, connectionId: string)
    | DropWs(connectionId: string)

  function SessionOf(t: Ticket, agentId: string): A.Session {
    A.Session(agentId, t.accountId, t.keyId, t.name, t.ws, t.fingerprint)
  }

  /** The limit check: the replaced session, if one was found, does not count. */
  predicate Admits(h: Hub, t: Ticket, replaced: Option<A.Session>) {
    var count := |A.Account(h.reg, t.accountId)| - (if replaced.Some? then 1 else 0);
    t.limit.AtMost? ==> count < t.limit.n
  }

  predicate Silent(h: Hub, s: A.Session) {
    s.agentId in h.missed && h.missed[s.agentId] + 1 >= MAX_MISSED_PINGS
  }

  /** `dead` lists, each once, the live sessions that this tick finds to have missed too many pings. */
  ghost predicate ListsSilent(h: Hub, dead: seq<A.Session>) {
    && (forall s :: s in dead <==> A.Live(h.reg, s) && Silent(h, s))
    && (forall i, j :: 0 <= i < j < |dead| ==> dead[i] != dead[j])
  }

  ghost predicate Enabled(h: Hub, step: Step) {
    match step
    case Abandon(t) => t in h.tickets
    case Commit(t, id, replaced) =>
      && t in h.tickets && (forall s :: s in h.ever ==> s.agentId != id)
      && A.Finds(h.reg, t.accountId, t.name, replaced)
    case Tick(dead) => ListsSilent(h, dead)
    case Sweep(s) => s in h.ever
    case Request(e) => !e.AgentGone? && P.Enabled(h.book, e)
    case OpenWs(c) => c.agentId in h.reg.byAgentId && c.connectionId !in h.owners
    case _ => true
  }

  /** Drop whoever holds the label, and reject what was waiting for it. */
  ghost function EvictLabel(h: Hub, accountId: string, name: string): Hub
    requires P.WellFormed(h.book)
  {
    h.(reg := A.Evict(h.reg, accountId, name), book := P.Apply(h.book, P.AgentGone(accountId, name)))
  }

  ghost function EvictEach(h: Hub, dead: seq<A.Session>): Hub
    requires P.Inv(h.book)
    decreases |dead|
  {
    if dead == [] then h
    else
      P.InvApply(h.book, P.AgentGone(dead[0].accountId, dead[0].name));
      EvictEach(EvictLabel(h, dead[0].accountId, dead[0].name), dead[1..])
  }

  function Bump(h: Hub): Hub {
    h.(missed := map i | i in h.missed :: if i in h.reg.byAgentId then h.missed[i] + 1 else h.missed[i])
  }

  predicate Owns(h: Hub, ws: nat, connectionId: string) {
    && ws in h.reg.byWs && connectionId in h.tunnels.byConnection
    && h.tunnels.byConnection[connectionId].agentId == h.reg.byWs[ws].agentId
  }

  function CommitStep(h: Hub, t: Ticket, agentId: string, replaced: Option<A.Session>): Hub {
    var h1 := h.(tickets := h.tickets - multiset{t});
    var s := SessionOf(t, agentId);
    if !Admits(h, t, replaced) then h1
    else h1.(tunnels := if replaced.Some? then T.CloseAll(h.tunnels, replaced.value.agentId) else h.tunnels,
             reg := A.Register(h.reg, s), missed := h.missed[agentId := 0], ever := h.ever + {s})
  }

  ghost function Next(h: Hub, step: Step): Hub
    requires P.Inv(h.book) && Enabled(h, step)
  {
    match step
    case Begin(t) => h.(tickets := h.tickets + multiset{t})
    case Abandon(t) => h.(tickets := h.tickets - multiset{t})
    case Commit(t, id, replaced) => CommitStep(h, t, id, replaced)
    case Close(ws) =>
      if ws !in h.reg.byWs then h
      else
        var s := h.reg.byWs[ws];
        EvictLabel(h, s.accountId, s.name).(tunnels := T.CloseAll(h.tunnels, s.agentId))
    case Tick(dead) => EvictEach(Bump(h), dead)
    case Pong(id) => if id in h.reg.byAgentId then h.(missed := h.missed[id := 0]) else h
    case Sweep(s) => EvictLabel(h, s.accountId, s.name).(tunnels := T.CloseAll(h.tunnels, s.agentId))
    case Request(e) => h.(book := P.Apply(h.book, e))
    case OpenWs(c) =>
      h.(tunnels := T.Add(h.tunnels, c), owners := h.owners[c.connectionId := c.agentId])
    case Frame(ws, id) => if Owns(h, ws, id) then h.(delivered := h.delivered + [Delivery(id, ws)]) else h
    case CloseWs(ws, id) => if Owns(h, ws, id) then h.(tunnels := T.Delete(h.tunnels, id)) else h
    case DropWs(id) => h.(tunnels := T.Delete(h.tunnels, id))
  }

  // ---- The invariant ------------------------------------------------------

  /** Registrations: agent ids are never reused, and every live session was registered. */
  ghost predicate Recorded(h: Hub) {
    && (forall s :: A.Live(h.reg, s) ==> s in h.ever)
    && (forall s, t :: s in h.ever && t in h.ever && s.agentId == t.agentId ==> s == t)
    && (forall i :: i in h.reg.byAgentId ==> i in h.missed && h.missed[i] < MAX_MISSED_PINGS)
  }

  ghost predicate WasRegistered(h: Hub, agentId: string) {
    exists s :: s in h.ever && s.agentId == agentId
  }

  ghost predicate ConnsOwned(h: Hub) {
    && (forall id :: id in h.tunnels.byConnection ==>
          id in h.owners && h.owners[id] == h.tunnels.byConnection[id].agentId)
    && (forall id :: id in h.owners ==> WasRegistered(h, h.owners[id]))
  }

  /** A delivered frame came from the very socket that the connection's owner registered with. */
  ghost predicate CameFromOwner(h: Hub, d: Delivery) {
    d.connectionId in h.owners
    && exists s :: s in h.ever && s.agentId == h.owners[d.connectionId] && s.ws == d.ws
  }

  ghost predicate DeliveredOk(h: Hub) {
    forall i :: 0 <= i < |h.delivered| ==> CameFromOwner(h, h.delivered[i])
  }

  ghost predicate Inv(h: Hub) {
    && A.Sound(h.reg) && P.Inv(h.book) && T.Agree(h.tunnels)
    && Recorded(h) && ConnsOwned(h) && DeliveredOk(h)
  }

  lemma StartInv()
    ensures Inv(START)
  {
  }

  /** The invariant survives whenever the records only grow and the sessions only shrink. */
  lemma InvShrink(h: Hub, h': Hub)
    requires Inv(h) && A.Sound(h'.reg) && P.Inv(h'.book) && T.Agree(h'.tunnels)
    requires h'.ever == h.ever && h'.owners == h.owners && h'.delivered == h.delivered
    requires forall s :: A.Live(h'.reg, s) ==> A.Live(h.reg, s)
    requires forall i :: i in h'.reg.byAgentId ==> i in h'.missed && h'.missed[i] < MAX_MISSED_PINGS
    requires forall id :: id in h'.tunnels.byConnection ==>
               id in h.tunnels.byConnection && h'.tunnels.byConnection[id] == h.tunnels.byConnection[id]
    ensures Inv(h')
  {
    forall i | 0 <= i < |h'.delivered| ensures CameFromOwner(h', h'.delivered[i]) {
      assert CameFromOwner(h, h.delivered[i]);
    }
    forall id | id in h'.owners ensures WasRegistered(h', h'.owners[id]) {
      assert WasRegistered(h, h.owners[id]);
    }
  }

  lemma EvictedShrinks(h: Hub, accountId: string, name: string)
    requires A.Sound(h.reg) && P.Inv(h.book)
    ensures var h' := EvictLabel(h, accountId, name);
      && A.Sound(h'.reg) && P.Inv(h'.book)
      && (forall s :: A.Live(h'.reg, s) <==> A.Live(h.reg, s) && (s.accountId != accountId || s.name != name))
      && (forall i :: i in h'.reg.byAgentId ==> i in h.reg.byAgentId)
      && (forall w :: w in h'.reg.byWs ==> w in h.reg.byWs)
      && (forall a :: |A.Account(h'.reg, a)| <= |A.Account(h.reg, a)|)
  {
    forall a ensures |A.Account(EvictLabel(h, accountId, name).reg, a)| <= |A.Account(h.reg, a)| {}
    A.EvictKeepsSound(h.reg, accountId, name);
    P.InvApply(h.book, P.AgentGone(accountId, name));
    forall s ensures A.Live(EvictLabel(h, accountId, name).reg, s) <==>
                       A.Live(h.reg, s) && (s.accountId != accountId || s.name != name) {
      A.EvictLive(h.reg, accountId, name, s);
    }
  }

  /** `Close` and `Sweep` have the same shape: evict a label, close the connections of one agent. */
  lemma InvEvict(h: Hub, accountId: string, name: string, agentId: string)
    requires Inv(h)
    ensures Inv(EvictLabel(h, accountId, name).(tunnels := T.CloseAll(h.tunnels, agentId)))
  {
    EvictedShrinks(h, accountId, name);
    T.CloseAllKeepsAgree(h.tunnels, agentId);
    InvShrink(h, EvictLabel(h, accountId, name).(tunnels := T.CloseAll(h.tunnels, agentId)));
  }

  lemma {:induction false} EvictEachEffect(h: Hub, dead: seq<A.Session>)
    requires A.Sound(h.reg) && P.Inv(h.book)
    requires forall s :: s in dead ==> A.Live(h.reg, s)
    requires forall i, j :: 0 <= i < j < |dead| ==> dead[i] != dead[j]
    ensures var h' := EvictEach(h, dead);
      && A.Sound(h'.reg) && P.Inv(h'.book)
      && h' == h.(reg := h'.reg, book := h'.book)
      && (forall s :: A.Live(h'.reg, s) <==> A.Live(h.reg, s) && s !in dead)
      && (forall i :: i in h'.reg.byAgentId ==> i in h.reg.byAgentId)
      && (forall w :: w in h'.reg.byWs ==> w in h.reg.byWs)
      && (forall a :: |A.Account(h'.reg, a)| <= |A.Account(h.reg, a)|)
    decreases |dead|
  {
    if dead != [] {
      var d := dead[0];
      var mid := EvictLabel(h, d.accountId, d.name);
      EvictedShrinks(h, d.accountId, d.name);
      forall s | s in dead[1..] ensures A.Live(mid.reg, s) {
        assert A.Live(h.reg, s) && A.Live(h.reg, d) && s != d;
      }
      EvictEachEffect(mid, dead[1..]);
    }
  }

  lemma InvTick(h: Hub, dead: seq<A.Session>)
    requires Inv(h) && ListsSilent(h, dead)
    ensures Inv(EvictEach(Bump(h), dead))
    ensures forall s :: A.Live(EvictEach(Bump(h), dead).reg, s) <==> A.Live(h.reg, s) && !Silent(h, s)
  {
    EvictEachEffect(Bump(h), dead);
    var h' := EvictEach(Bump(h), dead);
    forall i | i in h'.reg.byAgentId ensures i in h'.missed && h'.missed[i] < MAX_MISSED_PINGS {
      var s := h'.reg.byAgentId[i];
      assert A.Live(h'.reg, s) && A.Live(h.reg, s) && !Silent(h, s);
    }
    InvShrink(h, h');
  }

  /** The records stay in order when one session with a new agent id is added. */
  lemma RecordsGrow(h: Hub, h': Hub, s: A.Session)
    requires Recorded(h) && ConnsOwned(h) && DeliveredOk(h)
    requires h'.ever == h.ever + {s} && (forall u :: u in h.ever ==> u.agentId != s.agentId)
    requires h'.owners == h.owners && h'.delivered == h.delivered
    requires forall u :: A.Live(h'.reg, u) ==> u == s || A.Live(h.reg, u)
    requires forall i :: i in h'.reg.byAgentId ==> i == s.agentId || i in h.reg.byAgentId
    requires h'.missed == h.missed[s.agentId := 0]
    requires forall id :: id in h'.tunnels.byConnection ==>
               id in h.tunnels.byConnection && h'.tunnels.byConnection[id] == h.tunnels.byConnection[id]
    ensures Recorded(h') && ConnsOwned(h') && DeliveredOk(h')
  {
    forall i | 0 <= i < |h'.delivered| ensures CameFromOwner(h', h'.delivered[i]) {
      assert CameFromOwner(h, h.delivered[i]);
    }
    forall id | id in h'.owners ensures WasRegistered(h', h'.owners[id]) {
      assert WasRegistered(h, h.owners[id]);
    }
  }

  lemma FreshAgentId(h: Hub, agentId: string)
    requires Inv(h) && forall s :: s in h.ever ==> s.agentId != agentId
    ensures agentId !in h.reg.byAgentId
  {
    assert forall i :: i in h.reg.byAgentId ==> A.Live(h.reg, h.reg.byAgentId[i]);
  }

  lemma InvCommit(h: Hub, t: Ticket, agentId: string, replaced: Option<A.Session>)
    requires Inv(h) && Enabled(h, Commit(t, agentId, replaced))
    ensures Inv(CommitStep(h, t, agentId, replaced))
  {
    var h' := CommitStep(h, t, agentId, replaced);
    if !Admits(h, t, replaced) {
      InvShrink(h, h');
    } else {
      var s := SessionOf(t, agentId);
      FreshAgentId(h, agentId);
      A.RegisterKeepsSound(h.reg, s);
      if replaced.Some? { T.CloseAllKeepsAgree(h.tunnels, replaced.value.agentId); }
      forall u | A.Live(h'.reg, u) ensures u == s || A.Live(h.reg, u) { A.RegisterLive(h.reg, s, u); }
      RecordsGrow(h, h', s);
    }
  }

  lemma InvOpenWs(h: Hub, c: T.Conn)
    requires Inv(h) && c.agentId in h.reg.byAgentId && c.connectionId !in h.owners
    ensures Inv(Next(h, OpenWs(c)))
  {
    var h' := Next(h, OpenWs(c));
    T.AddKeepsAgreeIff(h.tunnels, c);
    forall i | 0 <= i < |h'.delivered| ensures CameFromOwner(h', h'.delivered[i]) {
      assert CameFromOwner(h, h.delivered[i]);
    }
    forall id | id in h'.owners ensures WasRegistered(h', h'.owners[id]) {
      if id == c.connectionId {
        assert A.Live(h.reg, h.reg.byAgentId[c.agentId]);
      } else {
        assert WasRegistered(h, h.owners[id]);
      }
    }
  }

  lemma InvFrame(h: Hub, ws: nat, id: string)
    requires Inv(h)
    ensures Inv(Next(h, Frame(ws, id)))
  {
    var h' := Next(h, Frame(ws, id));
    forall i | 0 <= i < |h'.delivered| ensures CameFromOwner(h', h'.delivered[i]) {
      if i < |h.delivered| {
        assert CameFromOwner(h, h.delivered[i]);
      } else {
        assert A.Live(h.reg, h.reg.byWs[ws]);
      }
    }
    forall c | c in h'.owners ensures WasRegistered(h', h'.owners[c]) {
      assert WasRegistered(h, h.owners[c]);
    }
  }

  lemma InvClose(h: Hub, ws: nat)
    requires Inv(h)
    ensures Inv(Next(h, Close(ws)))
  {
    if ws in h.reg.byWs {
      var s := h.reg.byWs[ws];
      InvEvict(h, s.accountId, s.name, s.agentId);
      assert Next(h, Close(ws)) == EvictLabel(h, s.accountId, s.name).(tunnels := T.CloseAll(h.tunnels, s.agentId));
    } else {
      assert Next(h, Close(ws)) == h;
    }
  }

  lemma InvRequest(h: Hub, e: P.Event)
    requires Inv(h) && P.Enabled(h.book, e)
    ensures Inv(h.(book := P.Apply(h.book, e)))
  {
    P.InvApply(h.book, e);
    InvShrink(h, h.(book := P.Apply(h.book, e)));
  }

  lemma InvDelete(h: Hub, id: string)
    requires Inv(h)
    ensures Inv(h.(tunnels := T.Delete(h.tunnels, id)))
  {
    T.DeleteKeepsAgree(h.tunnels, id);
    InvShrink(h, h.(tunnels := T.Delete(h.tunnels, id)));
  }

  lemma InvPong(h: Hub, id: string)
    requires Inv(h)
    ensures Inv(h.(missed := h.missed[id := 0]))
  {
    InvShrink(h, h.(missed := h.missed[id := 0]));
  }

  lemma InvTickets(h: Hub, tickets: multiset<Ticket>)
    requires Inv(h)
    ensures Inv(h.(tickets := tickets))
  {
    InvShrink(h, h.(tickets := tickets));
  }

  lemma InvNext(h: Hub, step: Step)
    requires Inv(h) && Enabled(h, step)
    ensures Inv(Next(h, step))
  {
    match step
    case Begin(t) => InvTickets(h, h.tickets + multiset{t});
    case Abandon(t) => InvTickets(h, h.tickets - multiset{t});
    case Commit(t, id, replaced) => InvCommit(h, t, id, replaced);
    case Close(ws) => InvClose(h, ws);
    case Tick(dead) => InvTick(h, dead);
    case Pong(id) => InvPong(h, id);
    case Sweep(s) => InvEvict(h, s.accountId, s.name, s.agentId);
    case Request(e) => InvRequest(h, e);
    case OpenWs(c) => InvOpenWs(h, c);
    case Frame(ws, id) => InvFrame(h, ws, id);
    case CloseWs(_, id) => InvDelete(h, id);
    case DropWs(id) => InvDelete(h, id);
  }

  // ---- Runs ---------------------------------------------------------------

  ghost predicate Legal(h: Hub, steps: seq<Step>)
    decreases |steps|
  {
    steps == [] || (P.Inv(h.book) && Enabled(h, steps[0]) && Legal(Next(h, steps[0]), steps[1..]))
  }

  ghost function Exec(h: Hub, steps: seq<Step>): Hub
    requires Legal(h, steps)
    decreases |steps|
  {
    if steps == [] then h else Exec(Next(h, steps[0]), steps[1..])
  }

  lemma {:induction false} InvExec(h: Hub, steps: seq<Step>)
    requires Inv(h) && Legal(h, steps)
    ensures Inv(Exec(h, steps))
    decreases |steps|
  {
    if steps != [] {
      InvNext(h, steps[0]);
      InvExec(Next(h, steps[0]), steps[1..]);
    }
  }

  /** A run in two parts. */
  lemma {:induction false} Split(h: Hub, steps: seq<Step>, k: nat)
    requires Legal(h, steps) && k <= |steps|
    ensures Legal(h, steps[..k]) && Legal(Exec(h, steps[..k]), steps[k..])
    ensures Exec(Exec(h, steps[..k]), steps[k..]) == Exec(h, steps)
    decreases k
  {
    if k == 0 {
      assert steps[..0] == [] && steps[0..] == steps;
    } else {
      Split(Next(h, steps[0]), steps[1..], k - 1);
      assert steps[..k][0] == steps[0] && steps[..k][1..] == steps[1..][..k - 1] && steps[k..] == steps[1..][k - 1..];
    }
  }

  /** The step that follows the first `i` steps of a run. */
  lemma StepOf(h: Hub, steps: seq<Step>, i: nat)
    requires Inv(h) && Legal(h, steps) && i < |steps|
    ensures Legal(h, steps[..i]) && Legal(h, steps[..i + 1])
    ensures Inv(Exec(h, steps[..i])) && Enabled(Exec(h, steps[..i]), steps[i])
    ensures Exec(h, steps[..i + 1]) == Next(Exec(h, steps[..i]), steps[i])
  {
    Split(h, steps, i);
    Split(h, steps, i + 1);
    InvExec(h, steps[..i]);
    Split(h, steps[..i + 1], i);
    assert steps[..i + 1][..i] == steps[..i] && steps[..i + 1][i..] == [steps[i]];
    assert [steps[i]][1..] == [];
  }
}
