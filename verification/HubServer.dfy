/**
 The hub's handlers as code over the three registry objects. Each handler is
 one atomic step of the connection machine, and every step has its handler, so
 everything proved about runs of that machine holds for the objects.
 */
module HubServer {
  import opened Options
  import opened HubMachine
  import A = Agents
  import P = PendingRequests
  import T = TunnelSockets
  import B = Batching

  // ---- Messages from an agent, alone or in a batch ------------------------

  /** What the hub receives: one message, or an `agent:batch` of several. */
  datatype Wire = Single(msg: B.Msg) | Batched(messages: seq<B.Msg>)

  function StepFor(m: B.Msg): Step {
    match m
    case Response(id, _) => Request(P.Answer(id))
    case AgentError(id, code, _) => Request(P.Fail(id, code))
    case Pong(agentId, _) => HubMachine.Pong(agentId)
  }

  ghost function Handle(h: Hub, m: B.Msg): (h': Hub)
    requires P.Inv(h.book)
    ensures P.Inv(h'.book)
  {
    if StepFor(m).Request? then P.InvApply(h.book, StepFor(m).event); Next(h, StepFor(m))
    else Next(h, StepFor(m))
  }

  ghost function HandleAll(h: Hub, ms: seq<B.Msg>): (h': Hub)
    requires P.Inv(h.book)
    ensures P.Inv(h'.book)
  {
    if ms == [] then h else Handle(HandleAll(h, ms[..|ms| - 1]), ms[|ms| - 1])
  }

  /** The frame that the batcher builds for a group. */
  function WireOf(g: seq<B.Msg>): Wire
    requires g != []
  {
    if |g| == 1 then Single(g[0]) else Batched(g)
  }

  ghost function Receive(h: Hub, w: Wire): (h': Hub)
    requires P.Inv(h.book)
    ensures P.Inv(h'.book)
  {
    match w
    case Single(m) => Handle(h, m)
    case Batched(ms) => HandleAll(h, ms)
  }

  ghost function ReceiveAll(h: Hub, groups: seq<seq<B.Msg>>): (h': Hub)
    requires P.Inv(h.book) && B.AllFit(groups)
    ensures P.Inv(h'.book)
  {
    if groups == [] then h
    else
      assert B.FitsFrame(groups[|groups| - 1]);
      Receive(ReceiveAll(h, groups[..|groups| - 1]), WireOf(groups[|groups| - 1]))
  }

  lemma {:induction false} HandleAllConcat(h: Hub, a: seq<B.Msg>, b: seq<B.Msg>)
    requires P.Inv(h.book)
    ensures HandleAll(h, a + b) == HandleAll(HandleAll(h, a), b)
  {
    if b == [] {
      assert a + b == a;
    } else {
      assert (a + b)[..|a + b| - 1] == a + b[..|b| - 1];
      HandleAllConcat(h, a, b[..|b| - 1]);
    }
  }

  lemma {:induction false} FramesAreTransparent(h: Hub, groups: seq<seq<B.Msg>>)
    requires P.Inv(h.book) && B.AllFit(groups)
    ensures ReceiveAll(h, groups) == HandleAll(h, B.Flatten(groups))
  {
    if groups != [] {
      var last := groups[|groups| - 1];
      var before := groups[..|groups| - 1];
      assert B.FitsFrame(last);
      FramesAreTransparent(h, before);
      HandleAllConcat(h, B.Flatten(before), last);
      if |last| == 1 {
        assert last == [last[0]];
      }
    }
  }

  /**
   Batching is transparent: after the hub has received every frame a batcher
   run emitted and then, one by one, what is still buffered, its state is the
   one reached by receiving every added message in its own frame, in order.
   */
  lemma BatchingIsTransparent(h: Hub, es: seq<B.Event>)
    requires P.Inv(h.book)
    ensures B.AllFit(B.Run(es).groups)
    ensures HandleAll(ReceiveAll(h, B.Run(es).groups), B.Run(es).batch.buffer) == HandleAll(h, B.Added(es))
  {
    B.RunIsFifo(es);
    FramesAreTransparent(h, B.Run(es).groups);
    HandleAllConcat(h, B.Flatten(B.Run(es).groups), B.Run(es).batch.buffer);
  }

  lemma {:induction false} HandleAllKeepsInv(h: Hub, ms: seq<B.Msg>)
    requires Inv(h)
    ensures Inv(HandleAll(h, ms))
  {
    if ms != [] {
      HandleAllKeepsInv(h, ms[..|ms| - 1]);
      HandleKeepsInv(HandleAll(h, ms[..|ms| - 1]), ms[|ms| - 1]);
    }
  }

  lemma HandleKeepsInv(h: Hub, m: B.Msg)
    requires Inv(h)
    ensures Inv(Handle(h, m))
  {
    InvNext(h, StepFor(m));
  }

  // ---- Evicting from the end of the list ----------------------------------

  lemma {:induction false} EvictEachPush(h: Hub, dead: seq<A.Session>, s: A.Session)
    requires P.Inv(h.book)
    ensures P.Inv(EvictEach(h, dead).book)
    ensures EvictEach(h, dead + [s]) == EvictLabel(EvictEach(h, dead), s.accountId, s.name)
    decreases |dead|
  {
    if dead == [] {
      P.InvApply(h.book, P.AgentGone(s.accountId, s.name));
      assert [] + [s] == [s] && [s][1..] == [];
    } else {
      P.InvApply(h.book, P.AgentGone(dead[0].accountId, dead[0].name));
      assert (dead + [s])[1..] == dead[1..] + [s];
      EvictEachPush(EvictLabel(h, dead[0].accountId, dead[0].name), dead[1..], s);
    }
  }

  lemma CommitFacts(h: Hub, t: Ticket, agentId: string, replaced: Option<A.Session>)
    requires Inv(h) && Enabled(h, Commit(t, agentId, replaced))
    ensures Inv(Next(h, Commit(t, agentId, replaced))) && agentId !in h.reg.byAgentId
  {
    InvNext(h, Commit(t, agentId, replaced));
    FreshAgentId(h, agentId);
  }

  predicate Overdue(missed: map<string, nat>, s: A.Session) {
    s.agentId in missed && missed[s.agentId] >= MAX_MISSED_PINGS
  }

  /** Every session's counter of missed pings goes up by one. */
  function Charged(missed: map<string, nat>, sessions: seq<A.Session>): map<string, nat> {
    if sessions == [] then missed
    else
      var m, id := Charged(missed, sessions[..|sessions| - 1]), sessions[|sessions| - 1].agentId;
      m[id := (if id in m then m[id] else 0) + 1]
  }

  lemma {:induction false} ChargedAt(missed: map<string, nat>, sessions: seq<A.Session>, id: string)
    requires forall i, j :: 0 <= i < j < |sessions| ==> sessions[i].agentId != sessions[j].agentId
    ensures var found, m := exists i :: 0 <= i < |sessions| && sessions[i].agentId == id, Charged(missed, sessions);
      && (id in m <==> id in missed || found)
      && (id in m ==> m[id] == (if id in missed then missed[id] else 0) + if found then 1 else 0)
  {
    if sessions != [] {
      var n := |sessions| - 1;
      ChargedAt(missed, sessions[..n], id);
      assert forall i :: 0 <= i < n ==> sessions[..n][i] == sessions[i];
    }
  }

  lemma ChargedIsBump(h: Hub, sessions: seq<A.Session>)
    requires A.IdsAgree(h.reg) && (forall i :: i in h.reg.byAgentId ==> i in h.missed)
    requires forall s :: s in sessions <==> A.Live(h.reg, s)
    requires forall i, j :: 0 <= i < j < |sessions| ==> sessions[i].agentId != sessions[j].agentId
    ensures Charged(h.missed, sessions) == Bump(h).missed
  {
    var charged, bumped := Charged(h.missed, sessions), Bump(h).missed;
    forall id ensures id in charged <==> id in bumped { ChargedOnce(h, sessions, id); }
    forall id | id in bumped ensures charged[id] == bumped[id] { ChargedOnce(h, sessions, id); }
  }

  lemma ChargedOnce(h: Hub, sessions: seq<A.Session>, id: string)
    requires A.IdsAgree(h.reg) && (id in h.reg.byAgentId ==> id in h.missed)
    requires forall s :: s in sessions <==> A.Live(h.reg, s)
    requires forall i, j :: 0 <= i < j < |sessions| ==> sessions[i].agentId != sessions[j].agentId
    ensures id in Charged(h.missed, sessions) <==> id in Bump(h).missed
    ensures id in Bump(h).missed ==>
              id in Charged(h.missed, sessions) && Charged(h.missed, sessions)[id] == Bump(h).missed[id]
  {
    ChargedAt(h.missed, sessions, id);
    LiveIds(h, sessions, id);
  }

  lemma LiveIds(h: Hub, sessions: seq<A.Session>, id: string)
    requires A.IdsAgree(h.reg) && forall s :: s in sessions <==> A.Live(h.reg, s)
    ensures id in h.reg.byAgentId <==> exists i :: 0 <= i < |sessions| && sessions[i].agentId == id
  {
    if id in h.reg.byAgentId {
      assert h.reg.byAgentId[id] in sessions;
    }
    forall i | 0 <= i < |sessions| ensures sessions[i].agentId in h.reg.byAgentId {
      assert sessions[i] in sessions;
    }
  }

  function AllOverdue(missed: map<string, nat>, sessions: seq<A.Session>): seq<A.Session> {
    if sessions == [] then []
    else
      var n := |sessions| - 1;
      AllOverdue(missed, sessions[..n]) + if Overdue(missed, sessions[n]) then [sessions[n]] else []
  }

  lemma {:induction false} AllOverdueLists(missed: map<string, nat>, sessions: seq<A.Session>)
    requires forall i, j :: 0 <= i < j < |sessions| ==> sessions[i] != sessions[j]
    ensures var dead := AllOverdue(missed, sessions);
      && (forall s :: s in dead <==> s in sessions && Overdue(missed, s))
      && (forall i, j :: 0 <= i < j < |dead| ==> dead[i] != dead[j])
  {
    if sessions != [] {
      var n := |sessions| - 1;
      AllOverdueLists(missed, sessions[..n]);
      assert sessions == sessions[..n] + [sessions[n]];
    }
  }

  /** After every session was charged a miss, the overdue ones are those the tick is to evict. */
  lemma OverdueIsSilent(h: Hub, sessions: seq<A.Session>)
    requires A.IdsAgree(h.reg) && (forall s :: s in sessions <==> A.Live(h.reg, s))
    requires forall i, j :: 0 <= i < j < |sessions| ==> sessions[i].agentId != sessions[j].agentId
    ensures ListsSilent(h, AllOverdue(Bump(h).missed, sessions))
  {
    AllOverdueLists(Bump(h).missed, sessions);
  }

  // ---- The object ---------------------------------------------------------

  class HubService {
    const agents: A.AgentRegistry
    const pending: P.PendingRegistry
    const sockets: T.TunnelWsRegistry
    var missed: map<string, nat>
    ghost var tickets: multiset<Ticket>
    ghost var ever: set<A.Session>
    ghost var owners: map<string, string>
    ghost var delivered: seq<Delivery>

    ghost function View(): Hub
      reads this, agents, pending, sockets
    {
      Hub(agents.View(), missed, pending.View(), sockets.View(), tickets, ever, owners, delivered)
    }

    ghost predicate Valid()
      reads this, agents, pending, sockets
    {
      Inv(View())
    }

    constructor ()
      ensures Valid() && View() == START && fresh(agents) && fresh(pending) && fresh(sockets)
    {
      agents := new A.AgentRegistry();
      pending := new P.PendingRegistry();
      sockets := new T.TunnelWsRegistry();
      missed, tickets, ever, owners, delivered := map[], multiset{}, {}, map[], [];
      new;
      StartInv();
    }

    /** The admitted half of a registration: close the replaced agent's connections, then register. */
    method Install(t: Ticket, agentId: string, found: Option<A.Session>)
      requires agents.Valid() && sockets.Valid() && agentId !in agents.byAgentId
      modifies this, agents, sockets
      ensures agents.View() == A.Register(old(agents.View()), SessionOf(t, agentId))
      ensures sockets.View() ==
                if found.Some? then T.CloseAll(old(sockets.View()), found.value.agentId) else old(sockets.View())
      ensures missed == old(missed)[agentId := 0] && ever == old(ever) + {SessionOf(t, agentId)}
      ensures tickets == old(tickets) && owners == old(owners) && delivered == old(delivered)
    {
      if found.Some? {
        var closed := sockets.CloseAllForAgent(found.value.agentId);
      }
      agents.Add(SessionOf(t, agentId));
      missed := missed[agentId := 0];
      ever := ever + {SessionOf(t, agentId)};
    }

    /** `handleAgentRegister` up to its first await; the plan limit is read on the way. */
    method BeginRegistration(t: Ticket)
      requires Valid()
      modifies this
      ensures Valid() && View() == Next(old(View()), Begin(t))
    {
      InvTickets(View(), tickets + multiset{t});
      tickets := tickets + multiset{t};
    }

    /** A registration that fails while it waits. */
    method AbandonRegistration(t: Ticket)
      requires Valid() && t in tickets
      modifies this
      ensures Valid() && View() == Next(old(View()), Abandon(t))
    {
      InvTickets(View(), tickets - multiset{t});
      tickets := tickets - multiset{t};
    }

    /** `handleWebSocket`: a browser connection is relayed to a registered agent. */
    method OpenTunnel(c: T.Conn)
      requires Valid() && Enabled(View(), OpenWs(c))
      modifies this, sockets
      ensures Valid() && View() == Next(old(View()), OpenWs(c))
    {
      InvNext(View(), OpenWs(c));
      assert c.connectionId !in sockets.byConnection;
      Relay(c);
    }

    method Relay(c: T.Conn)
      requires sockets.Valid() && c.connectionId !in sockets.byConnection
      modifies this`owners, sockets
      ensures sockets.View() == T.Add(old(sockets.View()), c) && owners == old(owners)[c.connectionId := c.agentId]
    {
      sockets.Open(c);
      owners := owners[c.connectionId := c.agentId];
    }

    /** `ownedEntry`: the connection, if it belongs to the agent bound to this socket. */
    method OwnedEntry(ws: nat, connectionId: string) returns (yes: bool)
      ensures yes == Owns(View(), ws, connectionId)
    {
      yes := ws in agents.byWs && connectionId in sockets.byConnection
             && sockets.byConnection[connectionId].agentId == agents.byWs[ws].agentId;
    }

    method SendIfOwned(ws: nat, connectionId: string) returns (sent: bool)
      requires pending.Valid()
      modifies this`delivered
      ensures View() == Next(old(View()), Frame(ws, connectionId))
      ensures sent == Owns(old(View()), ws, connectionId)
    {
      sent := OwnedEntry(ws, connectionId);
      if sent { delivered := delivered + [Delivery(connectionId, ws)]; }
    }

    method CloseIfOwned(ws: nat, connectionId: string)
      requires pending.Valid() && sockets.Valid()
      modifies sockets
      ensures View() == Next(old(View()), CloseWs(ws, connectionId))
    {
      var owned := OwnedEntry(ws, connectionId);
      if owned { var closed := sockets.Teardown(connectionId); }
    }

    /** `handleAgentWsMessage`: a frame is passed on to the browser only from the owner, and only while its socket is open. */
    method RelayFrame(ws: nat, connectionId: string, browserOpen: bool) returns (sent: bool)
      requires Valid()
      modifies this`delivered
      ensures Valid()
      ensures View() == if browserOpen then Next(old(View()), Frame(ws, connectionId)) else old(View())
      ensures sent == (browserOpen && Owns(old(View()), ws, connectionId))
    {
      if !browserOpen { return false; }
      InvNext(View(), Frame(ws, connectionId));
      sent := SendIfOwned(ws, connectionId);
    }

    /** `handleAgentWsClose`: only the owner can close a connection. */
    method CloseByAgent(ws: nat, connectionId: string)
      requires Valid()
      modifies sockets
      ensures Valid() && View() == Next(old(View()), CloseWs(ws, connectionId))
    {
      InvNext(View(), CloseWs(ws, connectionId));
      CloseIfOwned(ws, connectionId);
    }

    /** The browser's side of a connection closes. */
    method CloseByBrowser(connectionId: string)
      requires Valid()
      modifies sockets
      ensures Valid() && View() == Next(old(View()), DropWs(connectionId))
    {
      InvDelete(View(), connectionId);
      var closed := sockets.Teardown(connectionId);
    }

    /** A tunneled request is entered before it is forwarded. */
    method EnqueueRequest(request: P.Request)
      requires Valid() && pending.now <= request.deadline
      modifies pending
      ensures Valid() && View() == Next(old(View()), Request(P.Enter(request)))
    {
      InvRequest(View(), P.Enter(request));
      var u := pending.Add(request);
    }

    method TimeOutRequest(u: nat)
      requires Valid() && P.Enabled(pending.View(), P.Fire(u))
      modifies pending
      ensures Valid() && View() == Next(old(View()), Request(P.Fire(u)))
    {
      InvRequest(View(), P.Fire(u));
      pending.Expire(u);
    }

    method PassTime(until: nat)
      requires Valid() && P.Enabled(pending.View(), P.Wait(until))
      modifies pending
      ensures Valid() && View() == Next(old(View()), Request(P.Wait(until)))
    {
      InvRequest(View(), P.Wait(until));
      pending.PassTime(until);
    }

    /** `handleAgentRegister` from the lookup of the replaced session to `register`: no await in between. */
    method CommitRegistration(t: Ticket, agentId: string) returns (admitted: bool, ghost replaced: Option<A.Session>)
      requires Valid() && t in tickets && forall s :: s in ever ==> s.agentId != agentId
      modifies this, agents, sockets
      ensures Enabled(old(View()), Commit(t, agentId, replaced))
      ensures Valid() && View() == Next(old(View()), Commit(t, agentId, replaced))
      ensures admitted == Admits(old(View()), t, replaced)
    {
      var found := agents.Find(t.accountId, t.name);
      replaced := found;
      CommitFacts(View(), t, agentId, replaced);
      admitted := HasRoom(t, found);
      tickets := tickets - multiset{t};
      if admitted { Install(t, agentId, found); }
    }

    /** The agent limit, not counting the session about to be replaced. */
    method HasRoom(t: Ticket, found: Option<A.Session>) returns (yes: bool)
      ensures yes == Admits(View(), t, found)
    {
      var held := 0;
      if t.accountId in agents.accounts { held := |agents.accounts[t.accountId]|; }
      var count := held - if found.Some? then 1 else 0;
      yes := t.limit.Unlimited? || count < t.limit.n;
    }

    /** Drop the label, reject what waits for it, and close the agent's connections. */
    method DropSession(session: A.Session)
      requires agents.Valid() && pending.Valid() && sockets.Valid()
      modifies agents, pending, sockets
      ensures agents.View() == A.Evict(old(agents.View()), session.accountId, session.name)
      ensures pending.View() == P.Apply(old(pending.View()), P.AgentGone(session.accountId, session.name))
      ensures sockets.View() == T.CloseAll(old(sockets.View()), session.agentId)
    {
      var evicted := agents.Remove(session.accountId, session.name);
      var rejected := pending.RejectAllForAgent(session.accountId, session.name);
      var closed := sockets.CloseAllForAgent(session.agentId);
    }

    /** `onAgentClose`, up to its first await. */
    method OnAgentClose(ws: nat)
      requires Valid()
      modifies this, agents, pending, sockets
      ensures Valid() && View() == Next(old(View()), Close(ws))
    {
      InvNext(View(), Close(ws));
      if ws !in agents.byWs { return; }
      DropSession(agents.byWs[ws]);
    }

    /** The sweep's `evict` for one session of its snapshot. */
    method SweepEvict(session: A.Session)
      requires Valid() && session in ever
      modifies this, agents, pending, sockets
      ensures Valid() && View() == Next(old(View()), Sweep(session))
    {
      InvNext(View(), Sweep(session));
      DropSession(session);
    }

    method HandlePong(agentId: string)
      requires Valid()
      modifies this`missed
      ensures Valid() && View() == Next(old(View()), HubMachine.Pong(agentId))
    {
      InvNext(View(), HubMachine.Pong(agentId));
      ResetMissed(agentId);
    }

    method ResetMissed(agentId: string)
      requires pending.Valid()
      modifies this`missed
      ensures View() == Next(old(View()), HubMachine.Pong(agentId))
    {
      if agentId in agents.byAgentId { missed := missed[agentId := 0]; }
    }

    method HandleItem(m: B.Msg)
      requires P.Inv(pending.View())
      modifies this`missed, pending
      ensures View() == Handle(old(View()), m)
    {
      match m {
        case Response(id, _) => var known := pending.Finish(id, P.Resolved);
        case AgentError(id, code, _) => var known := pending.Finish(id, P.Rejected(code));
        case Pong(agentId, _) => ResetMissed(agentId);
      }
    }

    /** `handleAgentBatch`: the items are handled one after the other. */
    method HandleBatch(messages: seq<B.Msg>)
      requires Valid()
      modifies this`missed, pending
      ensures Valid() && View() == Receive(old(View()), Batched(messages))
    {
      ghost var h := View();
      for i := 0 to |messages|
        invariant View() == HandleAll(h, messages[..i])
      {
        HandleItem(messages[i]);
        assert messages[..i + 1][..i] == messages[..i];
      }
      assert messages[..|messages|] == messages;
      HandleAllKeepsInv(h, messages);
    }

    /** First loop of the heartbeat tick: every session is pinged and charged one miss. */
    method ChargeMisses(sessions: seq<A.Session>)
      requires A.IdsAgree(agents.View()) && forall i :: i in agents.byAgentId ==> i in missed
      requires forall s :: s in sessions <==> A.Live(agents.View(), s)
      requires forall i, j :: 0 <= i < j < |sessions| ==> sessions[i].agentId != sessions[j].agentId
      modifies this`missed
      ensures View() == Bump(old(View()))
    {
      for i := 0 to |sessions|
        invariant missed == Charged(old(missed), sessions[..i])
      {
        var id := sessions[i].agentId;
        missed := missed[id := (if id in missed then missed[id] else 0) + 1];
        assert sessions[..i + 1][..i] == sessions[..i];
      }
      assert sessions[..|sessions|] == sessions;
      ChargedIsBump(old(View()), sessions);
    }

    /** The heartbeat's own `evict`: no relayed connection is closed. */
    method EvictSession(s: A.Session)
      requires agents.Valid() && pending.Valid()
      modifies agents, pending
      ensures agents.Valid() && pending.Valid() && View() == EvictLabel(old(View()), s.accountId, s.name)
    {
      var evicted := agents.Remove(s.accountId, s.name);
      var rejected := pending.RejectAllForAgent(s.accountId, s.name);
    }

    /** One turn of the second loop: a session that has missed too many pings is evicted. */
    method EvictIfOverdue(s: A.Session, dead: seq<A.Session>, ghost h: Hub) returns (dead': seq<A.Session>)
      requires agents.Valid() && pending.Valid() && P.Inv(h.book) && View() == EvictEach(h, dead)
      modifies agents, pending
      ensures agents.Valid() && pending.Valid() && View() == EvictEach(h, dead')
      ensures dead' == if Overdue(missed, s) then dead + [s] else dead
    {
      dead' := dead;
      if s.agentId in missed && missed[s.agentId] >= MAX_MISSED_PINGS {
        EvictEachPush(h, dead, s);
        EvictSession(s);
        dead' := dead + [s];
      }
    }

    /** Second loop of the heartbeat tick: evict the sessions that have missed too many pings. */
    method EvictSilent(sessions: seq<A.Session>) returns (dead: seq<A.Session>)
      requires agents.Valid() && pending.Valid()
      modifies agents, pending
      ensures View() == EvictEach(old(View()), dead) && dead == AllOverdue(missed, sessions)
    {
      dead := [];
      ghost var h := View();
      for i := 0 to |sessions|
        invariant agents.Valid() && pending.Valid() && View() == EvictEach(h, dead)
        invariant dead == AllOverdue(missed, sessions[..i])
      {
        dead := EvictIfOverdue(sessions[i], dead, h);
        assert sessions[..i + 1][..i] == sessions[..i];
      }
      assert sessions[..|sessions|] == sessions;
    }

    /** The heartbeat tick. */
    method HeartbeatTick() returns (dead: seq<A.Session>)
      requires Valid()
      modifies this, agents, pending
      ensures Enabled(old(View()), Tick(dead))
      ensures Valid() && View() == Next(old(View()), Tick(dead))
    {
      ghost var h := View();
      var sessions := agents.AllSessions();
      ChargeMisses(sessions);
      dead := EvictSilent(sessions);
      OverdueIsSilent(h, sessions);
      InvNext(h, Tick(dead));
    }
  }
}
