/**
 Runs of the hub, from its start, in which the conditions of the exact
 statements about it fail. Accounts, labels, sockets and ids are arbitrary.
 */
module HubRuns {
  import opened Options
  import opened HubMachine
  import opened HubProperties
  import opened Ownership
  import A = Agents
  import P = PendingRequests
  import T = TunnelSockets

  // ---- Building runs ------------------------------------------------------

  lemma {:induction false} Extend(h: Hub, steps: seq<Step>, step: Step)
    requires Legal(h, steps) && P.Inv(Exec(h, steps).book) && Enabled(Exec(h, steps), step)
    ensures Legal(h, steps + [step]) && Exec(h, steps + [step]) == Next(Exec(h, steps), step)
    decreases |steps|
  {
    var all := steps + [step];
    if steps == [] {
      assert all[1..] == [];
    } else {
      assert all[0] == steps[0] && all[1..] == steps[1..] + [step];
      Extend(Next(h, steps[0]), steps[1..], step);
    }
  }

  ghost predicate Reaches(steps: seq<Step>, h: Hub) { Legal(START, steps) && Exec(START, steps) == h }

  lemma ThenStep(steps: seq<Step>, h: Hub, step: Step)
    requires Reaches(steps, h) && P.Inv(h.book) && Enabled(h, step)
    ensures Reaches(steps + [step], Next(h, step)) && P.Inv(Next(h, step).book)
  {
    StartInv();
    InvExec(START, steps);
    InvNext(h, step);
    Extend(START, steps, step);
  }

  /** The hub after an admitted registration. */
  ghost function Joined(h: Hub, t: Ticket, id: string, replaced: Option<A.Session>): Hub {
    var s := SessionOf(t, id);
    h.(reg := A.Register(h.reg, s), missed := h.missed[id := 0], ever := h.ever + {s},
       tunnels := if replaced.Some? then T.CloseAll(h.tunnels, replaced.value.agentId) else h.tunnels)
  }

  /** A registration from its first await to its commit, with nothing in between. */
  lemma ThenRegister(steps: seq<Step>, h: Hub, t: Ticket, id: string, replaced: Option<A.Session>)
    requires Reaches(steps, h) && P.Inv(h.book) && (forall s :: s in h.ever ==> s.agentId != id)
    requires A.Finds(h.reg, t.accountId, t.name, replaced) && Admits(h, t, replaced)
    ensures Reaches(steps + [Begin(t)] + [Commit(t, id, replaced)], Joined(h, t, id, replaced))
    ensures P.Inv(Joined(h, t, id, replaced).book)
  {
    ThenStep(steps, h, Begin(t));
    var h1 := Next(h, Begin(t));
    ThenStep(steps + [Begin(t)], h1, Commit(t, id, replaced));
    assert h.tickets + multiset{t} - multiset{t} == h.tickets;
  }

  // ---- One agent ----------------------------------------------------------

  function OnlyReg(s: A.Session): A.Registry {
    A.Registry(map[s.accountId := map[s.name := s]], map[s.agentId := s], map[s.ws := s])
  }

  /** `s` is the only agent registered, and no connection was ever opened. */
  ghost predicate Only(h: Hub, s: A.Session) {
    && P.Inv(h.book) && s in h.ever && h.reg == OnlyReg(s) && h.tunnels == T.EMPTY && h.owners == map[]
    && s.agentId in h.missed && h.missed[s.agentId] == 0
  }

  lemma FirstAgent(t: Ticket, id: string) returns (steps: seq<Step>, h: Hub)
    requires t.limit.AtMost? ==> t.limit.n > 0
    ensures Reaches(steps, h) && Only(h, SessionOf(t, id)) && h.ever == {SessionOf(t, id)}
    ensures steps == [] + [Begin(t)] + [Commit(t, id, None)]
  {
    StartInv();
    steps, h := [] + [Begin(t)] + [Commit(t, id, None)], Joined(START, t, id, None);
    ThenRegister([], START, t, id, None);
  }

  /** With one agent, a lookup of its label, or of the empty one, finds it. */
  lemma OnlyIsFound(s: A.Session, name: string)
    ensures A.Account(OnlyReg(s), s.accountId) == map[s.name := s]
    ensures name == "" || name == s.name ==> A.Finds(OnlyReg(s), s.accountId, name, Some(s))
    ensures name != "" && name != s.name ==> A.Finds(OnlyReg(s), s.accountId, name, None)
  {
    assert s.name in map[s.name := s];
  }

  /** An empty label exceeds the limit: one agent allowed, two registered. */
  lemma OverflowRun(t: Ticket, u: Ticket, id: string, id': string) returns (steps: seq<Step>)
    requires t.limit == u.limit == AtMost(1) && t.accountId == u.accountId && t.name != "" && u.name == "" && id != id'
    ensures Legal(START, steps) && Held(Exec(START, steps), t.accountId) == 2
    ensures forall i :: 0 <= i < |steps| && steps[i].Commit? ==> steps[i].ticket.limit == AtMost(1)
  {
    var s := SessionOf(t, id);
    var first, h := FirstAgent(t, id);
    OnlyIsFound(s, "");
    ThenRegister(first, h, u, id', Some(s));
    steps := first + [Begin(u)] + [Commit(u, id', Some(s))];
    A.CountAfterRegister(h.reg, SessionOf(u, id'), t.accountId);
    TwoCommits(steps, t, u, id, id', s);
  }

  lemma TwoCommits(steps: seq<Step>, t: Ticket, u: Ticket, id: string, id': string, s: A.Session)
    requires steps == [] + [Begin(t)] + [Commit(t, id, None)] + [Begin(u)] + [Commit(u, id', Some(s))]
    ensures forall i :: 0 <= i < |steps| && steps[i].Commit? ==> steps[i].ticket in {t, u}
  {
  }

  /** A plan downgrade: two agents, then a limit of one; registering a held label again is refused. */
  lemma DowngradeRun(t: Ticket, u: Ticket, id: string, id': string) returns (steps: seq<Step>, h: Hub)
    requires t.limit == u.limit == AtMost(2) && t.accountId == u.accountId && id != id'
    requires t.name != u.name && t.name != "" && u.name != ""
    ensures Reaches(steps, h) && A.Held(h.reg, t.accountId, t.name)
    ensures forall w: Ticket, replaced | w.accountId == t.accountId && w.name == t.name && w.limit == AtMost(1)
                && A.Finds(h.reg, w.accountId, w.name, replaced) :: !Admits(h, w, replaced)
  {
    var first, h1 := FirstAgent(t, id);
    OnlyIsFound(SessionOf(t, id), u.name);
    ThenRegister(first, h1, u, id', None);
    steps, h := first + [Begin(u)] + [Commit(u, id', None)], Joined(h1, u, id', None);
    A.CountAfterRegister(h1.reg, SessionOf(u, id'), t.accountId);
  }

  /** A socket that takes a second label and then closes: its first session stays registered. */
  lemma SecondLabelRun(t: Ticket, u: Ticket, id: string, id': string) returns (steps: seq<Step>, h: Hub)
    requires t.limit == u.limit == AtMost(2) && t.accountId == u.accountId && t.ws == u.ws && id != id'
    requires t.name != u.name && t.name != "" && u.name != ""
    ensures Reaches(steps, h) && A.Live(h.reg, SessionOf(t, id)) && t.ws !in h.reg.byWs
  {
    var s, s' := SessionOf(t, id), SessionOf(u, id');
    var first, h1 := FirstAgent(t, id);
    OnlyIsFound(s, u.name);
    ThenRegister(first, h1, u, id', None);
    var second, h2 := first + [Begin(u)] + [Commit(u, id', None)], Joined(h1, u, id', None);
    ThenStep(second, h2, Close(t.ws));
    steps, h := second + [Close(t.ws)], Next(h2, Close(t.ws));
    A.RegisterLive(h1.reg, s', s);
    A.EvictLive(h2.reg, u.accountId, u.name, s);
  }

  // ---- Connections --------------------------------------------------------

  function OnlyConn(c: T.Conn): T.Tunnels {
    T.Tunnels(map[c.connectionId := c], map[c.agentId := {c.connectionId}])
  }

  /** A registered agent opens the first connection. */
  lemma ThenOpen(steps: seq<Step>, h: Hub, c: T.Conn) returns (h': Hub)
    requires Reaches(steps, h) && P.Inv(h.book) && c.agentId in h.reg.byAgentId
    requires h.tunnels == T.EMPTY && h.owners == map[]
    ensures Reaches(steps + [OpenWs(c)], h') && P.Inv(h'.book)
    ensures h'.reg == h.reg && h'.ever == h.ever && h'.missed == h.missed && h'.tunnels == OnlyConn(c)
  {
    ThenStep(steps, h, OpenWs(c));
    h' := Next(h, OpenWs(c));
    assert h'.tunnels.byConnection == map[c.connectionId := c];
    assert T.Of(T.EMPTY, c.agentId) + {c.connectionId} == {c.connectionId};
  }

  /** An empty label closes the connection of an agent that stays registered under its own label. */
  lemma ForeignCloseRun(t: Ticket, u: Ticket, id: string, id': string, c: T.Conn) returns (steps: seq<Step>, h: Hub)
    requires t.limit == u.limit == AtMost(1) && t.accountId == u.accountId && t.name != "" && u.name == "" && id != id'
    requires c.agentId == id
    ensures Reaches(steps, h) && c.connectionId in h.tunnels.byConnection
    ensures Reaches(steps + [Begin(u)] + [Commit(u, id', Some(SessionOf(t, id)))], Joined(h, u, id', Some(SessionOf(t, id))))
    ensures var h' := Joined(h, u, id', Some(SessionOf(t, id)));
      c.connectionId !in h'.tunnels.byConnection && A.Live(h'.reg, SessionOf(t, id))
  {
    var s := SessionOf(t, id);
    var first, h0 := FirstAgent(t, id);
    h := ThenOpen(first, h0, c);
    steps := first + [OpenWs(c)];
    OnlyIsFound(s, "");
    ThenRegister(steps, h, u, id', Some(s));
    A.RegisterLive(h.reg, SessionOf(u, id'), s);
  }

  /** A reconnect under the only label in use. */
  lemma Successor(t: Ticket, u: Ticket, id: string, id': string) returns (steps: seq<Step>, h: Hub)
    requires t.limit == u.limit == AtMost(1) && t.accountId == u.accountId && t.name == u.name != "" && id != id'
    ensures Reaches(steps, h) && Only(h, SessionOf(u, id')) && SessionOf(t, id) in h.ever
  {
    var s, s' := SessionOf(t, id), SessionOf(u, id');
    var first, h0 := FirstAgent(t, id);
    OnlyIsFound(s, u.name);
    ThenRegister(first, h0, u, id', Some(s));
    steps, h := first + [Begin(u)] + [Commit(u, id', Some(s))], Joined(h0, u, id', Some(s));
    ReplaceOnly(s, s');
  }

  lemma ReplaceOnly(s: A.Session, s': A.Session)
    requires s.accountId == s'.accountId && s.name == s'.name
    ensures A.Register(OnlyReg(s), s') == OnlyReg(s') && T.CloseAll(T.EMPTY, s.agentId) == T.EMPTY
  {
    var r := A.Register(OnlyReg(s), s');
    OnlyIsFound(s, s.name);
    assert map[s.name := s][s.name := s'] == map[s.name := s'];
    assert r.accounts == OnlyReg(s').accounts;
    assert r.byAgentId == OnlyReg(s').byAgentId && r.byWs == OnlyReg(s').byWs;
  }

  /** The stale sweep: the successor under the label is dropped, and its connection stays. */
  lemma StaleSweepRun(t: Ticket, u: Ticket, id: string, id': string, c: T.Conn) returns (steps: seq<Step>, h: Hub)
    requires t.limit == u.limit == AtMost(1) && t.accountId == u.accountId && t.name == u.name != "" && id != id'
    requires c.agentId == id'
    ensures P.Inv(h.book) && Enabled(h, Sweep(SessionOf(t, id))) && Reaches(steps, h)
    ensures Reaches(steps + [Sweep(SessionOf(t, id))], Next(h, Sweep(SessionOf(t, id))))
    ensures A.Live(h.reg, SessionOf(u, id'))
    ensures var h' := Next(h, Sweep(SessionOf(t, id)));
      id' !in h'.reg.byAgentId && c.connectionId in h'.tunnels.byConnection
  {
    var first, h0 := Successor(t, u, id, id');
    h := ThenOpen(first, h0, c);
    steps := first + [OpenWs(c)];
    ThenStep(steps, h, Sweep(SessionOf(t, id)));
  }

  /**
   An empty label taken over: `t` holds a label of its own, `u` the empty one
   and a connection. When `w` registers with an empty label, `t` is found and
   `u` is dropped, and the connection of `u` stays.
   */
  lemma OrphanRun(t: Ticket, u: Ticket, w: Ticket, ids: seq<string>, c: T.Conn) returns (steps: seq<Step>, h: Hub)
    requires t.limit == u.limit == w.limit == AtMost(2) && t.accountId == u.accountId == w.accountId
    requires t.name != "" && u.name == w.name == ""
    requires |ids| == 3 && ids[0] != ids[1] && ids[0] != ids[2] && ids[1] != ids[2] && c.agentId == ids[1]
    ensures Reaches(steps, h) && A.Live(h.reg, SessionOf(u, ids[1]))
    ensures Reaches(steps + [Begin(w)] + [Commit(w, ids[2], Some(SessionOf(t, ids[0])))],
                    Joined(h, w, ids[2], Some(SessionOf(t, ids[0]))))
    ensures var h' := Joined(h, w, ids[2], Some(SessionOf(t, ids[0])));
      ids[1] !in h'.reg.byAgentId && c.connectionId in h'.tunnels.byConnection
  {
    var s := SessionOf(t, ids[0]);
    var second, h1 := TwoAgents(t, u, ids[0], ids[1]);
    h := ThenOpen(second, h1, c);
    steps := second + [OpenWs(c)];
    assert t.name in A.Account(h.reg, t.accountId);
    ThenRegister(steps, h, w, ids[2], Some(s));
  }

  /** An agent with a label and one with the empty label. */
  lemma TwoAgents(t: Ticket, u: Ticket, id: string, id': string) returns (steps: seq<Step>, h: Hub)
    requires t.limit == u.limit == AtMost(2) && t.accountId == u.accountId && t.name != "" && u.name == "" && id != id'
    ensures Reaches(steps, h) && P.Inv(h.book) && h.tunnels == T.EMPTY && h.owners == map[]
    ensures h.ever == {SessionOf(t, id), SessionOf(u, id')}
    ensures A.Account(h.reg, t.accountId) == map[t.name := SessionOf(t, id), "" := SessionOf(u, id')]
    ensures id' in h.reg.byAgentId && t.accountId in h.reg.accounts
  {
    var s := SessionOf(t, id);
    var first, h0 := FirstAgent(t, id);
    OnlyIsFound(s, "");
    ThenRegister(first, h0, u, id', Some(s));
    steps, h := first + [Begin(u)] + [Commit(u, id', Some(s))], Joined(h0, u, id', Some(s));
    assert h.tunnels == T.EMPTY;
  }

  // ---- Heartbeat ----------------------------------------------------------

  /** The only agent has missed `n` pings and has the only connection. */
  ghost predicate Missed(h: Hub, s: A.Session, c: T.Conn, n: nat) {
    && P.Inv(h.book) && h.reg == OnlyReg(s) && h.tunnels == OnlyConn(c)
    && s.agentId in h.missed && h.missed[s.agentId] == n
  }

  lemma OnlyIsLive(s: A.Session, u: A.Session)
    ensures A.Live(OnlyReg(s), u) <==> u == s
  {
  }

  lemma QuietTick(steps: seq<Step>, h: Hub, s: A.Session, c: T.Conn, n: nat) returns (h': Hub)
    requires Reaches(steps, h) && Missed(h, s, c, n) && n + 1 < MAX_MISSED_PINGS
    ensures Reaches(steps + [Tick([])], h') && Missed(h', s, c, n + 1)
  {
    forall u ensures A.Live(h.reg, u) <==> u == s { OnlyIsLive(s, u); }
    ThenStep(steps, h, Tick([]));
    h' := Next(h, Tick([]));
  }

  lemma {:induction false} QuietTicks(steps: seq<Step>, h: Hub, s: A.Session, c: T.Conn, n: nat)
    returns (steps': seq<Step>, h': Hub)
    requires Reaches(steps, h) && Missed(h, s, c, n) && n < MAX_MISSED_PINGS
    ensures Reaches(steps', h') && Missed(h', s, c, MAX_MISSED_PINGS - 1) && steps <= steps'
    decreases MAX_MISSED_PINGS - n
  {
    steps', h' := steps, h;
    if n + 1 < MAX_MISSED_PINGS {
      var h1 := QuietTick(steps, h, s, c, n);
      steps', h' := QuietTicks(steps + [Tick([])], h1, s, c, n + 1);
    }
  }

  /** A silent agent is dropped by the heartbeat, and its connection stays. The run's first part registers the agent. */
  lemma SilentRun(t: Ticket, id: string, c: T.Conn) returns (first: seq<Step>, h0: Hub, rest: seq<Step>, h: Hub)
    requires t.limit == AtMost(1) && c.agentId == id
    ensures Reaches(first, h0) && Only(h0, SessionOf(t, id)) && first == [] + [Begin(t)] + [Commit(t, id, None)]
    ensures Reaches(first + rest, h) && h.reg == A.EMPTY && c.connectionId in h.tunnels.byConnection
  {
    var s := SessionOf(t, id);
    first, h0 := FirstAgent(t, id);
    var h1 := ThenOpen(first, h0, c);
    var quiet, h2 := QuietTicks(first + [OpenWs(c)], h1, s, c, 0);
    LastTick(quiet, h2, s, c);
    var steps := quiet + [Tick([s])];
    h := Next(h2, Tick([s]));
    rest := steps[|first|..];
    assert first <= first + [OpenWs(c)] <= quiet <= steps;
    assert steps == first + rest;
  }

  lemma LastTick(steps: seq<Step>, h: Hub, s: A.Session, c: T.Conn)
    requires Reaches(steps, h) && Missed(h, s, c, MAX_MISSED_PINGS - 1)
    ensures Enabled(h, Tick([s])) && Reaches(steps + [Tick([s])], Next(h, Tick([s])))
    ensures Next(h, Tick([s])).reg == A.EMPTY && Next(h, Tick([s])).tunnels == h.tunnels
  {
    forall u ensures A.Live(h.reg, u) <==> u == s { OnlyIsLive(s, u); }
    ThenStep(steps, h, Tick([s]));
    TickKeepsConnections(h, [s]);
    assert [s][1..] == [];
    assert EvictEach(Bump(h), [s]) == EvictLabel(Bump(h), s.accountId, s.name);
  }

}
