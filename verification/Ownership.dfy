/**
 Who owns a relayed WebSocket, and when its owner and the connection part
 company. A registration with an empty label is the awkward case: `find` then
 answers with any agent of the account, so the agent whose connections are
 closed and the agent that loses its label need not be the same.
 */
module Ownership {
  import opened Options
  import opened HubMachine
  import opened HubProperties
  import A = Agents
  import P = PendingRequests
  import T = TunnelSockets

  /** A frame that reached a browser came from the socket of the agent the connection was opened for, and no other. */
  lemma FramesComeFromOwner(steps: seq<Step>, i: nat)
    requires Legal(START, steps) && i < |Exec(START, steps).delivered|
    ensures var h := Exec(START, steps); var d := h.delivered[i];
      && d.connectionId in h.owners
      && (exists s :: s in h.ever && s.agentId == h.owners[d.connectionId])
      && (forall s :: s in h.ever && s.agentId == h.owners[d.connectionId] ==> s.ws == d.ws)
  {
    StartInv();
    InvExec(START, steps);
    assert CameFromOwner(Exec(START, steps), Exec(START, steps).delivered[i]);
  }

  /**
   And the other way round, in every run: a frame is delivered if and only if
   its connection is open and the socket it comes from is bound to the agent
   the connection was opened for; that agent is registered then.
   */
  lemma FrameDeliveredIff(steps: seq<Step>, ws: nat, id: string)
    requires Legal(START, steps) && P.Inv(Exec(START, steps).book)
    ensures var h := Exec(START, steps); var h' := Next(h, Frame(ws, id));
      if id in h.tunnels.byConnection && ws in h.reg.byWs && id in h.owners && h.reg.byWs[ws].agentId == h.owners[id]
      then h' == h.(delivered := h.delivered + [Delivery(id, ws)]) && A.Live(h.reg, h.reg.byWs[ws])
      else h' == h
  {
    StartInv();
    InvExec(START, steps);
  }

  predicate HasConns(h: Hub, agentId: string) { agentId in h.tunnels.byAgentId }

  /** Whoever holds the label of an account. */
  predicate Holds(h: Hub, accountId: string, name: string, agentId: string) {
    A.Held(h.reg, accountId, name) && h.reg.accounts[accountId][name].agentId == agentId
  }

  // ---- Agents that are gone -----------------------------------------------

  /** The agent is registered no longer and has no connection. */
  ghost predicate Gone(h: Hub, agentId: string) {
    WasRegistered(h, agentId) && agentId !in h.reg.byAgentId && !HasConns(h, agentId)
  }

  lemma GoneStep(h: Hub, step: Step, a: string)
    requires P.Inv(h.book) && Enabled(h, step) && Gone(h, a)
    ensures Gone(Next(h, step), a)
  {
    IdStep(h, step, a);
    if step.Tick? { EvictEachFrame(Bump(h), step.dead); }
  }

  lemma {:induction false} GoneForEver(h: Hub, steps: seq<Step>, a: string)
    requires Legal(h, steps) && Gone(h, a)
    ensures Gone(Exec(h, steps), a)
    decreases |steps|
  {
    if steps != [] {
      GoneStep(h, steps[0], a);
      GoneForEver(Next(h, steps[0]), steps[1..], a);
    }
  }

  /** The agent that an admitted registration found and whose connections it closes. */
  predicate Replaces(h: Hub, step: Step, agentId: string) {
    && step.Commit? && Admits(h, step.ticket, step.replaced)
    && step.replaced.Some? && step.replaced.value.agentId == agentId
  }

  /** The close of its socket, its sweep, or its replacement under its own label. */
  predicate Ends(h: Hub, step: Step, agentId: string) {
    match step
    case Close(ws) => ws in h.reg.byWs && h.reg.byWs[ws].agentId == agentId
    case Sweep(s) => s.agentId == agentId
    case Commit(t, _, replaced) => Replaces(h, step, agentId) && replaced.value.name == t.name
    case _ => false
  }

  /** A registration with an empty label that found this agent under another label. */
  predicate Disturbs(h: Hub, step: Step, agentId: string) {
    Replaces(h, step, agentId) && step.ticket.name == "" && step.replaced.value.name != ""
  }

  lemma EndsMakesGone(h: Hub, step: Step, a: string)
    requires Inv(h) && Enabled(h, step) && Ends(h, step, a)
    ensures Gone(Next(h, step), a)
  {
    match step
    case Close(ws) => EvictMakesGone(h, h.reg.byWs[ws]);
    case Sweep(s) => EvictMakesGone(h, s);
    case Commit(t, id, replaced) =>
      FoundIsLive(h, t, replaced);
      RegisteredAfter(h, t, id, replaced, a);
      FreshAgentId(h, id);
      assert replaced.value in h.ever;
  }

  lemma EvictMakesGone(h: Hub, s: A.Session)
    requires Inv(h) && s in h.ever
    ensures Gone(EvictLabel(h, s.accountId, s.name).(tunnels := T.CloseAll(h.tunnels, s.agentId)), s.agentId)
  {
    RegisteredAfterEvict(h, s.accountId, s.name, s.agentId);
    if s.agentId in h.reg.byAgentId { assert A.Live(h.reg, h.reg.byAgentId[s.agentId]); }
  }

  lemma FoundIsLive(h: Hub, t: Ticket, replaced: Option<A.Session>)
    requires A.Filed(h.reg) && A.Finds(h.reg, t.accountId, t.name, replaced) && replaced.Some?
    ensures A.Live(h.reg, replaced.value) && replaced.value.accountId == t.accountId
    ensures t.name != "" ==> replaced.value.name == t.name
  {
  }

  /**
   After the close of its socket, its sweep, or its replacement under its own
   label, an agent has no connection then or ever again, whatever the rest of
   the run does.
   */
  lemma EndedAgentsStayGone(steps: seq<Step>, step: Step, more: seq<Step>, a: string)
    requires Legal(START, steps) && P.Inv(Exec(START, steps).book)
    requires Enabled(Exec(START, steps), step) && Ends(Exec(START, steps), step, a)
    requires Legal(Next(Exec(START, steps), step), more)
    ensures Gone(Exec(Next(Exec(START, steps), step), more), a)
  {
    StartInv();
    InvExec(START, steps);
    EndsMakesGone(Exec(START, steps), step, a);
    GoneForEver(Next(Exec(START, steps), step), more, a);
  }

  // ---- Who ends a connection ----------------------------------------------

  /** The steps that end the connection `id` of the agent `a`. */
  predicate EndsConn(h: Hub, step: Step, id: string, a: string) {
    || step == DropWs(id)
    || (step.CloseWs? && step.connectionId == id && Owns(h, step.ws, id))
    || Ends(h, step, a)
    || Disturbs(h, step, a)
  }

  lemma CommitEndsConn(h: Hub, step: Step, id: string)
    requires A.Filed(h.reg) && Enabled(h, step) && step.Commit? && id in h.tunnels.byConnection
    ensures EndsExactly(h, step, CommitStep(h, step.ticket, step.agentId, step.replaced).tunnels, id)
  {
    if step.replaced.Some? { FoundIsLive(h, step.ticket, step.replaced); }
  }

  /** `t` is what is left of `h`'s connections after `step`, as far as `id` is concerned. */
  ghost predicate EndsExactly(h: Hub, step: Step, t: T.Tunnels, id: string)
    requires id in h.tunnels.byConnection
  {
    && (id !in t.byConnection <==> EndsConn(h, step, id, h.tunnels.byConnection[id].agentId))
    && (id in t.byConnection ==> t.byConnection[id] == h.tunnels.byConnection[id])
  }

  lemma CloseEndsConn(h: Hub, ws: nat, id: string)
    requires P.Inv(h.book) && id in h.tunnels.byConnection
    ensures EndsExactly(h, Close(ws), Next(h, Close(ws)).tunnels, id)
  {
  }

  lemma SweepEndsConn(h: Hub, s: A.Session, id: string)
    requires id in h.tunnels.byConnection
    ensures EndsExactly(h, Sweep(s), T.CloseAll(h.tunnels, s.agentId), id)
  {
  }

  lemma DeleteEndsConn(h: Hub, ws: nat, x: string, id: string)
    requires id in h.tunnels.byConnection
    ensures EndsExactly(h, DropWs(x), T.Delete(h.tunnels, x), id)
    ensures EndsExactly(h, CloseWs(ws, x), if Owns(h, ws, x) then T.Delete(h.tunnels, x) else h.tunnels, id)
  {
  }

  lemma OpenEndsNone(h: Hub, c: T.Conn, id: string)
    requires ConnsOwned(h) && c.connectionId !in h.owners && id in h.tunnels.byConnection
    ensures EndsExactly(h, OpenWs(c), T.Add(h.tunnels, c), id)
  {
  }

  /**
   A step ends a connection exactly if it is the browser's or the owner's own
   close, if it ends the owner, or if it is an admitted registration with an
   empty label that found the owner under another label. No step ever hands a
   connection to someone else.
   */
  lemma ConnEndsIff(h: Hub, step: Step, id: string)
    requires P.Inv(h.book) && A.Filed(h.reg) && ConnsOwned(h) && Enabled(h, step) && id in h.tunnels.byConnection
    ensures EndsExactly(h, step, Next(h, step).tunnels, id)
  {
    match step
    case Commit(_, _, _) => CommitEndsConn(h, step, id);
    case Tick(dead) => TickKeepsConnections(h, dead);
    case Close(ws) => CloseEndsConn(h, ws, id);
    case Sweep(s) => SweepEndsConn(h, s, id);
    case CloseWs(ws, x) => DeleteEndsConn(h, ws, x, id);
    case DropWs(x) => DeleteEndsConn(h, 0, x, id);
    case OpenWs(c) => OpenEndsNone(h, c, id);
    case _ => OthersEndNone(h, step, id);
  }

  lemma OthersEndNone(h: Hub, step: Step, id: string)
    requires P.Inv(h.book) && Enabled(h, step) && id in h.tunnels.byConnection
    requires step.Begin? || step.Abandon? || step.Pong? || step.Request? || step.Frame?
    ensures EndsExactly(h, step, Next(h, step).tunnels, id)
  {
  }

  /** Heartbeat eviction leaves the connections of the agents it drops in place. */
  lemma TickKeepsConnections(h: Hub, dead: seq<A.Session>)
    requires P.Inv(h.book) && Enabled(h, Tick(dead))
    ensures Next(h, Tick(dead)).tunnels == h.tunnels
  {
    EvictEachFrame(Bump(h), dead);
  }

  // ---- Registrations with an empty label ----------------------------------

  /** After an admitted registration: the new agent and all others but the holder of the label. */
  lemma RegisteredAfter(h: Hub, t: Ticket, agentId: string, replaced: Option<A.Session>, a: string)
    requires Admits(h, t, replaced)
    ensures a in CommitStep(h, t, agentId, replaced).reg.byAgentId <==>
              a == agentId || (a in h.reg.byAgentId && !Holds(h, t.accountId, t.name, a))
  {
  }

  /** A registered agent `a` and the agent that a registration found. */
  lemma FoundFacts(h: Hub, t: Ticket, agentId: string, replaced: Option<A.Session>, a: string)
    requires A.Sound(h.reg) && A.Finds(h.reg, t.accountId, t.name, replaced)
    requires a in h.reg.byAgentId && agentId !in h.reg.byAgentId
    ensures a != agentId && h.reg.byAgentId[a].agentId == a
    ensures replaced.Some? ==> (replaced.value.agentId == a <==> replaced.value == h.reg.byAgentId[a])
    ensures replaced == Some(h.reg.byAgentId[a]) ==>
              (Holds(h, t.accountId, t.name, a) <==> h.reg.byAgentId[a].name == t.name)
    ensures t.name != "" && Holds(h, t.accountId, t.name, a) ==> replaced == Some(h.reg.byAgentId[a])
    ensures replaced.Some? && t.name != "" ==> replaced.value.name == t.name
  {
    assert A.Live(h.reg, h.reg.byAgentId[a]);
    if replaced.Some? { FoundIsLive(h, t, replaced); }
    if A.Held(h.reg, t.accountId, t.name) { assert A.Live(h.reg, h.reg.accounts[t.accountId][t.name]); }
  }

  /**
   A registration ends a connection whose owner stays registered exactly if it
   is admitted with an empty label and found the owner under another label.
   */
  lemma ForeignCloseIff(h: Hub, t: Ticket, agentId: string, replaced: Option<A.Session>, id: string)
    requires A.Sound(h.reg) && A.Finds(h.reg, t.accountId, t.name, replaced) && agentId !in h.reg.byAgentId
    requires id in h.tunnels.byConnection && h.tunnels.byConnection[id].agentId in h.reg.byAgentId
    ensures var h' := CommitStep(h, t, agentId, replaced); var owner := h.tunnels.byConnection[id].agentId;
      (id !in h'.tunnels.byConnection && owner in h'.reg.byAgentId) <==>
        Admits(h, t, replaced) && t.name == "" && replaced == Some(h.reg.byAgentId[owner])
        && h.reg.byAgentId[owner].name != ""
  {
    var owner := h.tunnels.byConnection[id].agentId;
    if Admits(h, t, replaced) {
      RegisteredAfter(h, t, agentId, replaced, owner);
      FoundFacts(h, t, agentId, replaced, owner);
    }
  }

  /**
   A registration drops an agent and leaves its connections behind exactly if
   it is admitted with an empty label, the agent holds that label and has a
   connection, and it is another agent that was found.
   */
  lemma OrphanedIff(h: Hub, t: Ticket, agentId: string, replaced: Option<A.Session>, a: string)
    requires A.Sound(h.reg) && A.Finds(h.reg, t.accountId, t.name, replaced) && agentId !in h.reg.byAgentId
    requires a in h.reg.byAgentId
    ensures var h' := CommitStep(h, t, agentId, replaced);
      (a !in h'.reg.byAgentId && HasConns(h', a)) <==>
        Admits(h, t, replaced) && t.name == "" && Holds(h, t.accountId, "", a)
        && replaced != Some(h.reg.byAgentId[a]) && HasConns(h, a)
  {
    if Admits(h, t, replaced) {
      RegisteredAfter(h, t, agentId, replaced, a);
      FoundFacts(h, t, agentId, replaced, a);
    }
  }

  /**
   The sweep acts on a snapshot but evicts by label. Whoever holds the label
   is dropped; its connections are closed with it exactly when it is the
   session of the snapshot.
   */
  lemma SweepIsExactIff(h: Hub, s: A.Session, holder: A.Session)
    requires P.Inv(h.book) && Recorded(h) && s in h.ever && A.Live(h.reg, holder)
    requires holder.accountId == s.accountId && holder.name == s.name
    requires holder.agentId in h.tunnels.byAgentId
    ensures !A.Live(Next(h, Sweep(s)).reg, holder)
    ensures holder.agentId !in Next(h, Sweep(s)).tunnels.byAgentId <==> holder == s
  {
    A.EvictLive(h.reg, s.accountId, s.name, holder);
  }

  // ---- Connections without a registered owner -----------------------------

  /** Every connection belongs to an agent that is registered now. */
  ghost predicate OwnersLive(h: Hub) {
    forall id :: id in h.tunnels.byConnection ==> h.tunnels.byConnection[id].agentId in h.reg.byAgentId
  }

  /** The steps that drop an agent and leave it a connection. */
  ghost predicate Orphans(h: Hub, step: Step) {
    match step
    case Tick(dead) => exists s :: s in dead && HasConns(h, s.agentId)
    case Sweep(s) =>
      && A.Held(h.reg, s.accountId, s.name) && h.reg.accounts[s.accountId][s.name] != s
      && HasConns(h, h.reg.accounts[s.accountId][s.name].agentId)
    case Commit(t, _, replaced) =>
      && Admits(h, t, replaced) && t.name == "" && A.Held(h.reg, t.accountId, "")
      && replaced != Some(h.reg.accounts[t.accountId][""])
      && HasConns(h, h.reg.accounts[t.accountId][""].agentId)
    case _ => false
  }

  lemma OwnersListed(h: Hub)
    requires T.Agree(h.tunnels)
    ensures OwnersLive(h) <==> forall a :: HasConns(h, a) ==> a in h.reg.byAgentId
  {
    forall a | HasConns(h, a) && OwnersLive(h) ensures a in h.reg.byAgentId {
      var id :| id in h.tunnels.byAgentId[a];
      assert id in h.tunnels.byConnection && h.tunnels.byConnection[id].agentId == a;
    }
  }

  /** If an agent with connections is dropped and keeps one, not every owner is live afterwards, and conversely. */
  lemma OwnersLiveTick(h: Hub, dead: seq<A.Session>)
    requires Inv(h) && Enabled(h, Tick(dead)) && OwnersLive(h)
    ensures OwnersLive(Next(h, Tick(dead))) <==> !Orphans(h, Tick(dead))
  {
    var h' := Next(h, Tick(dead));
    InvTick(h, dead);
    TickKeepsConnections(h, dead);
    OwnersListed(h);
    OwnersListed(h');
    forall a | HasConns(h, a) ensures a in h'.reg.byAgentId <==> h.reg.byAgentId[a] !in dead {
      var s := h.reg.byAgentId[a];
      assert A.Live(h.reg, s);
      if a in h'.reg.byAgentId { assert A.Live(h'.reg, h'.reg.byAgentId[a]); }
      if s !in dead { assert A.Live(h'.reg, s); }
    }
    forall s | s in dead ensures h.reg.byAgentId[s.agentId] == s { assert A.Live(h.reg, s); }
  }

  /** Evicting a label: exactly its holder leaves the index. */
  lemma RegisteredAfterEvict(h: Hub, accountId: string, name: string, a: string)
    ensures a in A.Evict(h.reg, accountId, name).byAgentId <==> a in h.reg.byAgentId && !Holds(h, accountId, name, a)
  {
  }

  lemma OwnersLiveSweep(h: Hub, s: A.Session)
    requires Inv(h) && s in h.ever && OwnersLive(h)
    ensures OwnersLive(Next(h, Sweep(s))) <==> !Orphans(h, Sweep(s))
  {
    var h' := Next(h, Sweep(s));
    InvNext(h, Sweep(s));
    OwnersListed(h);
    OwnersListed(h');
    forall a ensures a in h'.reg.byAgentId <==> a in h.reg.byAgentId && !Holds(h, s.accountId, s.name, a) {
      RegisteredAfterEvict(h, s.accountId, s.name, a);
    }
    if A.Held(h.reg, s.accountId, s.name) { assert A.Live(h.reg, h.reg.accounts[s.accountId][s.name]); }
  }

  lemma OwnersLiveClose(h: Hub, ws: nat)
    requires Inv(h) && OwnersLive(h)
    ensures OwnersLive(Next(h, Close(ws)))
  {
    if ws in h.reg.byWs {
      var h', s := Next(h, Close(ws)), h.reg.byWs[ws];
      forall a ensures a in h'.reg.byAgentId <==> a in h.reg.byAgentId && !Holds(h, s.accountId, s.name, a) {
        RegisteredAfterEvict(h, s.accountId, s.name, a);
      }
      assert A.Live(h.reg, s);
    }
  }

  lemma OwnersLiveCommit(h: Hub, step: Step)
    requires Inv(h) && Enabled(h, step) && step.Commit? && OwnersLive(h)
    ensures OwnersLive(Next(h, step)) <==> !Orphans(h, step)
  {
    var t, agentId, replaced := step.ticket, step.agentId, step.replaced;
    var h' := CommitStep(h, t, agentId, replaced);
    InvCommit(h, t, agentId, replaced);
    FreshAgentId(h, agentId);
    OwnersListed(h);
    OwnersListed(h');
    forall a | HasConns(h, a) ensures (a !in h'.reg.byAgentId && HasConns(h', a)) <==> OrphanedBy(h, step, a) {
      OrphanedIff(h, t, agentId, replaced, a);
    }
  }

  predicate OrphanedBy(h: Hub, step: Step, a: string)
    requires step.Commit?
  {
    && Admits(h, step.ticket, step.replaced) && step.ticket.name == "" && Holds(h, step.ticket.accountId, "", a)
    && a in h.reg.byAgentId && step.replaced != Some(h.reg.byAgentId[a])
  }

  /** A step leaves a connection without a registered owner exactly if it is one of the three. */
  lemma OwnersLiveStep(h: Hub, step: Step)
    requires Inv(h) && Enabled(h, step) && OwnersLive(h)
    ensures OwnersLive(Next(h, step)) <==> !Orphans(h, step)
  {
    match step
    case Tick(dead) => OwnersLiveTick(h, dead);
    case Sweep(s) => OwnersLiveSweep(h, s);
    case Close(ws) => OwnersLiveClose(h, ws);
    case Commit(_, _, _) => OwnersLiveCommit(h, step);
    case _ => OwnersLiveOther(h, step);
  }

  /** The other steps register nobody and drop nobody, and open connections for registered agents only. */
  lemma OwnersLiveOther(h: Hub, step: Step)
    requires P.Inv(h.book) && Enabled(h, step) && OwnersLive(h)
    requires !step.Tick? && !step.Sweep? && !step.Close? && !step.Commit?
    ensures OwnersLive(Next(h, step))
  {
  }

  ghost predicate AlwaysOwned(h: Hub, steps: seq<Step>)
    requires Legal(h, steps)
    decreases |steps|
  {
    OwnersLive(h) && (steps == [] || AlwaysOwned(Next(h, steps[0]), steps[1..]))
  }

  ghost predicate NeverOrphans(h: Hub, steps: seq<Step>)
    requires Legal(h, steps)
    decreases |steps|
  {
    steps == [] || (!Orphans(h, steps[0]) && NeverOrphans(Next(h, steps[0]), steps[1..]))
  }

  lemma {:induction false} AlwaysOwnedExec(h: Hub, steps: seq<Step>)
    requires Inv(h) && OwnersLive(h) && Legal(h, steps)
    ensures AlwaysOwned(h, steps) <==> NeverOrphans(h, steps)
    decreases |steps|
  {
    if steps != [] {
      OwnersLiveStep(h, steps[0]);
      InvNext(h, steps[0]);
      if OwnersLive(Next(h, steps[0])) { AlwaysOwnedExec(Next(h, steps[0]), steps[1..]); }
    }
  }

  /**
   What the three registries are for: in every state of a run every relayed
   connection has a registered owner, if and only if no tick drops an agent
   with connections, no sweep of a stale snapshot hits one, and no
   registration with an empty label takes that label from one it did not find.
   */
  lemma AlwaysOwnedIff(steps: seq<Step>)
    requires Legal(START, steps)
    ensures AlwaysOwned(START, steps) <==> NeverOrphans(START, steps)
  {
    StartInv();
    AlwaysOwnedExec(START, steps);
  }
}
