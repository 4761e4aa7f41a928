/** What every run of the hub's connection machine guarantees. */
module HubProperties {
  import opened Options
  import opened HubMachine
  import A = Agents
  import P = PendingRequests

  // ---- The agent limit ----------------------------------------------------

  function Held(h: Hub, accountId: string): nat { |A.Account(h.reg, accountId)| }

  /** When a registration pushes an account over the limit it was checked against: only with an empty label. */
  lemma OverflowIff(h: Hub, t: Ticket, agentId: string, replaced: Option<A.Session>)
    requires A.Finds(h.reg, t.accountId, t.name, replaced)
    requires t.limit.AtMost? && Held(h, t.accountId) <= t.limit.n
    ensures Held(CommitStep(h, t, agentId, replaced), t.accountId) > t.limit.n <==>
              && t.name == "" && "" !in A.Account(h.reg, t.accountId)
              && Held(h, t.accountId) == t.limit.n && t.limit.n > 0
  {
    A.CountAfterRegister(h.reg, SessionOf(t, agentId), t.accountId);
    var acct := A.Account(h.reg, t.accountId);
    assert acct == map[] <==> |acct| == 0;
  }

  /** Re-registering a label the account holds is refused only if the account is already over the limit. */
  lemma HeldLabelRefusedIff(h: Hub, t: Ticket, replaced: Option<A.Session>)
    requires A.Finds(h.reg, t.accountId, t.name, replaced)
    requires A.Held(h.reg, t.accountId, t.name) && t.limit.AtMost?
    ensures !Admits(h, t, replaced) <==> Held(h, t.accountId) > t.limit.n
  {
  }

  /**
   Who gets in: a registration leaves its session registered if and only if
   the plan is unlimited, the account is below the limit, or it is exactly at
   the limit and the label is held already (for an empty label: if any is).
   Otherwise the registry is left as it was.
   */
  lemma RegisteredIff(h: Hub, t: Ticket, agentId: string, replaced: Option<A.Session>)
    requires Inv(h) && Enabled(h, Commit(t, agentId, replaced))
    ensures var h' := Next(h, Commit(t, agentId, replaced)); var held := Held(h, t.accountId);
      && (A.Live(h'.reg, SessionOf(t, agentId)) <==>
            || t.limit.Unlimited? || held < t.limit.n
            || (held == t.limit.n && if t.name == "" then held > 0 else A.Held(h.reg, t.accountId, t.name)))
      && (!A.Live(h'.reg, SessionOf(t, agentId)) ==> h'.reg == h.reg && h'.tunnels == h.tunnels)
  {
    FreshAgentId(h, agentId);
    A.RegisterLive(h.reg, SessionOf(t, agentId), SessionOf(t, agentId));
    var acct := A.Account(h.reg, t.accountId);
    assert acct == map[] <==> |acct| == 0;
    assert replaced.Some? <==> if t.name == "" then |acct| > 0 else t.name in acct;
  }

  ghost predicate Checked(step: Step, accountId: string, limit: nat) {
    step.Commit? && step.ticket.accountId == accountId ==>
      step.ticket.name != "" && step.ticket.limit.AtMost? && step.ticket.limit.n <= limit
  }

  lemma LimitStep(h: Hub, step: Step, a: string, limit: nat)
    requires A.Sound(h.reg) && P.Inv(h.book) && Enabled(h, step) && Checked(step, a, limit) && Held(h, a) <= limit
    ensures Held(Next(h, step), a) <= limit
  {
    match step
    case Commit(t, id, replaced) => A.CountAfterRegister(h.reg, SessionOf(t, id), a);
    case Close(ws) =>
      if ws in h.reg.byWs { EvictedShrinks(h, h.reg.byWs[ws].accountId, h.reg.byWs[ws].name); }
    case Tick(dead) => EvictEachEffect(Bump(h), dead);
    case Sweep(s) => EvictedShrinks(h, s.accountId, s.name);
    case _ =>
  }

  lemma {:induction false} LimitExec(h: Hub, steps: seq<Step>, a: string, limit: nat)
    requires Inv(h) && Legal(h, steps) && Held(h, a) <= limit
    requires forall i :: 0 <= i < |steps| ==> Checked(steps[i], a, limit)
    ensures Held(Exec(h, steps), a) <= limit
    decreases |steps|
  {
    if steps != [] {
      LimitStep(h, steps[0], a, limit);
      InvNext(h, steps[0]);
      LimitExec(Next(h, steps[0]), steps[1..], a, limit);
    }
  }

  /**
   The agent limit under races. However registrations, closes, ticks and
   sweeps interleave, an account whose registrations carry non-empty labels
   and limits of at most `limit` never holds more than `limit` agents, and a
   label it holds can always be registered again under that limit.
   */
  lemma AgentLimit(steps: seq<Step>, a: string, limit: nat)
    requires Legal(START, steps)
    requires forall i :: 0 <= i < |steps| ==> Checked(steps[i], a, limit)
    ensures Held(Exec(START, steps), a) <= limit
    ensures forall t: Ticket, replaced |
              && t.accountId == a && t.limit == AtMost(limit)
              && A.Held(Exec(START, steps).reg, a, t.name)
              && A.Finds(Exec(START, steps).reg, a, t.name, replaced) ::
              Admits(Exec(START, steps), t, replaced)
  {
    StartInv();
    LimitExec(START, steps, a, limit);
    var h := Exec(START, steps);
    forall t: Ticket, replaced |
        t.accountId == a && t.limit == AtMost(limit)
        && A.Held(h.reg, a, t.name) && A.Finds(h.reg, a, t.name, replaced)
      ensures Admits(h, t, replaced)
    {
      HeldLabelRefusedIff(h, t, replaced);
    }
  }

  // ---- Registrations in progress ------------------------------------------

  /** What a step does to the number of registrations `t` that wait. */
  function Opens(step: Step, t: Ticket): int {
    match step
    case Begin(u) => if u == t then 1 else 0
    case Abandon(u) => if u == t then -1 else 0
    case Commit(u, _, _) => if u == t then -1 else 0
    case _ => 0
  }

  function Balance(steps: seq<Step>, t: Ticket): int {
    if steps == [] then 0 else Opens(steps[0], t) + Balance(steps[1..], t)
  }

  /** A registration that began is committed or abandoned at most once, and waits until then. */
  lemma {:induction false} TicketsAddUp(h: Hub, steps: seq<Step>, t: Ticket)
    requires Legal(h, steps)
    ensures Exec(h, steps).tickets[t] == h.tickets[t] + Balance(steps, t)
    decreases |steps|
  {
    if steps != [] {
      TicketStep(h, steps[0], t);
      TicketsAddUp(Next(h, steps[0]), steps[1..], t);
    }
  }

  lemma TicketStep(h: Hub, step: Step, t: Ticket)
    requires P.Inv(h.book) && Enabled(h, step)
    ensures Next(h, step).tickets[t] == h.tickets[t] + Opens(step, t)
  {
    if step.Tick? { EvictEachFrame(Bump(h), step.dead); }
  }

  // ---- The three maps agree -----------------------------------------------

  ghost predicate KeepsLabel(h: Hub, step: Step) {
    step.Commit? && Admits(h, step.ticket, step.replaced) && step.ticket.ws in h.reg.byWs ==>
      var s := h.reg.byWs[step.ticket.ws];
      s.accountId == step.ticket.accountId && s.name == step.ticket.name
  }

  /** No socket registers a second label while its first is still registered. */
  ghost predicate OneLabelPerSocket(h: Hub, steps: seq<Step>)
    requires Legal(h, steps)
    decreases |steps|
  {
    steps == [] || (KeepsLabel(h, steps[0]) && OneLabelPerSocket(Next(h, steps[0]), steps[1..]))
  }

  lemma {:induction false} EvictEachKeepsAgree(h: Hub, dead: seq<A.Session>)
    requires A.Agree(h.reg) && P.Inv(h.book)
    ensures A.Agree(EvictEach(h, dead).reg)
    decreases |dead|
  {
    if dead != [] {
      EvictedShrinks(h, dead[0].accountId, dead[0].name);
      A.EvictKeepsSound(h.reg, dead[0].accountId, dead[0].name);
      EvictEachKeepsAgree(EvictLabel(h, dead[0].accountId, dead[0].name), dead[1..]);
    }
  }

  lemma AgreeStep(h: Hub, step: Step)
    requires Inv(h) && Enabled(h, step) && A.Agree(h.reg)
    ensures A.Agree(Next(h, step).reg) <==> KeepsLabel(h, step)
  {
    match step
    case Commit(t, id, replaced) =>
      FreshAgentId(h, id);
      A.RegisterKeepsAgreeIff(h.reg, SessionOf(t, id));
    case Close(ws) =>
      if ws in h.reg.byWs { A.EvictKeepsSound(h.reg, h.reg.byWs[ws].accountId, h.reg.byWs[ws].name); }
    case Tick(dead) => EvictEachKeepsAgree(Bump(h), dead);
    case Sweep(s) => A.EvictKeepsSound(h.reg, s.accountId, s.name);
    case _ =>
  }

  ghost predicate AlwaysAgrees(h: Hub, steps: seq<Step>)
    requires Legal(h, steps)
    decreases |steps|
  {
    A.Agree(h.reg) && (steps == [] || AlwaysAgrees(Next(h, steps[0]), steps[1..]))
  }

  lemma {:induction false} AgreementExec(h: Hub, steps: seq<Step>)
    requires Inv(h) && A.Agree(h.reg) && Legal(h, steps)
    ensures AlwaysAgrees(h, steps) <==> OneLabelPerSocket(h, steps)
    decreases |steps|
  {
    if steps != [] {
      AgreeStep(h, steps[0]);
      InvNext(h, steps[0]);
      if A.Agree(Next(h, steps[0]).reg) { AgreementExec(Next(h, steps[0]), steps[1..]); }
    }
  }

  /**
   In every state of a run the account map and both indexes describe the same
   sessions, with no empty account left over, if and only if no socket takes a
   second label.
   */
  lemma RegistryAgreement(steps: seq<Step>)
    requires Legal(START, steps)
    ensures AlwaysAgrees(START, steps) <==> OneLabelPerSocket(START, steps)
  {
    StartInv();
    AgreementExec(START, steps);
  }

  // ---- A superseded socket ------------------------------------------------

  /** Evictions only shrink the indexes and touch nothing but the registry and the book. */
  lemma {:induction false} EvictEachFrame(h: Hub, dead: seq<A.Session>)
    requires P.Inv(h.book)
    ensures var h' := EvictEach(h, dead);
      && h' == h.(reg := h'.reg, book := h'.book)
      && h'.reg.byAgentId.Keys <= h.reg.byAgentId.Keys && h'.reg.byWs.Keys <= h.reg.byWs.Keys
      && P.Inv(h'.book)
    decreases |dead|
  {
    if dead != [] {
      P.InvApply(h.book, P.AgentGone(dead[0].accountId, dead[0].name));
      EvictEachFrame(EvictLabel(h, dead[0].accountId, dead[0].name), dead[1..]);
    }
  }

  lemma UnboundStep(h: Hub, step: Step, w: nat)
    requires P.Inv(h.book) && Enabled(h, step) && w !in h.reg.byWs
    requires step.Commit? ==> step.ticket.ws != w
    ensures w !in Next(h, step).reg.byWs
  {
    if step.Tick? { EvictEachFrame(Bump(h), step.dead); }
  }

  lemma {:induction false} UnboundStays(h: Hub, steps: seq<Step>, w: nat)
    requires Legal(h, steps) && w !in h.reg.byWs
    requires forall i :: 0 <= i < |steps| && steps[i].Commit? ==> steps[i].ticket.ws != w
    ensures w !in Exec(h, steps).reg.byWs
    decreases |steps|
  {
    if steps != [] {
      UnboundStep(h, steps[0], w);
      UnboundStays(Next(h, steps[0]), steps[1..], w);
    }
  }

  lemma {:induction false} BookExec(h: Hub, steps: seq<Step>)
    requires P.Inv(h.book) && Legal(h, steps)
    ensures P.Inv(Exec(h, steps).book)
    decreases |steps|
  {
    if steps != [] {
      match steps[0] {
        case Close(ws) =>
          if ws in h.reg.byWs {
            P.InvApply(h.book, P.AgentGone(h.reg.byWs[ws].accountId, h.reg.byWs[ws].name));
          }
        case Tick(dead) => EvictEachFrame(Bump(h), dead);
        case Sweep(s) => P.InvApply(h.book, P.AgentGone(s.accountId, s.name));
        case Request(e) => P.InvApply(h.book, e);
        case _ =>
      }
      BookExec(Next(h, steps[0]), steps[1..]);
    }
  }

  lemma HolderIsUnbound(h: Hub, t: Ticket, agentId: string, replaced: Option<A.Session>, former: A.Session)
    requires Admits(h, t, replaced) && A.Live(h.reg, former)
    requires former.accountId == t.accountId && former.name == t.name && former.ws != t.ws
    ensures former.ws !in CommitStep(h, t, agentId, replaced).reg.byWs
  {
  }

  /**
   After a reconnect under the same label, empty or not, the close of the old
   socket, no matter how late, changes nothing at all: no map, no pending
   request, no relayed connection.
   */
  lemma SupersededCloseIsNoOp(h: Hub, t: Ticket, agentId: string, replaced: Option<A.Session>, former: A.Session,
                              steps: seq<Step>)
    requires P.Inv(h.book) && Enabled(h, Commit(t, agentId, replaced)) && Admits(h, t, replaced)
    requires A.Live(h.reg, former) && former.accountId == t.accountId && former.name == t.name && former.ws != t.ws
    requires Legal(CommitStep(h, t, agentId, replaced), steps)
    requires forall i :: 0 <= i < |steps| && steps[i].Commit? ==> steps[i].ticket.ws != former.ws
    ensures var later := Exec(CommitStep(h, t, agentId, replaced), steps);
      P.Inv(later.book) && Next(later, Close(former.ws)) == later
  {
    var h1 := CommitStep(h, t, agentId, replaced);
    HolderIsUnbound(h, t, agentId, replaced, former);
    UnboundStays(h1, steps, former.ws);
    BookExec(h1, steps);
  }

  // ---- Requests -----------------------------------------------------------

  ghost predicate FreshRequests(h: Hub, steps: seq<Step>)
    requires Legal(h, steps)
    decreases |steps|
  {
    steps == [] ||
    (!(steps[0].Request? && P.Reuses(h.book, steps[0].event)) && FreshRequests(Next(h, steps[0]), steps[1..]))
  }

  lemma {:induction false} EvictEachKeepsLost(h: Hub, dead: seq<A.Session>)
    requires P.Inv(h.book)
    ensures EvictEach(h, dead).book.lost == h.book.lost
    decreases |dead|
  {
    if dead != [] {
      P.InvApply(h.book, P.AgentGone(dead[0].accountId, dead[0].name));
      EvictEachKeepsLost(EvictLabel(h, dead[0].accountId, dead[0].name), dead[1..]);
    }
  }

  lemma NothingLostStep(h: Hub, step: Step)
    requires P.Inv(h.book) && Enabled(h, step) && !(step.Request? && P.Reuses(h.book, step.event))
    ensures Next(h, step).book.lost == h.book.lost
  {
    if step.Tick? { EvictEachKeepsLost(Bump(h), step.dead); }
  }

  lemma {:induction false} NothingLost(h: Hub, steps: seq<Step>)
    requires Inv(h) && Legal(h, steps) && FreshRequests(h, steps)
    ensures Exec(h, steps).book.lost == h.book.lost
    decreases |steps|
  {
    if steps != [] {
      NothingLostStep(h, steps[0]);
      InvNext(h, steps[0]);
      NothingLost(Next(h, steps[0]), steps[1..]);
    }
  }

  /**
   Exactly-once settlement in the whole hub: in every run with fresh request
   ids, each request is still pending before its deadline, or exactly one of
   its callbacks has run, by its deadline.
   */
  lemma RequestsSettleOnce(steps: seq<Step>)
    requires Legal(START, steps) && FreshRequests(START, steps)
    ensures var b := Exec(START, steps).book;
      && |b.history| == |b.issued|
      && forall u :: 0 <= u < |b.issued| ==>
           if P.IsPending(b, u) then b.history[u] == [] && b.now <= b.issued[u].deadline
           else |b.history[u]| == 1 && b.history[u][0].at <= b.issued[u].deadline
  {
    StartInv();
    InvExec(START, steps);
    NothingLost(START, steps);
    var b := Exec(START, steps).book;
    forall u | 0 <= u < |b.issued|
      ensures if P.IsPending(b, u) then b.history[u] == [] && b.now <= b.issued[u].deadline
              else |b.history[u]| == 1 && b.history[u][0].at <= b.issued[u].deadline
    {
      assert P.Placed(b, u);
    }
  }

  // ---- Heartbeat ----------------------------------------------------------

  function Ticks(steps: seq<Step>): nat {
    if steps == [] then 0 else (if steps[0].Tick? then 1 else 0) + Ticks(steps[1..])
  }

  /** An agent id that has left the registry never comes back. */
  lemma IdStep(h: Hub, step: Step, a: string)
    requires P.Inv(h.book) && Enabled(h, step) && WasRegistered(h, a) && a !in h.reg.byAgentId
    ensures WasRegistered(Next(h, step), a) && a !in Next(h, step).reg.byAgentId
  {
    var s :| s in h.ever && s.agentId == a;
    if step.Tick? { EvictEachFrame(Bump(h), step.dead); }
    assert s in Next(h, step).ever;
  }

  lemma {:induction false} NeverBack(h: Hub, steps: seq<Step>, a: string)
    requires Legal(h, steps) && WasRegistered(h, a) && a !in h.reg.byAgentId
    ensures a !in Exec(h, steps).reg.byAgentId
    decreases |steps|
  {
    if steps != [] {
      IdStep(h, steps[0], a);
      NeverBack(Next(h, steps[0]), steps[1..], a);
    }
  }

  lemma CounterStep(h: Hub, step: Step, a: string)
    requires P.Inv(h.book) && Enabled(h, step) && a in h.reg.byAgentId && step != Pong(a)
    requires WasRegistered(h, a) && a in h.missed
    ensures WasRegistered(Next(h, step), a) && a in Next(h, step).missed
    ensures Next(h, step).missed[a] == h.missed[a] + if step.Tick? then 1 else 0
  {
    var s :| s in h.ever && s.agentId == a;
    if step.Tick? { EvictEachFrame(Bump(h), step.dead); }
    assert s in Next(h, step).ever;
  }

  lemma {:induction false} CounterIsExact(h: Hub, steps: seq<Step>, a: string)
    requires Legal(h, steps) && a in h.reg.byAgentId && WasRegistered(h, a) && a in h.missed
    requires forall i :: 0 <= i < |steps| ==> steps[i] != Pong(a)
    ensures a in Exec(h, steps).reg.byAgentId ==>
              a in Exec(h, steps).missed && Exec(h, steps).missed[a] == h.missed[a] + Ticks(steps)
    decreases |steps|
  {
    if steps != [] {
      CounterStep(h, steps[0], a);
      if a in Next(h, steps[0]).reg.byAgentId {
        CounterIsExact(Next(h, steps[0]), steps[1..], a);
      } else {
        NeverBack(Next(h, steps[0]), steps[1..], a);
      }
    }
  }

  /**
   An agent that answers no ping does not outlive `MAX_MISSED_PINGS` ticks,
   and as long as it is registered its counter is the number of ticks.
   */
  lemma SilentAgentIsEvicted(h: Hub, steps: seq<Step>, a: string)
    requires Inv(h) && Legal(h, steps) && a in h.reg.byAgentId
    requires forall i :: 0 <= i < |steps| ==> steps[i] != Pong(a)
    ensures a in Exec(h, steps).reg.byAgentId ==>
              a in Exec(h, steps).missed && Exec(h, steps).missed[a] == h.missed[a] + Ticks(steps)
    ensures Ticks(steps) >= MAX_MISSED_PINGS ==> a !in Exec(h, steps).reg.byAgentId
  {
    assert WasRegistered(h, a) by { assert A.Live(h.reg, h.reg.byAgentId[a]); }
    CounterIsExact(h, steps, a);
    assert Recorded(Exec(h, steps)) by { InvExec(h, steps); }
  }
}
