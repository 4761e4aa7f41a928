/**
 The heartbeat over whole runs: what the counter of missed pings counts, and
 by which steps an agent can leave the registry.
 */
module Heartbeats {
  import opened Options
  import opened HubMachine
  import opened HubProperties
  import opened Ownership
  import A = Agents
  import P = PendingRequests

  /** The hub hears from the agent: it registers, or answers a ping. */
  predicate Contact(step: Step, a: string) { step == Pong(a) || (step.Commit? && step.agentId == a) }

  /** The hub last heard from the agent `k` steps into the run. */
  ghost predicate LastContact(steps: seq<Step>, a: string, k: nat) {
    0 < k <= |steps| && Contact(steps[k - 1], a) && forall i :: k <= i < |steps| ==> !Contact(steps[i], a)
  }

  // ---- The counter --------------------------------------------------------

  lemma ContactResets(h: Hub, step: Step, a: string)
    requires Inv(h) && Enabled(h, step) && Contact(step, a) && a in Next(h, step).reg.byAgentId
    ensures a in Next(h, step).missed && Next(h, step).missed[a] == 0
  {
    if step.Commit? { FreshAgentId(h, a); }
  }

  lemma {:induction false} UnregisteredStays(h: Hub, steps: seq<Step>, a: string)
    requires Legal(h, steps) && a !in h.reg.byAgentId
    requires forall i :: 0 <= i < |steps| ==> !Contact(steps[i], a)
    ensures a !in Exec(h, steps).reg.byAgentId
    decreases |steps|
  {
    if steps != [] {
      if steps[0].Tick? { EvictEachFrame(Bump(h), steps[0].dead); }
      UnregisteredStays(Next(h, steps[0]), steps[1..], a);
    }
  }

  lemma {:induction false} FindLastContact(steps: seq<Step>, a: string) returns (k: nat)
    ensures k == 0 ==> forall i :: 0 <= i < |steps| ==> !Contact(steps[i], a)
    ensures k > 0 ==> LastContact(steps, a, k)
    decreases |steps|
  {
    k := 0;
    if steps != [] {
      var n := |steps| - 1;
      k := FindLastContact(steps[..n], a);
      if Contact(steps[n], a) { k := n + 1; }
    }
  }

  lemma CountsFromContact(h: Hub, step: Step, steps: seq<Step>, a: string)
    requires Inv(h) && Enabled(h, step) && Contact(step, a) && Legal(Next(h, step), steps)
    requires forall i :: 0 <= i < |steps| ==> !Contact(steps[i], a)
    requires a in Exec(Next(h, step), steps).reg.byAgentId
    ensures var end := Exec(Next(h, step), steps); a in end.missed && end.missed[a] == Ticks(steps)
  {
    var mid := Next(h, step);
    if a !in mid.reg.byAgentId { UnregisteredStays(mid, steps, a); }
    ContactResets(h, step, a);
    InvNext(h, step);
    assert WasRegistered(mid, a) by { assert A.Live(mid.reg, mid.reg.byAgentId[a]); }
    CounterIsExact(mid, steps, a);
  }

  lemma CounterFrom(h0: Hub, steps: seq<Step>, a: string, k: nat)
    requires Inv(h0) && Legal(h0, steps) && a in Exec(h0, steps).reg.byAgentId && LastContact(steps, a, k)
    ensures var h := Exec(h0, steps); a in h.missed && h.missed[a] == Ticks(steps[k..])
  {
    StepOf(h0, steps, k - 1);
    Split(h0, steps, k);
    CountsFromContact(Exec(h0, steps[..k - 1]), steps[k - 1], steps[k..], a);
  }

  /**
   In every run, a registered agent's counter is the number of ticks since the
   hub last heard from it, and it heard from it at least once: the
   registration, or the last pong if there was one since.
   */
  lemma CounterIsTicksSinceContact(steps: seq<Step>, a: string) returns (k: nat)
    requires Legal(START, steps) && a in Exec(START, steps).reg.byAgentId
    ensures LastContact(steps, a, k)
    ensures var h := Exec(START, steps); a in h.missed && h.missed[a] == Ticks(steps[k..])
  {
    k := FindLastContact(steps, a);
    if k == 0 {
      UnregisteredStays(START, steps, a);
    } else {
      StartInv();
      CounterFrom(START, steps, a, k);
    }
  }

  // ---- Leaving the registry -----------------------------------------------

  /** The agent's socket closes, its label is swept, or its label is registered again. */
  predicate LabelTaken(h: Hub, step: Step, a: string)
    requires a in h.reg.byAgentId
  {
    var s := h.reg.byAgentId[a];
    match step
    case Close(ws) => ws in h.reg.byWs && h.reg.byWs[ws] == s
    case Sweep(t) => t.accountId == s.accountId && t.name == s.name
    case Commit(t, _, replaced) => Admits(h, t, replaced) && t.accountId == s.accountId && t.name == s.name
    case _ => false
  }

  lemma LeavesByTick(h: Hub, dead: seq<A.Session>, a: string)
    requires Inv(h) && Enabled(h, Tick(dead)) && a in h.reg.byAgentId
    ensures a in h.missed
    ensures a !in Next(h, Tick(dead)).reg.byAgentId <==> h.missed[a] + 1 >= MAX_MISSED_PINGS
  {
    InvTick(h, dead);
    var s, h' := h.reg.byAgentId[a], Next(h, Tick(dead));
    assert A.Live(h.reg, s) && (Silent(h, s) <==> h.missed[a] + 1 >= MAX_MISSED_PINGS);
    EvictEachFrame(Bump(h), dead);
    if a in h'.reg.byAgentId {
      assert A.Live(h'.reg, h'.reg.byAgentId[a]);
      assert A.Live(h.reg, h'.reg.byAgentId[a]);
    }
  }

  /** A registered agent holds its own label, and nobody else does. */
  lemma HoldsItsLabel(h: Hub, a: string, accountId: string, name: string)
    requires A.Sound(h.reg) && a in h.reg.byAgentId
    ensures A.Live(h.reg, h.reg.byAgentId[a])
    ensures Holds(h, accountId, name, a) <==>
              h.reg.byAgentId[a].accountId == accountId && h.reg.byAgentId[a].name == name
  {
    assert A.Live(h.reg, h.reg.byAgentId[a]);
    if A.Held(h.reg, accountId, name) { assert A.Live(h.reg, h.reg.accounts[accountId][name]); }
  }

  lemma LeavesByEvict(h: Hub, accountId: string, name: string, a: string)
    requires A.Sound(h.reg) && a in h.reg.byAgentId
    ensures a !in A.Evict(h.reg, accountId, name).byAgentId <==>
              h.reg.byAgentId[a].accountId == accountId && h.reg.byAgentId[a].name == name
  {
    HoldsItsLabel(h, a, accountId, name);
    RegisteredAfterEvict(h, accountId, name, a);
  }

  /** The step drops the agent exactly if it takes its label. */
  ghost predicate DropsByLabel(h: Hub, step: Step, a: string)
    requires P.Inv(h.book) && Enabled(h, step) && a in h.reg.byAgentId
  {
    a !in Next(h, step).reg.byAgentId <==> LabelTaken(h, step, a)
  }

  lemma LeavesByClose(h: Hub, ws: nat, a: string)
    requires P.Inv(h.book) && A.Sound(h.reg) && a in h.reg.byAgentId
    ensures DropsByLabel(h, Close(ws), a)
  {
    if ws in h.reg.byWs {
      LeavesByEvict(h, h.reg.byWs[ws].accountId, h.reg.byWs[ws].name, a);
      assert A.Live(h.reg, h.reg.byWs[ws]) && A.Live(h.reg, h.reg.byAgentId[a]);
    }
  }

  lemma LeavesBySweep(h: Hub, t: A.Session, a: string)
    requires P.Inv(h.book) && A.Sound(h.reg) && t in h.ever && a in h.reg.byAgentId
    ensures DropsByLabel(h, Sweep(t), a)
  {
    LeavesByEvict(h, t.accountId, t.name, a);
    SweepEvicts(h, t);
  }

  lemma SweepEvicts(h: Hub, t: A.Session)
    requires P.Inv(h.book) && t in h.ever
    ensures Next(h, Sweep(t)).reg == A.Evict(h.reg, t.accountId, t.name)
  {
  }

  lemma LeavesByCommit(h: Hub, step: Step, a: string)
    requires Inv(h) && Enabled(h, step) && step.Commit? && a in h.reg.byAgentId
    ensures DropsByLabel(h, step, a)
  {
    FreshAgentId(h, step.agentId);
    if Admits(h, step.ticket, step.replaced) {
      HoldsItsLabel(h, a, step.ticket.accountId, step.ticket.name);
      RegisteredAfter(h, step.ticket, step.agentId, step.replaced, a);
    }
  }

  lemma OthersKeepAgents(h: Hub, step: Step, a: string)
    requires P.Inv(h.book) && Enabled(h, step) && a in h.reg.byAgentId
    requires !step.Tick? && !step.Close? && !step.Sweep? && !step.Commit?
    ensures DropsByLabel(h, step, a)
  {
  }

  lemma LeavesOtherwise(h: Hub, step: Step, a: string)
    requires Inv(h) && Enabled(h, step) && !step.Tick? && a in h.reg.byAgentId
    ensures DropsByLabel(h, step, a)
  {
    match step
    case Close(ws) => LeavesByClose(h, ws, a);
    case Sweep(t) => LeavesBySweep(h, t, a);
    case Commit(_, _, _) => LeavesByCommit(h, step, a);
    case _ => OthersKeepAgents(h, step, a);
  }

  /**
   How an agent leaves: in every run, a step drops a registered agent if and
   only if it takes the agent's label from it, or it is a tick and this makes
   `MAX_MISSED_PINGS` ticks since the hub last heard from the agent.
   */
  lemma AgentLeavesIff(steps: seq<Step>, step: Step, a: string) returns (k: nat)
    requires Legal(START, steps) && P.Inv(Exec(START, steps).book) && Enabled(Exec(START, steps), step)
    requires a in Exec(START, steps).reg.byAgentId
    ensures LastContact(steps, a, k)
    ensures a !in Next(Exec(START, steps), step).reg.byAgentId <==>
              || LabelTaken(Exec(START, steps), step, a)
              || (step.Tick? && Ticks(steps[k..]) + 1 >= MAX_MISSED_PINGS)
  {
    StartInv();
    InvExec(START, steps);
    k := CounterIsTicksSinceContact(steps, a);
    if step.Tick? {
      LeavesByTick(Exec(START, steps), step.dead, a);
    } else {
      LeavesOtherwise(Exec(START, steps), step, a);
    }
  }

  // ---- An agent that answers ----------------------------------------------

  lemma {:induction false} TicksConcat(a: seq<Step>, b: seq<Step>)
    ensures Ticks(a + b) == Ticks(a) + Ticks(b)
  {
    if a == [] {
      assert a + b == b;
    } else {
      assert (a + b)[1..] == a[1..] + b;
      TicksConcat(a[1..], b);
    }
  }

  /** From step `first` on, every tick is one of at most `MAX_MISSED_PINGS - 1` since some contact. */
  ghost predicate Answers(steps: seq<Step>, a: string, first: nat) {
    forall i :: first <= i < |steps| && steps[i].Tick? ==>
      exists k :: 0 < k <= i && Contact(steps[k - 1], a) && Ticks(steps[k..i]) + 1 <= MAX_MISSED_PINGS - 1
  }

  /** The agent is registered `i` steps into the run. */
  ghost predicate RegisteredAt(steps: seq<Step>, a: string, i: nat) {
    i <= |steps| && Legal(START, steps[..i]) && a in Exec(START, steps[..i]).reg.byAgentId
  }

  /** If it is registered then, the next step does not take its label. */
  ghost predicate KeepsItsLabel(steps: seq<Step>, a: string, i: nat) {
    i < |steps| && (RegisteredAt(steps, a, i) ==> !LabelTaken(Exec(START, steps[..i]), steps[i], a))
  }

  lemma AnswerInTime(steps: seq<Step>, a: string, i: nat, k: nat)
    requires Answers(steps, a, i)
    requires i < |steps| && steps[i].Tick? && LastContact(steps[..i], a, k)
    ensures Ticks(steps[..i][k..]) + 1 < MAX_MISSED_PINGS
  {
    var j :| 0 < j <= i && Contact(steps[j - 1], a) && Ticks(steps[j..i]) + 1 <= MAX_MISSED_PINGS - 1;
    assert steps[..i][j - 1] == steps[j - 1];
    assert j <= k;
    assert steps[j..i] == steps[j..k] + steps[..i][k..];
    TicksConcat(steps[j..k], steps[..i][k..]);
  }

  lemma KeptOneStep(steps: seq<Step>, a: string, i: nat)
    requires Legal(START, steps) && RegisteredAt(steps, a, i) && KeepsItsLabel(steps, a, i) && Answers(steps, a, i)
    ensures RegisteredAt(steps, a, i + 1)
  {
    StartInv();
    StepOf(START, steps, i);
    var k := AgentLeavesIff(steps[..i], steps[i], a);
    if steps[i].Tick? { AnswerInTime(steps, a, i, k); }
  }

  /**
   An agent that answers at least once in every `MAX_MISSED_PINGS - 1` ticks is
   never dropped by a tick: once registered, it stays registered for as long as
   no step takes its label.
   */
  lemma {:induction false} AnsweringAgentIsKept(steps: seq<Step>, a: string, first: nat, last: nat)
    requires Legal(START, steps) && first <= last <= |steps| && RegisteredAt(steps, a, first)
    requires Answers(steps, a, first) && forall i :: first <= i < last ==> KeepsItsLabel(steps, a, i)
    ensures RegisteredAt(steps, a, last)
    decreases last
  {
    if first < last {
      AnsweringAgentIsKept(steps, a, first, last - 1);
      assert KeepsItsLabel(steps, a, last - 1);
      KeptOneStep(steps, a, last - 1);
    }
  }
}
