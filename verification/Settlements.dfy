/**
 Which callback a tunneled request gets in the hub, and why: per step, over
 whole runs, and for the messages of a batch.
 */
module Settlements {
  import opened Options
  import opened HubMachine
  import opened HubProperties
  import opened HubServer
  import A = Agents
  import P = PendingRequests
  import B = Batching

  const DISCONNECTED := P.Rejected("AGENT_DISCONNECTED")

  predicate HasLabel(s: A.Session, r: P.Request) { s.accountId == r.accountId && s.name == r.name }

  ghost predicate AnyHasLabel(dead: seq<A.Session>, r: P.Request) { exists s :: s in dead && HasLabel(s, r) }

  /** What a step decides about a request that is pending, if it concerns it at all. */
  ghost function Decides(h: Hub, step: Step, r: P.Request): Option<P.Outcome> {
    match step
    case Request(e) => P.Verdict(h.book, e, r)
    case Close(ws) => if ws in h.reg.byWs && HasLabel(h.reg.byWs[ws], r) then Some(DISCONNECTED) else None
    case Sweep(s) => if HasLabel(s, r) then Some(DISCONNECTED) else None
    case Tick(dead) => if AnyHasLabel(dead, r) then Some(DISCONNECTED) else None
    case _ => None
  }

  /** Between `b` and `b'`, request `u` got the callback that was decided, or none. */
  ghost predicate Got(b: P.Book, u: nat, decided: Option<P.Outcome>, b': P.Book)
    requires u < |b.issued| && |b.history| == |b.issued|
  {
    && |b'.history| == |b'.issued| && u < |b'.issued| && b'.issued[u] == b.issued[u]
    && b'.history[u] ==
         if P.IsPending(b, u) && decided.Some? then [P.Settlement(decided.value, b.now)] else b.history[u]
  }

  lemma FirstOrRest(dead: seq<A.Session>, r: P.Request)
    requires dead != []
    ensures AnyHasLabel(dead, r) <==> HasLabel(dead[0], r) || AnyHasLabel(dead[1..], r)
  {
    assert dead == [dead[0]] + dead[1..];
  }

  lemma {:induction false} EvictEachCallbacks(h: Hub, dead: seq<A.Session>, u: nat)
    requires P.Inv(h.book) && u < |h.book.issued|
    ensures var b, b' := h.book, EvictEach(h, dead).book;
      && b'.now == b.now && b'.issued == b.issued && |b'.history| == |b.history|
      && var gone := AnyHasLabel(dead, b.issued[u]);
         && Got(b, u, if gone then Some(DISCONNECTED) else None, b')
         && (P.IsPending(b', u) <==> P.IsPending(b, u) && !gone)
    decreases |dead|
  {
    if dead != [] {
      var e := P.AgentGone(dead[0].accountId, dead[0].name);
      var mid := EvictLabel(h, dead[0].accountId, dead[0].name);
      P.CallbackIff(h.book, e, u);
      P.InvApply(h.book, e);
      assert mid.book == P.Apply(h.book, e);
      EvictEachCallbacks(mid, dead[1..], u);
      FirstOrRest(dead, h.book.issued[u]);
    }
  }

  lemma EvictCallbacks(h: Hub, accountId: string, name: string, u: nat)
    requires P.Inv(h.book) && u < |h.book.issued|
    ensures var r := h.book.issued[u];
      Got(h.book, u, if accountId == r.accountId && name == r.name then Some(DISCONNECTED) else None,
          EvictLabel(h, accountId, name).book)
  {
    P.CallbackIff(h.book, P.AgentGone(accountId, name), u);
  }

  /** Which callback a step of the hub runs for which request. */
  lemma HubCallbackIff(h: Hub, step: Step, u: nat)
    requires P.Inv(h.book) && Enabled(h, step) && u < |h.book.issued|
    ensures Got(h.book, u, Decides(h, step, h.book.issued[u]), Next(h, step).book)
  {
    match step
    case Request(e) => P.CallbackIff(h.book, e, u);
    case Close(ws) => if ws in h.reg.byWs { EvictCallbacks(h, h.reg.byWs[ws].accountId, h.reg.byWs[ws].name, u); }
    case Sweep(s) => EvictCallbacks(h, s.accountId, s.name, u);
    case Tick(dead) => EvictEachCallbacks(Bump(h), dead, u);
    case _ => NoCallback(h, step);
  }

  lemma NoCallback(h: Hub, step: Step)
    requires P.Inv(h.book) && Enabled(h, step)
    requires !step.Request? && !step.Close? && !step.Sweep? && !step.Tick?
    ensures Next(h, step).book == h.book
  {
  }

  lemma {:induction false} EvictEachIssues(h: Hub, dead: seq<A.Session>)
    requires P.Inv(h.book)
    ensures EvictEach(h, dead).book.issued == h.book.issued
    decreases |dead|
  {
    if dead != [] {
      P.InvApply(h.book, P.AgentGone(dead[0].accountId, dead[0].name));
      EvictEachIssues(EvictLabel(h, dead[0].accountId, dead[0].name), dead[1..]);
    }
  }

  /** Requests enter one at a time, with no callback run. */
  lemma NewRequest(h: Hub, step: Step, u: nat)
    requires P.Inv(h.book) && Enabled(h, step) && |h.book.issued| <= u
    ensures var b' := Next(h, step).book; u < |b'.issued| && u < |b'.history| ==> b'.history[u] == []
  {
    match step
    case Request(e) =>
    case Tick(dead) => EvictEachIssues(Bump(h), dead); P.InvApply(h.book, P.AgentGone("", "")); TickHistory(h, dead);
    case _ =>
  }

  lemma TickHistory(h: Hub, dead: seq<A.Session>)
    requires P.Inv(h.book)
    ensures P.Inv(EvictEach(Bump(h), dead).book)
  {
    EvictEachFrame(Bump(h), dead);
  }

  /** Step `k` of the run found request `u` pending and settled it as it is settled at the end. */
  ghost predicate SettledAt(steps: seq<Step>, u: nat, k: nat)
    requires Legal(START, steps)
  {
    && k < |steps| && Legal(START, steps[..k])
    && var h, b := Exec(START, steps[..k]), Exec(START, steps).book;
    && u < |h.book.issued| && u < |b.issued| && u < |b.history|
    && b.issued[u] == h.book.issued[u] && P.IsPending(h.book, u)
    && Decides(h, steps[k], b.issued[u]).Some?
    && b.history[u] == [P.Settlement(Decides(h, steps[k], b.issued[u]).value, h.book.now)]
  }

  lemma {:induction false} SettlingStep(steps: seq<Step>, u: nat) returns (k: nat)
    requires Legal(START, steps)
    requires u < |Exec(START, steps).book.history| && Exec(START, steps).book.history[u] != []
    ensures SettledAt(steps, u, k)
    decreases |steps|
  {
    var n := |steps| - 1;
    LastStep(steps, u);
    var h := Exec(START, steps[..n]);
    if u < |h.book.history| && h.book.history[u] != [] {
      k := SettlingStep(steps[..n], u);
      assert steps[..n][..k] == steps[..k];
    } else {
      k := n;
    }
  }

  /** What the last step of a run did to a request that is settled at the end. */
  lemma LastStep(steps: seq<Step>, u: nat)
    requires Legal(START, steps)
    requires u < |Exec(START, steps).book.history| && Exec(START, steps).book.history[u] != []
    ensures steps != [] && Legal(START, steps[..|steps| - 1])
    ensures var h, b := Exec(START, steps[..|steps| - 1]), Exec(START, steps).book; var step := steps[|steps| - 1];
      && u < |h.book.issued| == |h.book.history| && u < |b.issued| && b.issued[u] == h.book.issued[u]
      && (if h.book.history[u] != [] then b.history[u] == h.book.history[u]
          else P.IsPending(h.book, u) && Decides(h, step, b.issued[u]).Some?
               && b.history[u] == [P.Settlement(Decides(h, step, b.issued[u]).value, h.book.now)])
  {
    var n := |steps| - 1;
    assert steps[..n + 1] == steps;
    StartInv();
    StepOf(START, steps, n);
    var h := Exec(START, steps[..n]);
    if u < |h.book.issued| {
      assert P.Placed(h.book, u);
      HubCallbackIff(h, steps[n], u);
    } else {
      InvExec(START, steps);
      NewRequest(h, steps[n], u);
    }
  }

  /**
   Over whole runs of the hub, a request's callback tells what happened to it.
   It is `resolve` if and only if the settling step was a response for its id;
   it rejects with a code only if that step was an agent error with that code,
   its timer, or the end of its agent: the agent's socket closed, its label was
   swept, or a tick dropped the session with its label.
   */
  lemma CallbackTellsStep(steps: seq<Step>, u: nat) returns (k: nat)
    requires Legal(START, steps)
    requires u < |Exec(START, steps).book.history| && Exec(START, steps).book.history[u] != []
    ensures SettledAt(steps, u, k)
    ensures var b := Exec(START, steps).book; var r, s := b.issued[u], b.history[u];
      && |s| == 1
      && (s[0].outcome == P.Resolved <==> steps[k] == Request(P.Answer(r.requestId)))
      && (forall code :: steps[k] == Request(P.Fail(r.requestId, code)) ==> s[0].outcome == P.Rejected(code))
      && (forall code :: s[0].outcome == P.Rejected(code) ==>
            || steps[k] == Request(P.Fail(r.requestId, code))
            || (steps[k].Request? && steps[k].event.Fire? && code == "AGENT_TIMEOUT")
            || (code == "AGENT_DISCONNECTED" && (steps[k].Close? || steps[k].Sweep? || steps[k].Tick?)))
  {
    k := SettlingStep(steps, u);
    StartInv();
    StepOf(START, steps, k);
  }

  // ---- Messages -----------------------------------------------------------

  predicate Concerns(m: B.Msg, r: P.Request) { !m.Pong? && m.requestId == r.requestId }

  function Meant(m: B.Msg): P.Outcome
    requires !m.Pong?
  {
    if m.Response? then P.Resolved else P.Rejected(m.code)
  }

  /** A message settles the request pending under its id, as the agent meant it, and a pong clears one counter; nothing else changes. */
  lemma MessageEffect(h: Hub, m: B.Msg, u: nat)
    requires Inv(h) && u < |h.book.issued|
    ensures var h', hit := Handle(h, m), P.IsPending(h.book, u) && Concerns(m, h.book.issued[u]);
      && Got(h.book, u, if Concerns(m, h.book.issued[u]) then Some(Meant(m)) else None, h'.book)
      && h'.book.issued == h.book.issued && h'.book.now == h.book.now
      && (P.IsPending(h'.book, u) <==> P.IsPending(h.book, u) && !hit)
      && h' == h.(book := h'.book, missed := h'.missed)
      && h'.missed == if m.Pong? && m.agentId in h.reg.byAgentId then h.missed[m.agentId := 0] else h.missed
  {
    if m.Response? {
      P.CallbackIff(h.book, P.Answer(m.requestId), u);
    } else if m.AgentError? {
      P.CallbackIff(h.book, P.Fail(m.requestId, m.code), u);
    }
  }

  /** Message `i` is the first that concerns request `u`, and settled it; none does if `i` is the number of messages. */
  ghost predicate SettledByFirst(b: P.Book, ms: seq<B.Msg>, u: nat, i: nat, b': P.Book)
    requires u < |b.issued|
  {
    && i <= |ms| && (forall j :: 0 <= j < i ==> !Concerns(ms[j], b.issued[u]))
    && b'.issued == b.issued && |b'.history| == |b.issued| && b'.now == b.now
    && (P.IsPending(b', u) <==> i == |ms|)
    && (if i == |ms| then b'.history[u] == []
        else Concerns(ms[i], b.issued[u]) && b'.history[u] == [P.Settlement(Meant(ms[i]), b.now)])
  }

  /** Between `b` and `b'` the message `m` was handled, as far as request `u` is concerned. */
  ghost predicate Handled(b: P.Book, m: B.Msg, u: nat, b': P.Book) {
    && u < |b.issued| && |b.history| == |b.issued| && b'.issued == b.issued && b'.now == b.now
    && Got(b, u, if Concerns(m, b.issued[u]) then Some(Meant(m)) else None, b')
    && (P.IsPending(b', u) <==> P.IsPending(b, u) && !Concerns(m, b.issued[u]))
  }

  lemma OneMoreMessage(b: P.Book, ms: seq<B.Msg>, m: B.Msg, u: nat, i: nat, mid: P.Book, b': P.Book) returns (j: nat)
    requires u < |b.issued| && SettledByFirst(b, ms, u, i, mid) && Handled(mid, m, u, b')
    ensures SettledByFirst(b, ms + [m], u, j, b')
  {
    j := if i == |ms| && !Concerns(m, b.issued[u]) then i + 1 else i;
    assert forall k :: 0 <= k < |ms| ==> (ms + [m])[k] == ms[k];
  }

  /** The same for the books between the messages of a batch. */
  lemma {:induction false} FirstSettles(books: seq<P.Book>, ms: seq<B.Msg>, u: nat) returns (i: nat)
    requires |books| == |ms| + 1 && u < |books[0].issued| == |books[0].history|
    requires P.IsPending(books[0], u) && books[0].history[u] == []
    requires forall j :: 0 <= j < |ms| ==> Handled(books[j], ms[j], u, books[j + 1])
    ensures SettledByFirst(books[0], ms, u, i, books[|ms|])
    decreases |ms|
  {
    i := 0;
    if ms != [] {
      var n := |ms| - 1;
      i := FirstSettles(books[..n + 1], ms[..n], u);
      assert ms == ms[..n] + [ms[n]];
      i := OneMoreMessage(books[0], ms[..n], ms[n], u, i, books[n], books[n + 1]);
    }
  }

  lemma MessageHandled(h: Hub, ms: seq<B.Msg>, j: nat, u: nat)
    requires Inv(h) && j < |ms| && u < |h.book.issued| && HandleAll(h, ms[..j]).book.issued == h.book.issued
    ensures Handled(HandleAll(h, ms[..j]).book, ms[j], u, HandleAll(h, ms[..j + 1]).book)
  {
    HandleAllKeepsInv(h, ms[..j]);
    MessageEffect(HandleAll(h, ms[..j]), ms[j], u);
    assert ms[..j + 1][..j] == ms[..j] && ms[..j + 1][j] == ms[j];
  }

  lemma {:induction false} BatchIssuesNone(h: Hub, ms: seq<B.Msg>)
    requires P.Inv(h.book)
    ensures HandleAll(h, ms).book.issued == h.book.issued
  {
    if ms != [] { BatchIssuesNone(h, ms[..|ms| - 1]); }
  }

  /**
   What a batch does to a pending request: the first of its messages that
   carries the request's id settles it, a response by `resolve` and an agent
   error by `reject` with its code; if there is none, the request stays
   pending.
   */
  lemma BatchSettles(h: Hub, ms: seq<B.Msg>, u: nat) returns (i: nat)
    requires Inv(h) && u < |h.book.issued| && P.IsPending(h.book, u)
    ensures SettledByFirst(h.book, ms, u, i, HandleAll(h, ms).book)
  {
    assert P.Placed(h.book, u);
    var books := seq(|ms| + 1, j requires 0 <= j <= |ms| => HandleAll(h, ms[..j]).book);
    forall j | 0 <= j < |ms| ensures Handled(books[j], ms[j], u, books[j + 1]) {
      BatchIssuesNone(h, ms[..j]);
      MessageHandled(h, ms, j, u);
    }
    assert ms[..0] == [] && ms[..|ms|] == ms;
    i := FirstSettles(books, ms, u);
  }
}
