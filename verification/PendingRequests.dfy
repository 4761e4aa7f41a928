/**
 Requests that the hub has forwarded and not yet answered. A request is
 settled by a response, an agent error, its timer, or the loss of its agent;
 settling runs exactly one of its two callbacks. The book below records every
 callback run, so that "exactly once" is a statement about runs.
 */
module PendingRequests {
  import opened Options

  datatype Request = Request(requestId: string, accountId: string, name: string, deadline: nat)

  datatype Outcome = Resolved | Rejected(code: string)

  datatype Settlement = Settlement(outcome: Outcome, at: nat)

  /**
   `issued` holds every request object ever enqueued; a request's index is its
   identity. `pending` is the registry's map, `timers` the armed timers.
   `history[u]` lists the callbacks run for request `u`; `lost` are requests
   whose map entry was overwritten by a later request with the same id.
   */
  datatype Book = Book(now: nat, issued: seq<Request>, pending: map<string, nat>, timers: set<nat>,
                       history: seq<seq<Settlement>>, lost: set<nat>)

  const EMPTY := Book(0, [], map[], {}, [], {})

  ghost predicate WellFormed(b: Book) {
    && |b.history| == |b.issued|
    && (forall id :: id in b.pending ==> b.pending[id] < |b.issued| && b.issued[b.pending[id]].requestId == id)
    && (forall u :: u in b.timers ==> u < |b.issued|)
  }

  function Enqueue(b: Book, r: Request): Book {
    b.(issued := b.issued + [r],
       pending := b.pending[r.requestId := |b.issued|],
       timers := b.timers + {|b.issued|},
       history := b.history + [[]],
       lost := if r.requestId in b.pending then b.lost + {b.pending[r.requestId]} else b.lost)
  }

  function Uids(b: Book, ids: set<string>): set<nat> {
    set id | id in ids && id in b.pending :: b.pending[id]
  }

  /** Each pending request among `ids` leaves the map, its timer is cleared and one callback runs. */
  function Settle(b: Book, ids: set<string>, outcome: Outcome): Book {
    var uids := Uids(b, ids);
    b.(pending := b.pending - ids,
       timers := b.timers - uids,
       history := seq(|b.history|, u requires 0 <= u < |b.history| =>
         if u in uids then b.history[u] + [Settlement(outcome, b.now)] else b.history[u]))
  }

  predicate Serves(r: Request, accountId: string, name: string) {
    r.accountId == accountId && r.name == name
  }

  ghost function OfAgent(b: Book, accountId: string, name: string): set<string>
    requires WellFormed(b)
  {
    set id | id in b.pending && Serves(b.issued[b.pending[id]], accountId, name)
  }

  // ---- Events -------------------------------------------------------------

  datatype Event =
    | Enter(request: Request)
    | Answer(requestId: string)
    | Fail(requestId: string, code: string)
    | AgentGone(accountId: string, name: string)
    | Fire(u: nat)
    | Wait(until: nat)

  /** Timers fire on time: the clock never passes an armed deadline. */
  ghost predicate Enabled(b: Book, e: Event) {
    match e
    case Enter(r) => b.now <= r.deadline
    case Fire(u) => u in b.timers && u < |b.issued| && b.issued[u].deadline <= b.now
    case Wait(t) => b.now <= t && forall u :: u in b.timers && u < |b.issued| ==> t <= b.issued[u].deadline
    case _ => true
  }

  ghost function Apply(b: Book, e: Event): Book
    requires WellFormed(b) && Enabled(b, e)
  {
    match e
    case Enter(r) => Enqueue(b, r)
    case Answer(id) => Settle(b, {id}, Resolved)
    case Fail(id, code) => Settle(b, {id}, Rejected(code))
    case AgentGone(a, n) => Settle(b, OfAgent(b, a, n), Rejected("AGENT_DISCONNECTED"))
    case Fire(u) => Settle(b.(timers := b.timers - {u}), {b.issued[u].requestId}, Rejected("AGENT_TIMEOUT"))
    case Wait(t) => b.(now := t)
  }

  // ---- Every request is in exactly one place ------------------------------

  predicate IsPending(b: Book, u: nat)
    requires u < |b.issued|
  {
    b.issued[u].requestId in b.pending && b.pending[b.issued[u].requestId] == u
  }

  /** Waiting with an armed timer, answered once and in time, or overwritten and never answered. */
  ghost predicate Placed(b: Book, u: nat)
    requires u < |b.issued| && |b.history| == |b.issued|
  {
    if IsPending(b, u) then
      b.history[u] == [] && u in b.timers && b.now <= b.issued[u].deadline && u !in b.lost
    else if u in b.lost then
      b.history[u] == []
    else
      |b.history[u]| == 1 && b.history[u][0].at <= b.issued[u].deadline && b.history[u][0].at <= b.now
  }

  ghost predicate Inv(b: Book) {
    && WellFormed(b)
    && (forall u :: u in b.timers ==> b.now <= b.issued[u].deadline)
    && (forall u :: u in b.lost ==> u < |b.issued|)
    && (forall u :: 0 <= u < |b.issued| ==> Placed(b, u))
  }

  lemma InvSettle(b: Book, ids: set<string>, outcome: Outcome)
    requires Inv(b)
    ensures Inv(Settle(b, ids, outcome))
  {
    var b' := Settle(b, ids, outcome);
    forall u | 0 <= u < |b.issued| ensures Placed(b', u) {
      assert Placed(b, u);
      var id := b.issued[u].requestId;
      if IsPending(b, u) && id in ids {
        assert u in Uids(b, ids);
      } else {
        assert u !in Uids(b, ids);
      }
    }
  }

  /** A stray timer, one whose request is no longer in the map, may be dropped. */
  lemma InvFire(b: Book, u: nat)
    requires Inv(b) && Enabled(b, Fire(u))
    ensures Inv(Apply(b, Fire(u)))
  {
    var id := b.issued[u].requestId;
    if IsPending(b, u) {
      InvSettle(b, {id}, Rejected("AGENT_TIMEOUT"));
      assert u in Uids(b, {id});
      assert Apply(b, Fire(u)) == Settle(b, {id}, Rejected("AGENT_TIMEOUT"));
    } else {
      var c := b.(timers := b.timers - {u});
      forall v | 0 <= v < |b.issued| ensures Placed(c, v) { assert Placed(b, v); }
      InvSettle(c, {id}, Rejected("AGENT_TIMEOUT"));
    }
  }

  lemma InvEnter(b: Book, r: Request)
    requires Inv(b) && b.now <= r.deadline
    ensures Inv(Enqueue(b, r))
  {
    var b' := Enqueue(b, r);
    forall u | 0 <= u < |b'.issued| ensures Placed(b', u) {
      if u < |b.issued| { assert Placed(b, u); }
    }
  }

  lemma InvApply(b: Book, e: Event)
    requires Inv(b) && Enabled(b, e)
    ensures Inv(Apply(b, e))
  {
    match e
    case Enter(r) => InvEnter(b, r);
    case Answer(id) => InvSettle(b, {id}, Resolved);
    case Fail(id, code) => InvSettle(b, {id}, Rejected(code));
    case AgentGone(a, n) => InvSettle(b, OfAgent(b, a, n), Rejected("AGENT_DISCONNECTED"));
    case Fire(u) => InvFire(b, u);
    case Wait(t) => forall u | 0 <= u < |b.issued| ensures Placed(Apply(b, e), u) { assert Placed(b, u); }
  }

  // ---- Runs ---------------------------------------------------------------

  ghost predicate Legal(b: Book, es: seq<Event>)
    decreases |es|
  {
    es == [] || (WellFormed(b) && Enabled(b, es[0]) && Legal(Apply(b, es[0]), es[1..]))
  }

  ghost function Exec(b: Book, es: seq<Event>): Book
    requires Legal(b, es)
    decreases |es|
  {
    if es == [] then b else Exec(Apply(b, es[0]), es[1..])
  }

  lemma {:induction false} InvExec(b: Book, es: seq<Event>)
    requires Inv(b) && Legal(b, es)
    ensures Inv(Exec(b, es))
    decreases |es|
  {
    if es != [] {
      InvApply(b, es[0]);
      InvExec(Apply(b, es[0]), es[1..]);
    }
  }

  ghost predicate Reuses(b: Book, e: Event) { e.Enter? && e.request.requestId in b.pending }

  /** No request of the run carries the id of one that is still pending. */
  ghost predicate FreshIds(b: Book, es: seq<Event>)
    requires Legal(b, es)
    decreases |es|
  {
    es == [] || (!Reuses(b, es[0]) && FreshIds(Apply(b, es[0]), es[1..]))
  }

  lemma {:induction false} LostGrows(b: Book, es: seq<Event>)
    requires Inv(b) && Legal(b, es)
    ensures b.lost <= Exec(b, es).lost
    decreases |es|
  {
    if es != [] {
      InvApply(b, es[0]);
      LostGrows(Apply(b, es[0]), es[1..]);
    }
  }

  /** Nothing is lost exactly when no pending id is reused. */
  lemma {:induction false} NothingLostIff(b: Book, es: seq<Event>)
    requires Inv(b) && Legal(b, es)
    ensures Exec(b, es).lost == b.lost <==> FreshIds(b, es)
    decreases |es|
  {
    if es != [] {
      InvApply(b, es[0]);
      LostGrows(Apply(b, es[0]), es[1..]);
      NothingLostIff(Apply(b, es[0]), es[1..]);
      if Reuses(b, es[0]) {
        var u := b.pending[es[0].request.requestId];
        assert Placed(b, u);
        assert u in Apply(b, es[0]).lost && u !in b.lost;
      }
    }
  }

  /**
   Exactly-once settlement. Start from an empty book and let responses, agent
   errors, timers, disconnects and waiting interleave in any way. With fresh
   ids, in every state each request is either still pending, with its deadline
   not passed, or has run exactly one callback, no later than its deadline.
   */
  lemma ExactlyOnce(es: seq<Event>)
    requires Legal(EMPTY, es)
    ensures var b := Exec(EMPTY, es);
      && |b.history| == |b.issued|
      && (FreshIds(EMPTY, es) <==> b.lost == {})
      && (FreshIds(EMPTY, es) ==> forall u :: 0 <= u < |b.issued| ==>
           if IsPending(b, u) then b.history[u] == [] && b.now <= b.issued[u].deadline
           else |b.history[u]| == 1 && b.history[u][0].at <= b.issued[u].deadline)
  {
    InvExec(EMPTY, es);
    NothingLostIff(EMPTY, es);
    var b := Exec(EMPTY, es);
    forall u | 0 <= u < |b.issued| && FreshIds(EMPTY, es)
      ensures if IsPending(b, u) then b.history[u] == [] && b.now <= b.issued[u].deadline
              else |b.history[u]| == 1 && b.history[u][0].at <= b.issued[u].deadline
    {
      assert Placed(b, u);
    }
  }

  /**
   The same without the assumption on ids: a reused id costs the earlier
   request its answer for ever, whatever happens afterwards, and every other
   request is still settled exactly once and in time.
   */
  lemma LostForEver(es: seq<Event>, more: seq<Event>, u: nat)
    requires Legal(EMPTY, es) && Legal(Exec(EMPTY, es), more)
    requires u in Exec(EMPTY, es).lost
    ensures var b := Exec(Exec(EMPTY, es), more);
      && |b.history| == |b.issued|
      && u in b.lost && u < |b.history| && b.history[u] == []
      && forall v :: 0 <= v < |b.issued| && v !in b.lost && b.now > b.issued[v].deadline ==> |b.history[v]| == 1
  {
    InvExec(EMPTY, es);
    LostGrows(Exec(EMPTY, es), more);
    InvExec(Exec(EMPTY, es), more);
    var b := Exec(Exec(EMPTY, es), more);
    assert Placed(b, u);
    forall v | 0 <= v < |b.issued| && v !in b.lost && b.now > b.issued[v].deadline ensures |b.history[v]| == 1 {
      assert Placed(b, v);
    }
  }

  /** A reused id in action: the second request is timed out by the first one's timer. */
  lemma ReusedIdRun(r0: Request, r1: Request, t: nat)
    requires r0.requestId == r1.requestId && t <= r0.deadline <= r1.deadline
    ensures var es := [Enter(r0), Wait(t), Enter(r1), Wait(r0.deadline), Fire(0)];
      && Legal(EMPTY, es)
      && Exec(EMPTY, es).history == [[], [Settlement(Rejected("AGENT_TIMEOUT"), r0.deadline)]]
  {
    var b1 := Enqueue(EMPTY, r0);
    var b2 := b1.(now := t);
    var b3 := Enqueue(b2, r1);
    var tail := [Wait(r0.deadline)] + ([Fire(0)] + []);
    FiringTheFirst(b3.(now := r0.deadline), r0, r1);
    Unroll(b3, Wait(r0.deadline), [Fire(0)] + []);
    Unroll(b2, Enter(r1), tail);
    Unroll(b1, Wait(t), [Enter(r1)] + tail);
    Unroll(EMPTY, Enter(r0), [Wait(t)] + ([Enter(r1)] + tail));
    assert [Enter(r0), Wait(t), Enter(r1), Wait(r0.deadline), Fire(0)] ==
           [Enter(r0)] + ([Wait(t)] + ([Enter(r1)] + tail));
  }

  lemma Unroll(b: Book, e: Event, es: seq<Event>)
    requires WellFormed(b) && Enabled(b, e) && Legal(Apply(b, e), es)
    ensures Legal(b, [e] + es) && Exec(b, [e] + es) == Exec(Apply(b, e), es)
  {
    assert ([e] + es)[1..] == es;
  }

  lemma FiringTheFirst(b: Book, r0: Request, r1: Request)
    requires b.now == r0.deadline && b.issued == [r0, r1] && b.history == [[], []] && b.timers == {0, 1}
    requires r0.requestId == r1.requestId && b.pending == map[r0.requestId := 1]
    ensures Legal(b, [Fire(0)] + [])
    ensures Exec(b, [Fire(0)] + []).history == [[], [Settlement(Rejected("AGENT_TIMEOUT"), r0.deadline)]]
  {
    var c := b.(timers := b.timers - {0});
    assert Uids(c, {r0.requestId}) == {1};
    var want := [[], [Settlement(Rejected("AGENT_TIMEOUT"), r0.deadline)]];
    var h := Apply(b, Fire(0)).history;
    assert b.history[0] == [] && b.history[1] == [];
    assert |h| == 2 && h[0] == [] && h[1] == [] + [Settlement(Rejected("AGENT_TIMEOUT"), r0.deadline)];
    assert h[0] == want[0] && h[1] == want[1];
    Unroll(b, Fire(0), []);
  }

  // ---- Which callback runs ------------------------------------------------

  /** What an event decides about a pending request, if it concerns it at all. */
  ghost function Verdict(b: Book, e: Event, r: Request): Option<Outcome> {
    match e
    case Answer(id) => if id == r.requestId then Some(Resolved) else None
    case Fail(id, code) => if id == r.requestId then Some(Rejected(code)) else None
    case AgentGone(a, n) =>
      if a == r.accountId && n == r.name then Some(Rejected("AGENT_DISCONNECTED")) else None
    case Fire(u) =>
      if u < |b.issued| && b.issued[u].requestId == r.requestId then Some(Rejected("AGENT_TIMEOUT")) else None
    case _ => None
  }

  lemma SettleOnly(b: Book, ids: set<string>, outcome: Outcome, u: nat)
    requires Inv(b) && u < |b.issued|
    ensures var b' := Settle(b, ids, outcome); var hit := IsPending(b, u) && b.issued[u].requestId in ids;
      && b'.issued == b.issued && |b'.history| == |b.issued|
      && b'.history[u] == (if hit then [Settlement(outcome, b.now)] else b.history[u])
      && (IsPending(b', u) <==> IsPending(b, u) && !hit)
  {
    assert Placed(b, u);
    var hit := IsPending(b, u) && b.issued[u].requestId in ids;
    assert hit ==> u in Uids(b, ids);
    assert u in Uids(b, ids) ==> hit;
    assert [] + [Settlement(outcome, b.now)] == [Settlement(outcome, b.now)];
  }

  /** A stray timer changes no callback. */
  lemma FireOnly(b: Book, v: nat, u: nat)
    requires Inv(b) && Enabled(b, Fire(v)) && u < |b.issued|
    ensures CallbackRan(b, Fire(v), u, Apply(b, Fire(v)))
  {
    var id := b.issued[v].requestId;
    var c := b.(timers := b.timers - {v});
    assert Placed(b, u);
    assert Uids(c, {id}) == if id in b.pending then {b.pending[id]} else {};
    assert [] + [Settlement(Rejected("AGENT_TIMEOUT"), b.now)] == [Settlement(Rejected("AGENT_TIMEOUT"), b.now)];
  }

  /** Between `b` and `b'` the event ran for request `u` the callback it decided on, or none; a settled request stays so. */
  ghost predicate CallbackRan(b: Book, e: Event, u: nat, b': Book)
    requires u < |b.issued| && |b.history| == |b.issued|
  {
    var decided := Verdict(b, e, b.issued[u]);
    && |b'.history| == |b'.issued| && |b.issued| <= |b'.issued| && b'.issued[u] == b.issued[u]
    && b'.history[u] ==
         (if IsPending(b, u) && decided.Some? then [Settlement(decided.value, b.now)] else b.history[u])
    && (IsPending(b', u) <==>
          IsPending(b, u) && decided.None? && (e.Enter? ==> e.request.requestId != b.issued[u].requestId))
  }

  /**
   Which callback an event runs, and for whom: a response resolves the request
   pending under its id, an agent error rejects it with its own code, a lost
   agent rejects what waits for its account and label, a timer whatever has
   its id; no other callback is run.
   */
  lemma CallbackIff(b: Book, e: Event, u: nat)
    requires Inv(b) && Enabled(b, e) && u < |b.issued|
    ensures CallbackRan(b, e, u, Apply(b, e))
  {
    match e
    case Enter(_) => assert Placed(b, u);
    case Answer(id) => SettleOnly(b, {id}, Resolved, u);
    case Fail(id, code) => SettleOnly(b, {id}, Rejected(code), u);
    case AgentGone(a, n) => SettleOnly(b, OfAgent(b, a, n), Rejected("AGENT_DISCONNECTED"), u);
    case Fire(v) => FireOnly(b, v, u);
    case Wait(_) =>
  }

  /** A new request starts out pending, with no callback run. */
  lemma EntersPending(b: Book, r: Request)
    requires Inv(b) && b.now <= r.deadline
    ensures var b' := Apply(b, Enter(r)); var u := |b.issued|;
      b'.issued == b.issued + [r] && |b'.history| == u + 1 && b'.history[u] == [] && IsPending(b', u)
  {
  }

  lemma {:induction false} SettledStays(b: Book, es: seq<Event>, u: nat)
    requires Inv(b) && Legal(b, es) && u < |b.issued| && b.history[u] != []
    ensures var b' := Exec(b, es);
      u < |b'.issued| && |b'.history| == |b'.issued| && b'.history[u] == b.history[u] && b'.issued[u] == b.issued[u]
    decreases |es|
  {
    if es != [] {
      assert Placed(b, u);
      CallbackIff(b, es[0], u);
      InvApply(b, es[0]);
      SettledStays(Apply(b, es[0]), es[1..], u);
    }
  }

  /** Event `k` of the run found request `u` pending and settled it as it is settled at the end. */
  ghost predicate SettledAt(b: Book, es: seq<Event>, u: nat, k: nat)
    requires Legal(b, es)
  {
    && k < |es| && Legal(b, es[..k])
    && var before, end := Exec(b, es[..k]), Exec(b, es);
    && u < |before.issued| && u < |end.issued| && end.issued[u] == before.issued[u] && IsPending(before, u)
    && u < |end.history| && Verdict(before, es[k], before.issued[u]).Some?
    && end.history[u] == [Settlement(Verdict(before, es[k], before.issued[u]).value, before.now)]
  }

  lemma {:induction false} SettlingEvent(b: Book, es: seq<Event>, u: nat) returns (k: nat)
    requires Inv(b) && Legal(b, es) && (u < |b.issued| ==> b.history[u] == [])
    requires u < |Exec(b, es).history| && Exec(b, es).history[u] != []
    ensures SettledAt(b, es, u, k)
    decreases |es|
  {
    var b1 := Apply(b, es[0]);
    InvApply(b, es[0]);
    if u < |b.issued| { CallbackIff(b, es[0], u); }
    if u < |b1.issued| && b1.history[u] != [] {
      SettledStays(b1, es[1..], u);
      k := 0;
      assert es[..0] == [];
    } else {
      var j := SettlingEvent(b1, es[1..], u);
      k := j + 1;
      assert es[..k][1..] == es[1..][..j] && es[..k][0] == es[0];
    }
  }

  /**
   Over whole runs, what a request's callback says is what happened: there is
   one event that found the request pending and settled it, at that event's
   time. The callback is `resolve` if and only if the event was a response for
   its id, and rejects with a code only for an agent error with that code, its
   timer, or the loss of its agent.
   */
  lemma CallbackTellsEvent(es: seq<Event>, u: nat) returns (k: nat)
    requires Legal(EMPTY, es) && u < |Exec(EMPTY, es).history| && Exec(EMPTY, es).history[u] != []
    ensures SettledAt(EMPTY, es, u, k)
    ensures var end := Exec(EMPTY, es); var r := end.issued[u];
      && |end.history[u]| == 1
      && (end.history[u][0].outcome == Resolved <==> es[k] == Answer(r.requestId))
      && (forall code :: end.history[u][0].outcome == Rejected(code) ==>
            || es[k] == Fail(r.requestId, code)
            || (es[k] == AgentGone(r.accountId, r.name) && code == "AGENT_DISCONNECTED")
            || (es[k].Fire? && code == "AGENT_TIMEOUT"))
      && (forall code :: es[k] == Fail(r.requestId, code) ==> end.history[u][0].outcome == Rejected(code))
  {
    k := SettlingEvent(EMPTY, es, u);
  }

  // ---- Conservation -------------------------------------------------------

  ghost predicate EndedAs(b: Book, u: nat, resolved: bool)
    requires |b.history| == |b.issued|
  {
    u < |b.issued| && |b.history[u]| == 1 && b.history[u][0].outcome.Resolved? == resolved
  }

  ghost function WithOutcome(b: Book, resolved: bool): set<nat>
    requires |b.history| == |b.issued|
  {
    set u | u in Range(|b.issued|) && EndedAs(b, u, resolved)
  }

  ghost function Range(n: nat): (r: set<nat>)
    ensures |r| == n
    ensures forall u: nat :: u in r <==> u < n
  {
    if n == 0 then {} else Range(n - 1) + {n - 1}
  }

  lemma {:induction false} ValuesSize(m: map<string, nat>)
    requires forall i, j :: i in m && j in m && m[i] == m[j] ==> i == j
    ensures |m.Values| == |m|
  {
    if m != map[] {
      var k :| k in m;
      ValuesSize(m - {k});
      assert m.Values == (m - {k}).Values + {m[k]};
      assert m[k] !in (m - {k}).Values;
      assert (m - {k}).Keys == m.Keys - {k};
    }
  }

  lemma PendingValues(b: Book)
    requires Inv(b)
    ensures |b.pending.Values| == |b.pending|
    ensures forall u: nat :: u in b.pending.Values <==> u < |b.issued| && IsPending(b, u)
  {
    ValuesSize(b.pending);
    forall u: nat ensures u in b.pending.Values <==> u < |b.issued| && IsPending(b, u) {
      if u in b.pending.Values {
        var id :| id in b.pending && b.pending[id] == u;
      }
    }
  }

  ghost predicate OneOf(b: Book, u: nat)
    requires |b.history| == |b.issued|
  {
    var waiting, resolved, rejected := b.pending.Values, WithOutcome(b, true), WithOutcome(b, false);
    && (u in Range(|b.issued|) <==> u in waiting || u in resolved || u in rejected || u in b.lost)
    && !(u in waiting && (u in resolved || u in rejected || u in b.lost))
    && !(u in resolved && u in rejected) && !(u in b.lost && (u in resolved || u in rejected))
  }

  lemma EachInOnePart(b: Book, u: nat)
    requires Inv(b)
    ensures OneOf(b, u)
  {
    assert u < |b.issued| ==> Placed(b, u);
    PendingValues(b);
  }

  lemma PartsAddUp(b: Book)
    requires |b.history| == |b.issued| && forall u: nat :: OneOf(b, u)
    ensures |b.issued| == |b.pending.Values| + |WithOutcome(b, true)| + |WithOutcome(b, false)| + |b.lost|
  {
    var waiting, resolved, rejected := b.pending.Values, WithOutcome(b, true), WithOutcome(b, false);
    forall u: nat
      ensures u in Range(|b.issued|) <==> u in waiting || u in resolved || u in rejected || u in b.lost
      ensures !(u in waiting && (u in resolved || u in rejected || u in b.lost))
      ensures !(u in resolved && u in rejected) && !(u in b.lost && (u in resolved || u in rejected))
    {
      assert OneOf(b, u);
    }
    assert Range(|b.issued|) == waiting + resolved + rejected + b.lost;
    assert waiting !! resolved && (waiting + resolved) !! rejected && (waiting + resolved + rejected) !! b.lost;
  }

  lemma Counts(b: Book)
    requires Inv(b)
    ensures |b.issued| == |b.pending| + |WithOutcome(b, true)| + |WithOutcome(b, false)| + |b.lost|
  {
    forall u: nat ensures OneOf(b, u) { EachInOnePart(b, u); }
    PartsAddUp(b);
    PendingValues(b);
  }

  /** enqueued = pending + resolved + rejected + lost, in every reachable state. */
  lemma Conservation(es: seq<Event>)
    requires Legal(EMPTY, es)
    ensures var b := Exec(EMPTY, es);
      && WellFormed(b)
      && |b.issued| == |b.pending| + |WithOutcome(b, true)| + |WithOutcome(b, false)| + |b.lost|
  {
    InvExec(EMPTY, es);
    Counts(Exec(EMPTY, es));
  }

  // ---- The object ---------------------------------------------------------

  /** Settling one more id of a batch. */
  lemma SettleOneMore(b: Book, ids: set<string>, id: string, outcome: Outcome)
    requires Inv(b) && id !in ids
    ensures Settle(Settle(b, ids, outcome), {id}, outcome) == Settle(b, ids + {id}, outcome)
  {
    var mid := Settle(b, ids, outcome);
    assert Uids(mid, {id}) == if id in b.pending then {b.pending[id]} else {};
    assert Uids(b, ids + {id}) == Uids(b, ids) + Uids(mid, {id});
    if id in b.pending {
      assert b.pending[id] !in Uids(b, ids);
    }
    assert Settle(mid, {id}, outcome).history == Settle(b, ids + {id}, outcome).history;
    assert Settle(mid, {id}, outcome).pending == Settle(b, ids + {id}, outcome).pending;
  }

  class PendingRegistry {
    var now: nat
    var requests: seq<Request>
    var pending: map<string, nat>
    var timers: set<nat>
    var callbacks: seq<seq<Settlement>>
    ghost var lost: set<nat>

    ghost function View(): Book reads this { Book(now, requests, pending, timers, callbacks, lost) }

    ghost predicate Valid() reads this { Inv(View()) }

    constructor ()
      ensures Valid() && View() == EMPTY
    {
      now, requests, pending, timers, callbacks, lost := 0, [], map[], {}, [], {};
    }

    method Add(request: Request) returns (u: nat)
      requires Valid() && now <= request.deadline
      modifies this
      ensures Valid() && View() == Apply(old(View()), Enter(request)) && u == old(|requests|)
    {
      InvApply(View(), Enter(request));
      u := |requests|;
      lost := if request.requestId in pending then lost + {pending[request.requestId]} else lost;
      requests := requests + [request];
      callbacks := callbacks + [[]];
      pending := pending[request.requestId := u];
      timers := timers + {u};
    }

    /** Shared body of `resolve` and `reject`: unknown ids are reported, known ones settled. */
    method Finish(requestId: string, outcome: Outcome) returns (known: bool)
      requires Valid()
      modifies this
      ensures Valid() && View() == Settle(old(View()), {requestId}, outcome)
      ensures known == old(requestId in pending)
    {
      InvSettle(View(), {requestId}, outcome);
      ghost var b' := Settle(View(), {requestId}, outcome);
      if requestId !in pending {
        assert Uids(View(), {requestId}) == {};
        assert b'.history == callbacks;
        return false;
      }
      var u := pending[requestId];
      assert Uids(View(), {requestId}) == {u};
      timers := timers - {u};
      pending := pending - {requestId};
      callbacks := callbacks[u := callbacks[u] + [Settlement(outcome, now)]];
      assert callbacks == b'.history;
      return true;
    }

    /** `rejectAllForAgent`: removes entries while walking over the map. */
    method RejectAllForAgent(accountId: string, name: string) returns (count: nat)
      requires Valid()
      modifies this
      ensures Valid() && View() == Apply(old(View()), AgentGone(accountId, name))
      ensures count == |OfAgent(old(View()), accountId, name)|
    {
      ghost var b := View();
      var code := Rejected("AGENT_DISCONNECTED");
      var todo := pending.Keys;
      ghost var done: set<string> := {};
      count := 0;
      while todo != {}
        invariant todo <= b.pending.Keys && done !! todo
        invariant forall id :: id in done <==> id in b.pending && id !in todo && Serves(b.issued[b.pending[id]], accountId, name)
        invariant Valid() && View() == Settle(b, done, code)
        invariant count == |done|
      {
        var id :| id in todo;
        todo := todo - {id};
        assert requests == b.issued && pending == b.pending - done;
        if Serves(requests[pending[id]], accountId, name) {
          SettleOneMore(b, done, id, code);
          var known := Finish(id, code);
          done := done + {id};
          count := count + 1;
        }
      }
      assert done == OfAgent(b, accountId, name);
    }

    method Expire(u: nat)
      requires Valid() && Enabled(View(), Fire(u))
      modifies this
      ensures Valid() && View() == Apply(old(View()), Fire(u))
    {
      InvApply(View(), Fire(u));
      ghost var b' := Apply(View(), Fire(u));
      var id := requests[u].requestId;
      timers := timers - {u};
      assert Uids(View(), {id}) == if id in pending then {pending[id]} else {};
      if id in pending {
        var v := pending[id];
        timers := timers - {v};
        pending := pending - {id};
        callbacks := callbacks[v := callbacks[v] + [Settlement(Rejected("AGENT_TIMEOUT"), now)]];
      }
      assert callbacks == b'.history;
      assert pending == b'.pending;
    }

    method PassTime(until: nat)
      requires Valid() && Enabled(View(), Wait(until))
      modifies this`now
      ensures Valid() && View() == Apply(old(View()), Wait(until))
    {
      InvApply(View(), Wait(until));
      now := until;
    }
  }
}
