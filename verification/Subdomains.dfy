/**
 The hub's subdomain registry: a per-key promise chain (`withLock`) around
 Redis commands, with `register` and `unregister` calls arriving from
 independent WebSocket connections.

 Every Redis command is its own step, so that anything may happen between a
 read and the delete that follows it. A command may be dropped before it
 reaches Redis, or be executed and still be reported as failed.
 */
module Subdomains {
  import opened Options

  datatype Entry = Entry(agentId: string, accountId: string, name: string,
                         accountSlug: string, hubInstanceId: string)

  datatype Op = Register(entry: Entry) | Unregister(expected: string)

  /** `Dropped`: not executed. `Lost`: executed, but the caller saw an error. */
  datatype Reply = Ok | Dropped | Lost

  /** The fate of the (at most two) commands of a call that has settled. */
  datatype Fate = Fate(first: Reply, second: Reply)

  /**
   `Queued`: waiting for the promise in front. `Started`: the first command is
   outstanding. `Matched`: an `unregister` has read an entry naming its agent
   and its delete is outstanding. `Settled`: the call's promise has settled.
   `Released`: the clean-up callback of the lock has run as well.
   */
  datatype Phase = Queued | Started | Matched | Settled(fate: Fate) | Released(fate: Fate)

  datatype Call = Call(key: string, op: Op, prior: Option<nat>, phase: Phase)

  predicate Running(c: Call) { c.phase.Started? || c.phase.Matched? }

  predicate Finished(c: Call) { c.phase.Settled? || c.phase.Released? }

  /** `calls` holds every call ever issued, in call order; `locks[k]` is the tail of `k`'s chain. */
  datatype State = State(store: map<string, Entry>, locks: map<string, nat>, calls: seq<Call>)

  datatype Step = Issue(key: string, op: Op) | Start(n: nat) | Command(n: nat, reply: Reply) | Release(n: nat)

  predicate Enabled(s: State, step: Step) {
    match step
    case Issue(_, _) => true
    case Start(n) =>
      && n < |s.calls| && s.calls[n].phase.Queued?
      && (s.calls[n].prior.Some? ==>
            s.calls[n].prior.value < |s.calls| && Finished(s.calls[s.calls[n].prior.value]))
    case Command(n, _) => n < |s.calls| && Running(s.calls[n])
    case Release(n) => n < |s.calls| && s.calls[n].phase.Settled?
  }

  function Advance(s: State, n: nat, phase: Phase): State
    requires n < |s.calls|
  {
    s.(calls := s.calls[n := s.calls[n].(phase := phase)])
  }

  predicate Names(store: map<string, Entry>, key: string, agentId: string) {
    key in store && store[key].agentId == agentId
  }

  /** One Redis command of call `n` takes effect (or not) and its reply is handled. */
  function AfterCommand(s: State, n: nat, reply: Reply): State
    requires Enabled(s, Command(n, reply))
  {
    var c := s.calls[n];
    if c.phase.Matched? then
      var s' := Advance(s, n, Settled(Fate(Ok, reply)));
      if reply == Dropped then s' else s'.(store := s.store - {c.key})
    else match c.op
      case Register(e) =>
        var s' := Advance(s, n, Settled(Fate(reply, Ok)));
        if reply == Dropped then s' else s'.(store := s.store[c.key := e])
      case Unregister(x) =>
        if reply == Ok && Names(s.store, c.key, x) then Advance(s, n, Matched)
        else Advance(s, n, Settled(Fate(reply, Ok)))
  }

  function Next(s: State, step: Step): State
    requires Enabled(s, step)
  {
    match step
    case Issue(k, op) =>
      var prior := if k in s.locks then Some(s.locks[k]) else None;
      State(s.store, s.locks[k := |s.calls|], s.calls + [Call(k, op, prior, Queued)])
    case Start(n) => Advance(s, n, Started)
    case Command(n, reply) => AfterCommand(s, n, reply)
    case Release(n) =>
      var k := s.calls[n].key;
      var s' := Advance(s, n, Released(s.calls[n].phase.fate));
      if k in s.locks && s.locks[k] == n then s'.(locks := s.locks - {k}) else s'
  }

  // ---- The serial specification -------------------------------------------

  /** What a settled call does when it runs alone, start to end, with the same command fates. */
  function RunAlone(store: map<string, Entry>, c: Call): map<string, Entry>
    requires Finished(c)
  {
    match c.op
    case Register(e) => if c.phase.fate.first == Dropped then store else store[c.key := e]
    case Unregister(x) =>
      if c.phase.fate.first == Ok && Names(store, c.key, x) && c.phase.fate.second != Dropped
      then store - {c.key} else store
  }

  /** The finished calls run one at a time, in call order. */
  function Serial(init: map<string, Entry>, calls: seq<Call>): map<string, Entry> {
    if calls == [] then init
    else
      var before := Serial(init, calls[..|calls| - 1]);
      if Finished(calls[|calls| - 1]) then RunAlone(before, calls[|calls| - 1]) else before
  }

  // ---- The invariant ------------------------------------------------------

  /** No call on `key` at a position in `lo..hi`. */
  ghost predicate NoneOn(calls: seq<Call>, key: string, lo: nat, hi: nat)
    requires hi <= |calls|
  {
    forall j :: lo <= j < hi ==> calls[j].key != key
  }

  ghost predicate LockIsTail(s: State, k: string)
    requires k in s.locks
  {
    var n := s.locks[k];
    && n < |s.calls| && s.calls[n].key == k && !s.calls[n].phase.Released?
    && NoneOn(s.calls, k, n + 1, |s.calls|)
  }

  ghost predicate PriorOk(calls: seq<Call>, n: nat)
    requires n < |calls|
  {
    match calls[n].prior
    case Some(p) => p < n && calls[p].key == calls[n].key && NoneOn(calls, calls[n].key, p + 1, n)
    case None => forall j :: 0 <= j < n && calls[j].key == calls[n].key ==> Finished(calls[j])
  }

  /** A call leaves the queue only after every earlier call on its key has finished. */
  ghost predicate InOrder(calls: seq<Call>) {
    forall i, j :: 0 <= i < j < |calls| && calls[i].key == calls[j].key && !calls[j].phase.Queued?
      ==> Finished(calls[i])
  }

  ghost predicate MatchedOk(s: State, n: nat)
    requires n < |s.calls|
  {
    s.calls[n].phase.Matched? ==>
      s.calls[n].op.Unregister? && Names(s.store, s.calls[n].key, s.calls[n].op.expected)
  }

  ghost predicate Chained(s: State) {
    && (forall k :: k in s.locks ==> LockIsTail(s, k))
    && (forall n :: 0 <= n < |s.calls| && s.calls[n].key !in s.locks ==> Finished(s.calls[n]))
    && (forall n :: 0 <= n < |s.calls| ==> PriorOk(s.calls, n))
    && InOrder(s.calls)
    && (forall n :: 0 <= n < |s.calls| ==> MatchedOk(s, n))
  }

  ghost predicate Inv(init: map<string, Entry>, s: State) {
    Chained(s) && s.store == Serial(init, s.calls)
  }

  /** Calls that have not finished contribute nothing, whatever their phase. */
  lemma {:induction false} SerialIgnoresUnfinished(init: map<string, Entry>, calls: seq<Call>, n: nat, c: Call)
    requires n < |calls| && !Finished(calls[n]) && !Finished(c)
    ensures Serial(init, calls[n := c]) == Serial(init, calls)
  {
    var last := |calls| - 1;
    if n < last {
      assert calls[n := c][..last] == calls[..last][n := c];
      SerialIgnoresUnfinished(init, calls[..last], n, c);
    } else {
      assert calls[n := c][..last] == calls[..last];
    }
  }

  /** Releasing a settled call does not change what it did. */
  lemma {:induction false} SerialIgnoresRelease(init: map<string, Entry>, calls: seq<Call>, n: nat)
    requires n < |calls| && calls[n].phase.Settled?
    ensures Serial(init, calls[n := calls[n].(phase := Released(calls[n].phase.fate))]) == Serial(init, calls)
  {
    var last := |calls| - 1;
    var c := calls[n].(phase := Released(calls[n].phase.fate));
    if n < last {
      assert calls[n := c][..last] == calls[..last][n := c];
      SerialIgnoresRelease(init, calls[..last], n);
    } else {
      assert calls[n := c][..last] == calls[..last];
    }
  }

  lemma OtherKeysCommute(store: map<string, Entry>, a: Call, b: Call)
    requires Finished(a) && Finished(b) && a.key != b.key
    ensures RunAlone(RunAlone(store, a), b) == RunAlone(RunAlone(store, b), a)
  {
  }

  /**
   The commutation argument: a call that finishes now may be moved, in the
   serial order, from the end back to its place in call order, because every
   later call that has finished is on another key.
   */
  lemma {:induction false} SerialAbsorbs(init: map<string, Entry>, calls: seq<Call>, n: nat, c: Call)
    requires n < |calls| && !Finished(calls[n]) && Finished(c) && c.key == calls[n].key
    requires forall j :: n < j < |calls| && Finished(calls[j]) ==> calls[j].key != c.key
    ensures Serial(init, calls[n := c]) == RunAlone(Serial(init, calls), c)
  {
    var last := |calls| - 1;
    if n < last {
      assert calls[n := c][..last] == calls[..last][n := c];
      SerialAbsorbs(init, calls[..last], n, c);
      if Finished(calls[last]) {
        OtherKeysCommute(Serial(init, calls[..last]), c, calls[last]);
      }
    } else {
      assert calls[n := c][..last] == calls[..last];
    }
  }

  // ---- Every step keeps the invariant -------------------------------------

  lemma ChainedIssue(s: State, k: string, op: Op)
    requires Chained(s)
    ensures Chained(Next(s, Issue(k, op)))
  {
    var s' := Next(s, Issue(k, op));
    forall n | 0 <= n < |s'.calls| ensures PriorOk(s'.calls, n) && MatchedOk(s', n) {
      if n < |s.calls| {
        assert PriorOk(s.calls, n) && MatchedOk(s, n);
      }
    }
    forall k' | k' in s'.locks ensures LockIsTail(s', k') {
      if k' != k { assert LockIsTail(s, k'); }
    }
  }

  /** A change of one call's phase that respects the order keeps the chain. */
  lemma ChainedAdvance(s: State, n: nat, s': State, phase: Phase)
    requires Chained(s) && n < |s.calls|
    requires s'.calls == s.calls[n := s.calls[n].(phase := phase)]
    requires s.locks == s'.locks && !phase.Queued? && !phase.Released?
    requires Finished(s.calls[n]) ==> phase.Settled?
    requires forall j :: 0 <= j < n && s.calls[j].key == s.calls[n].key ==> Finished(s.calls[j])
    requires forall j :: 0 <= j < |s.calls| ==> MatchedOk(s', j)
    ensures Chained(s')
  {
    forall j | 0 <= j < |s'.calls| ensures PriorOk(s'.calls, j) {
      assert PriorOk(s.calls, j);
    }
    forall k | k in s'.locks ensures LockIsTail(s', k) {
      assert LockIsTail(s, k);
    }
  }

  lemma StartIsInOrder(s: State, n: nat)
    requires Chained(s) && Enabled(s, Start(n))
    ensures forall j :: 0 <= j < n && s.calls[j].key == s.calls[n].key ==> Finished(s.calls[j])
  {
    assert PriorOk(s.calls, n);
  }

  /** Two running calls on one key are the same call. */
  lemma MutualExclusion(s: State, i: nat, j: nat)
    requires Chained(s) && i < |s.calls| && j < |s.calls|
    requires Running(s.calls[i]) && Running(s.calls[j]) && s.calls[i].key == s.calls[j].key
    ensures i == j
  {
  }

  lemma CommandKeepsMatched(s: State, n: nat, reply: Reply)
    requires Chained(s) && Enabled(s, Command(n, reply))
    ensures forall j :: 0 <= j < |s.calls| ==> MatchedOk(AfterCommand(s, n, reply), j)
  {
    var s' := AfterCommand(s, n, reply);
    forall j | 0 <= j < |s.calls| ensures MatchedOk(s', j) {
      assert MatchedOk(s, j);
      if j != n && s.calls[j].phase.Matched? && s.calls[j].key == s.calls[n].key {
        MutualExclusion(s, j, n);
      }
    }
  }

  lemma InvCommand(init: map<string, Entry>, s: State, n: nat, reply: Reply)
    requires Inv(init, s) && Enabled(s, Command(n, reply))
    ensures Inv(init, AfterCommand(s, n, reply))
  {
    var s' := AfterCommand(s, n, reply);
    CommandKeepsMatched(s, n, reply);
    ChainedAdvance(s, n, s', s'.calls[n].phase);
    CommandIsSerial(init, s, n, reply);
  }

  lemma CommandIsSerial(init: map<string, Entry>, s: State, n: nat, reply: Reply)
    requires Inv(init, s) && Enabled(s, Command(n, reply))
    ensures AfterCommand(s, n, reply).store == Serial(init, AfterCommand(s, n, reply).calls)
  {
    var c := AfterCommand(s, n, reply).calls[n];
    CommandEffect(s, n, reply);
    if Finished(c) {
      LaterOnOtherKeys(s, n);
      SerialAbsorbs(init, s.calls, n, c);
    } else {
      SerialIgnoresUnfinished(init, s.calls, n, c);
    }
  }

  /** The command that ends a call has the effect of the whole call; others have none. */
  lemma CommandEffect(s: State, n: nat, reply: Reply)
    requires Enabled(s, Command(n, reply)) && MatchedOk(s, n)
    ensures var s' := AfterCommand(s, n, reply);
      && s'.calls == s.calls[n := s'.calls[n]] && s'.calls[n].key == s.calls[n].key
      && s'.store == if Finished(s'.calls[n]) then RunAlone(s.store, s'.calls[n]) else s.store
  {
  }

  lemma LaterOnOtherKeys(s: State, n: nat)
    requires Chained(s) && n < |s.calls| && Running(s.calls[n])
    ensures forall j :: n < j < |s.calls| && Finished(s.calls[j]) ==> s.calls[j].key != s.calls[n].key
  {
  }

  lemma ChainedRelease(s: State, n: nat)
    requires Chained(s) && Enabled(s, Release(n))
    ensures Chained(Next(s, Release(n)))
  {
    var s' := Next(s, Release(n));
    ReleaseKeepsPriors(s, n);
    forall k | k in s'.locks ensures LockIsTail(s', k) {
      assert LockIsTail(s, k);
    }
    ReleaseKeepsFree(s, n);
  }

  lemma ReleaseKeepsPriors(s: State, n: nat)
    requires Enabled(s, Release(n))
    requires forall j :: 0 <= j < |s.calls| ==> PriorOk(s.calls, j) && MatchedOk(s, j)
    ensures var s' := Next(s, Release(n)); forall j :: 0 <= j < |s'.calls| ==> PriorOk(s'.calls, j) && MatchedOk(s', j)
  {
    var s' := Next(s, Release(n));
    forall j | 0 <= j < |s'.calls| ensures PriorOk(s'.calls, j) && MatchedOk(s', j) {
      assert PriorOk(s.calls, j) && MatchedOk(s, j);
    }
  }

  /** Where no lock is left, every call has finished: the tail was the last of them. */
  lemma ReleaseKeepsFree(s: State, n: nat)
    requires Chained(s) && Enabled(s, Release(n))
    ensures var s' := Next(s, Release(n));
      forall j :: 0 <= j < |s'.calls| && s'.calls[j].key !in s'.locks ==> Finished(s'.calls[j])
  {
    var s' := Next(s, Release(n));
    forall j | 0 <= j < |s'.calls| && s'.calls[j].key !in s'.locks ensures Finished(s'.calls[j]) {
      if s.calls[j].key in s.locks {
        assert LockIsTail(s, s.calls[j].key);
        assert j <= n;
      }
    }
  }

  lemma InvNext(init: map<string, Entry>, s: State, step: Step)
    requires Inv(init, s) && Enabled(s, step)
    ensures Inv(init, Next(s, step))
  {
    match step
    case Issue(k, op) =>
      ChainedIssue(s, k, op);
      assert Next(s, step).calls[..|s.calls|] == s.calls;
    case Start(n) =>
      StartIsInOrder(s, n);
      ChainedAdvance(s, n, Next(s, step), Started) by {
        forall j | 0 <= j < |s.calls| ensures MatchedOk(Next(s, step), j) { assert MatchedOk(s, j); }
      }
      SerialIgnoresUnfinished(init, s.calls, n, s.calls[n].(phase := Started));
    case Command(n, reply) => InvCommand(init, s, n, reply);
    case Release(n) =>
      ChainedRelease(s, n);
      SerialIgnoresRelease(init, s.calls, n);
  }

  // ---- Whole runs ---------------------------------------------------------

  predicate Legal(s: State, steps: seq<Step>)
    decreases |steps|
  {
    steps == [] || (Enabled(s, steps[0]) && Legal(Next(s, steps[0]), steps[1..]))
  }

  function Exec(s: State, steps: seq<Step>): State
    requires Legal(s, steps)
    decreases |steps|
  {
    if steps == [] then s else Exec(Next(s, steps[0]), steps[1..])
  }

  function Fresh(init: map<string, Entry>): State { State(init, map[], []) }

  lemma {:induction false} InvExec(init: map<string, Entry>, s: State, steps: seq<Step>)
    requires Inv(init, s) && Legal(s, steps)
    ensures Inv(init, Exec(s, steps))
    decreases |steps|
  {
    if steps != [] {
      InvNext(init, s, steps[0]);
      InvExec(init, Next(s, steps[0]), steps[1..]);
    }
  }

  lemma LocksDrain(s: State)
    requires Chained(s)
    ensures (forall i :: 0 <= i < |s.calls| ==> s.calls[i].phase.Released?) ==> s.locks == map[]
  {
    if forall i :: 0 <= i < |s.calls| ==> s.calls[i].phase.Released? {
      forall k ensures k !in s.locks {}
      assert s.locks.Keys == {};
    }
  }

  /**
   Serializability. In every state of every run: at most one call per key is
   inside its Redis steps, and the stored entries are exactly those of running
   the finished calls one at a time in call order. Once every call is
   released, no lock is left behind.
   */
  lemma Serializable(init: map<string, Entry>, steps: seq<Step>)
    requires Legal(Fresh(init), steps)
    ensures var s := Exec(Fresh(init), steps);
      && s.store == Serial(init, s.calls)
      && (forall i, j | 0 <= i < |s.calls| && 0 <= j < |s.calls| && s.calls[i].key == s.calls[j].key
                        && Running(s.calls[i]) && Running(s.calls[j]) :: i == j)
      && ((forall i :: 0 <= i < |s.calls| ==> s.calls[i].phase.Released?) ==> s.locks == map[])
  {
    InvExec(init, Fresh(init), steps);
    var s := Exec(Fresh(init), steps);
    forall i, j | 0 <= i < |s.calls| && 0 <= j < |s.calls| && s.calls[i].key == s.calls[j].key
        && Running(s.calls[i]) && Running(s.calls[j])
      ensures i == j
    {
      MutualExclusion(s, i, j);
    }
    LocksDrain(s);
  }

  // ---- Every call settles -------------------------------------------------

  function Rank(c: Call): nat {
    match c.phase
    case Queued => 4
    case Started => 3
    case Matched => 2
    case Settled(_) => 1
    case Released(_) => 0
  }

  function Work(calls: seq<Call>): nat {
    if calls == [] then 0 else Work(calls[..|calls| - 1]) + Rank(calls[|calls| - 1])
  }

  lemma {:induction false} WorkUpdate(calls: seq<Call>, n: nat, c: Call)
    requires n < |calls|
    ensures Work(calls[n := c]) == Work(calls) - Rank(calls[n]) + Rank(c)
  {
    var last := |calls| - 1;
    if n < last {
      assert calls[n := c][..last] == calls[..last][n := c];
      WorkUpdate(calls[..last], n, c);
    } else {
      assert calls[n := c][..last] == calls[..last];
    }
  }

  /** Apart from new calls arriving, every step uses up work. */
  lemma StepUsesWork(s: State, step: Step)
    requires Enabled(s, step) && !step.Issue?
    ensures Work(Next(s, step).calls) < Work(s.calls)
  {
    WorkUpdate(s.calls, step.n, Next(s, step).calls[step.n]);
  }

  /** No deadlock: while some call is not released, some step is possible. */
  lemma Progress(s: State, i: nat) returns (step: Step)
    requires Chained(s) && i < |s.calls| && !s.calls[i].phase.Released?
    ensures !step.Issue? && Enabled(s, step)
  {
    var n: nat := 0;
    while s.calls[n].phase.Released?
      invariant n <= i
      invariant forall j :: 0 <= j < n ==> s.calls[j].phase.Released?
      decreases i - n
    {
      n := n + 1;
    }
    assert PriorOk(s.calls, n);
    step := match s.calls[n].phase
      case Queued => Start(n)
      case Settled(_) => Release(n)
      case _ => Command(n, Ok);
  }

  /**
   Termination: once no more calls arrive, a run cannot go on for longer than
   the work that is left, and where it cannot be continued every call is
   released, so all locks are gone.
   */
  lemma {:induction false} EveryRunSettles(init: map<string, Entry>, s: State, steps: seq<Step>)
    requires Inv(init, s) && Legal(s, steps)
    requires forall i :: 0 <= i < |steps| ==> !steps[i].Issue?
    ensures |steps| + Work(Exec(s, steps).calls) <= Work(s.calls)
    ensures (forall step: Step | !step.Issue? :: !Enabled(Exec(s, steps), step)) ==>
              && (forall i :: 0 <= i < |Exec(s, steps).calls| ==> Exec(s, steps).calls[i].phase.Released?)
              && Exec(s, steps).locks == map[]
    decreases |steps|
  {
    if steps != [] {
      StepUsesWork(s, steps[0]);
      InvNext(init, s, steps[0]);
      EveryRunSettles(init, Next(s, steps[0]), steps[1..]);
    } else if forall step: Step | !step.Issue? :: !Enabled(s, step) {
      forall i | 0 <= i < |s.calls| ensures s.calls[i].phase.Released? {
        if !s.calls[i].phase.Released? {
          var step := Progress(s, i);
        }
      }
      LocksDrain(s);
    }
  }

  // ---- The reconnect race -------------------------------------------------

  /**
   Compare-and-delete, although the compare and the delete are separate steps:
   a step that removes or replaces an entry is either a `register`, or an
   `unregister` for exactly the agent the entry names.
   */
  lemma NoForeignDelete(init: map<string, Entry>, s: State, step: Step, k: string)
    requires Inv(init, s) && Enabled(s, step)
    requires k in s.store && (k !in Next(s, step).store || Next(s, step).store[k] != s.store[k])
    ensures step.Command? && s.calls[step.n].key == k
    ensures s.calls[step.n].op.Register? || s.calls[step.n].op.expected == s.store[k].agentId
    ensures k !in Next(s, step).store ==> s.calls[step.n].op == Unregister(s.store[k].agentId)
  {
    if step.Command? {
      assert MatchedOk(s, step.n);
    }
  }

  ghost predicate CannotRemove(c: Call, agentId: string) {
    c.op.Unregister? && c.op.expected != agentId
  }

  /** An applied `register` survives every later `unregister` for another agent. */
  lemma {:induction false} SerialKeeps(init: map<string, Entry>, calls: seq<Call>, v: nat)
    requires v < |calls| && Finished(calls[v]) && calls[v].op.Register? && calls[v].phase.fate.first != Dropped
    requires forall j :: v < j < |calls| && calls[j].key == calls[v].key ==>
               CannotRemove(calls[j], calls[v].op.entry.agentId)
    ensures calls[v].key in Serial(init, calls) && Serial(init, calls)[calls[v].key] == calls[v].op.entry
  {
    var last := |calls| - 1;
    if v < last {
      SerialKeeps(init, calls[..last], v);
      if Finished(calls[last]) && calls[last].key == calls[v].key {
        assert CannotRemove(calls[last], calls[v].op.entry.agentId);
      }
    }
  }

  /** A key that does not name the agent goes on not naming it while nothing registers it there. */
  lemma {:induction false} SerialStaysOther(init: map<string, Entry>, calls: seq<Call>, r: nat, agentId: string)
    requires r < |calls| && Finished(calls[r]) && calls[r].op.Register? && calls[r].phase.fate.first != Dropped
    requires calls[r].op.entry.agentId != agentId
    requires forall j :: r < j < |calls| && calls[j].key == calls[r].key ==> CannotRemove(calls[j], agentId)
    ensures !Names(Serial(init, calls), calls[r].key, agentId)
  {
    var last := |calls| - 1;
    if r < last {
      SerialStaysOther(init, calls[..last], r, agentId);
      if Finished(calls[last]) && calls[last].key == calls[r].key {
        assert CannotRemove(calls[last], agentId);
      }
    }
  }

  /**
   Reconnect, exactly. Call `r` registers the old agent and call `v` its
   successor under the same key, both writes executed. Whatever calls came
   between them, and whichever unregister calls for agents other than the
   successor came last (the old agent's own, or the clean-up of a stale
   entry), the entry names the successor if and only if its register was
   issued second.
   */
  lemma ReconnectRace(init: map<string, Entry>, steps: seq<Step>, r: nat, v: nat)
    requires Legal(Fresh(init), steps)
    requires var calls := Exec(Fresh(init), steps).calls;
      && r < |calls| && v < |calls| && calls[r].key == calls[v].key
      && calls[r].op.Register? && Finished(calls[r]) && calls[r].phase.fate.first != Dropped
      && calls[v].op.Register? && Finished(calls[v]) && calls[v].phase.fate.first != Dropped
      && calls[r].op.entry.agentId != calls[v].op.entry.agentId
      && (forall j :: r < j < |calls| && v < j && calls[j].key == calls[v].key ==>
            CannotRemove(calls[j], calls[v].op.entry.agentId))
    ensures var s := Exec(Fresh(init), steps);
      && (Names(s.store, s.calls[v].key, s.calls[v].op.entry.agentId) <==> r < v)
      && (r < v ==> s.calls[v].key in s.store && s.store[s.calls[v].key] == s.calls[v].op.entry)
  {
    InvExec(init, Fresh(init), steps);
    var calls := Exec(Fresh(init), steps).calls;
    if r < v {
      SerialKeeps(init, calls, v);
    } else {
      SerialStaysOther(init, calls, r, calls[v].op.entry.agentId);
    }
  }

  // ---- A run --------------------------------------------------------------

  lemma {:induction false} Extend(s: State, steps: seq<Step>, step: Step)
    requires Legal(s, steps) && Enabled(Exec(s, steps), step)
    ensures Legal(s, steps + [step]) && Exec(s, steps + [step]) == Next(Exec(s, steps), step)
    decreases |steps|
  {
    var all := steps + [step];
    if steps == [] {
      assert all[1..] == [];
    } else {
      assert all[0] == steps[0] && all[1..] == steps[1..] + [step];
      Extend(Next(s, steps[0]), steps[1..], step);
    }
  }

  /** A register call runs to its end while no other call is waiting. */
  lemma ThenRegister(init: map<string, Entry>, steps: seq<Step>, key: string, e: Entry) returns (more: seq<Step>)
    requires Legal(Fresh(init), steps) && key !in Exec(Fresh(init), steps).locks
    ensures Legal(Fresh(init), more)
    ensures var s, s' := Exec(Fresh(init), steps), Exec(Fresh(init), more);
      && s'.calls == s.calls + [Call(key, Register(e), None, Released(Fate(Ok, Ok)))]
      && s'.store == s.store[key := e] && key !in s'.locks
  {
    var s0 := Exec(Fresh(init), steps);
    var n := |s0.calls|;
    Extend(Fresh(init), steps, Issue(key, Register(e)));
    var a := steps + [Issue(key, Register(e))];
    Extend(Fresh(init), a, Start(n));
    Extend(Fresh(init), a + [Start(n)], Command(n, Ok));
    Extend(Fresh(init), a + [Start(n)] + [Command(n, Ok)], Release(n));
    more := a + [Start(n)] + [Command(n, Ok)] + [Release(n)];
  }

  /** The order of issue matters: a register of the old agent that was held up and issued last replaces its successor. */
  lemma LateRegisterRun(init: map<string, Entry>, key: string, former: Entry, successor: Entry) returns (steps: seq<Step>)
    requires former.agentId != successor.agentId
    ensures Legal(Fresh(init), steps)
    ensures var s := Exec(Fresh(init), steps);
      && |s.calls| == 2 && s.calls[0].op == Register(successor) && s.calls[1].op == Register(former)
      && Finished(s.calls[0]) && Finished(s.calls[1]) && Names(s.store, key, former.agentId)
  {
    var first := ThenRegister(init, [], key, successor);
    steps := ThenRegister(init, first, key, former);
  }

  // ---- The object ---------------------------------------------------------

  /**
   The registry as the hub holds it. `calls` stands for the promises that
   `withLock` creates: a call's index is the identity of its promise.
   */
  class SubdomainRegistry {
    var store: map<string, Entry>
    var locks: map<string, nat>
    var calls: seq<Call>
    ghost const init: map<string, Entry>

    ghost function View(): State reads this { State(store, locks, calls) }

    ghost predicate Valid() reads this { Inv(init, View()) }

    constructor (redis: map<string, Entry>)
      ensures Valid() && init == redis && View() == Fresh(redis)
    {
      store, locks, calls, init := redis, map[], [], redis;
    }

    /** `register` and `unregister` up to the point where they wait for the lock. */
    method WithLock(key: string, op: Op) returns (n: nat)
      requires Valid()
      modifies this
      ensures Valid() && View() == Next(old(View()), Issue(key, op))
      ensures n < |calls| && calls[n].key == key && calls[n].op == op && locks[key] == n
    {
      InvNext(init, View(), Issue(key, op));
      n := |calls|;
      var prior := None;
      if key in locks { prior := Some(locks[key]); }
      calls := calls + [Call(key, op, prior, Queued)];
      locks := locks[key := n];
    }

    /** The promise in front of call `n` has settled: `fn` begins and sends its first command. */
    method Begin(n: nat)
      requires Valid() && Enabled(View(), Start(n))
      modifies this`calls
      ensures Valid() && View() == Next(old(View()), Start(n))
    {
      InvNext(init, View(), Start(n));
      calls := calls[n := calls[n].(phase := Started)];
    }

    /** The outstanding command of call `n` reaches Redis (or not), and the caller sees `reply`. */
    method RedisReplies(n: nat, reply: Reply)
      requires Valid() && Enabled(View(), Command(n, reply))
      modifies this`calls, this`store
      ensures Valid() && View() == Next(old(View()), Command(n, reply))
    {
      InvNext(init, View(), Command(n, reply));
      var c := calls[n];
      var phase := Settled(Fate(reply, Ok));
      if c.phase.Matched? {
        if reply != Dropped { store := store - {c.key}; }
        phase := Settled(Fate(Ok, reply));
      } else if c.op.Register? {
        if reply != Dropped { store := store[c.key := c.op.entry]; }
      } else if reply == Ok && c.key in store && store[c.key].agentId == c.op.expected {
        phase := Matched;
      }
      calls := calls[n := c.(phase := phase)];
    }

    /** The clean-up callback: forget the lock unless a later call has taken the tail. */
    method Unlock(n: nat)
      requires Valid() && Enabled(View(), Release(n))
      modifies this`calls, this`locks
      ensures Valid() && View() == Next(old(View()), Release(n))
    {
      InvNext(init, View(), Release(n));
      var c := calls[n];
      if c.key in locks && locks[c.key] == n { locks := locks - {c.key}; }
      calls := calls[n := c.(phase := Released(c.phase.fate))];
    }

    /** `resolve`: reads without the lock and still sees a serial state. */
    method Resolve(key: string) returns (entry: Option<Entry>)
      requires Valid()
      ensures entry == if key in Serial(init, calls) then Some(Serial(init, calls)[key]) else None
    {
      if key in store { entry := Some(store[key]); } else { entry := None; }
    }
  }
}
