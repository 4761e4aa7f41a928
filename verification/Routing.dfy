/**
 The hub's registries together with the subdomain entries in Redis. An agent's
 entry is published some time after it was registered, when its session row is
 written, and withdrawn some time after its socket closed; heartbeat and sweep
 withdraw nothing. A public request that finds an entry of an agent that is not
 registered withdraws that entry.
 */
module Routing {
  import opened Options
  import opened HubMachine
  import opened HubProperties
  import opened Ownership
  import opened HubRuns
  import T = TunnelSockets
  import A = Agents
  import P = PendingRequests
  import S = Subdomains
  import Slugs

  /** The slug of each account, and the name of this hub. */
  datatype Place = Place(slug: string -> string, hub: string)

  function KeyOf(place: Place, accountId: string, name: string): string {
    Slugs.RegistryKey(place.slug(accountId), name)
  }

  function EntryOf(place: Place, s: A.Session): S.Entry {
    S.Entry(s.agentId, s.accountId, s.name, place.slug(s.accountId), place.hub)
  }

  /** `toPublish` and `toWithdraw` are the sessions whose call to the subdomain registry is still to be issued. */
  datatype Sys = Sys(hub: Hub, subs: S.State, toPublish: set<A.Session>, toWithdraw: set<A.Session>)

  datatype Move =
    | AtHub(step: Step)
    | AtRedis(call: S.Step)
    | Publish(session: A.Session)
    | Withdraw(session: A.Session)
    | CleanUp(accountId: string, name: string, agentId: string)
    | Forget(session: A.Session)

  /** The agent was registered once and is so no longer. */
  ghost predicate Left(h: Hub, agentId: string) { WasRegistered(h, agentId) && agentId !in h.reg.byAgentId }

  ghost predicate CanMove(y: Sys, m: Move) {
    match m
    case AtHub(step) => P.Inv(y.hub.book) && Enabled(y.hub, step)
    case AtRedis(call) => !call.Issue? && S.Enabled(y.subs, call)
    case Publish(s) => s in y.toPublish
    case Withdraw(s) => s in y.toWithdraw
    case CleanUp(_, _, agentId) => Left(y.hub, agentId)
    case Forget(_) => true
  }

  function Joining(h: Hub, step: Step): set<A.Session> {
    if step.Commit? && Admits(h, step.ticket, step.replaced) then {SessionOf(step.ticket, step.agentId)} else {}
  }

  function Leaving(h: Hub, step: Step): set<A.Session> {
    if step.Close? && step.ws in h.reg.byWs then {h.reg.byWs[step.ws]} else {}
  }

  function Issued(y: Sys, key: string, op: S.Op): Sys { y.(subs := S.Next(y.subs, S.Issue(key, op))) }

  ghost function Moved(place: Place, y: Sys, m: Move): Sys
    requires CanMove(y, m)
  {
    match m
    case AtHub(step) =>
      Sys(Next(y.hub, step), y.subs, y.toPublish + Joining(y.hub, step), y.toWithdraw + Leaving(y.hub, step))
    case AtRedis(call) => y.(subs := S.Next(y.subs, call))
    case Publish(s) =>
      Issued(y, KeyOf(place, s.accountId, s.name), S.Register(EntryOf(place, s))).(toPublish := y.toPublish - {s})
    case Withdraw(s) =>
      Issued(y, KeyOf(place, s.accountId, s.name), S.Unregister(s.agentId)).(toWithdraw := y.toWithdraw - {s})
    case CleanUp(a, n, agentId) => Issued(y, KeyOf(place, a, n), S.Unregister(agentId))
    case Forget(s) => y.(toPublish := y.toPublish - {s}, toWithdraw := y.toWithdraw - {s})
  }

  function Begun(init: map<string, S.Entry>): Sys { Sys(START, S.Fresh(init), {}, {}) }

  ghost predicate Possible(place: Place, y: Sys, ms: seq<Move>)
    decreases |ms|
  {
    ms == [] || (CanMove(y, ms[0]) && Possible(place, Moved(place, y, ms[0]), ms[1..]))
  }

  ghost function Run(place: Place, y: Sys, ms: seq<Move>): Sys
    requires Possible(place, y, ms)
    decreases |ms|
  {
    if ms == [] then y else Run(place, Moved(place, y, ms[0]), ms[1..])
  }

  // ---- The invariant ------------------------------------------------------

  /** A register call was issued for a session that was registered, an unregister call for an agent that has left. */
  ghost predicate CallOk(place: Place, h: Hub, c: S.Call) {
    match c.op
    case Register(e) => exists s :: s in h.ever && c.key == KeyOf(place, s.accountId, s.name) && e == EntryOf(place, s)
    case Unregister(x) => Left(h, x)
  }

  ghost predicate Linked(place: Place, y: Sys) {
    && (forall s :: s in y.toPublish ==> s in y.hub.ever)
    && (forall s :: s in y.toWithdraw ==> Left(y.hub, s.agentId))
    && (forall i :: 0 <= i < |y.subs.calls| ==> CallOk(place, y.hub, y.subs.calls[i]))
  }

  ghost predicate SysInv(place: Place, init: map<string, S.Entry>, y: Sys) {
    Inv(y.hub) && S.Inv(init, y.subs) && Linked(place, y)
  }

  lemma LeftStays(h: Hub, step: Step, agentId: string)
    requires P.Inv(h.book) && Enabled(h, step) && Left(h, agentId)
    ensures Left(Next(h, step), agentId)
  {
    IdStep(h, step, agentId);
  }

  lemma EverGrows(h: Hub, step: Step)
    requires P.Inv(h.book) && Enabled(h, step)
    ensures h.ever <= Next(h, step).ever && Joining(h, step) <= Next(h, step).ever
  {
    if step.Tick? { EvictEachFrame(Bump(h), step.dead); }
  }

  lemma CallStaysOk(place: Place, h: Hub, step: Step, c: S.Call)
    requires P.Inv(h.book) && Enabled(h, step) && CallOk(place, h, c)
    ensures CallOk(place, Next(h, step), c)
  {
    EverGrows(h, step);
    if c.op.Unregister? { LeftStays(h, step, c.op.expected); }
  }

  lemma LinkedAtHub(place: Place, y: Sys, step: Step)
    requires Inv(y.hub) && Linked(place, y) && Enabled(y.hub, step)
    ensures Linked(place, Moved(place, y, AtHub(step)))
  {
    var y' := Moved(place, y, AtHub(step));
    EverGrows(y.hub, step);
    forall s | s in y'.toWithdraw ensures Left(y'.hub, s.agentId) {
      if s in y.toWithdraw { LeftStays(y.hub, step, s.agentId); } else { EndsMakesGone(y.hub, step, s.agentId); }
    }
    forall i | 0 <= i < |y.subs.calls| ensures CallOk(place, y'.hub, y.subs.calls[i]) {
      CallStaysOk(place, y.hub, step, y.subs.calls[i]);
    }
  }

  /** A Redis step changes the phase of a call, and neither its key nor what it is to do. */
  lemma CallsKeepTheirOps(s: S.State, call: S.Step)
    requires S.Enabled(s, call) && !call.Issue?
    ensures var s' := S.Next(s, call);
      |s'.calls| == |s.calls| && forall i :: 0 <= i < |s.calls| ==> s'.calls[i].key == s.calls[i].key && s'.calls[i].op == s.calls[i].op
  {
  }

  lemma LinkedMove(place: Place, y: Sys, m: Move)
    requires Linked(place, y) && CanMove(y, m) && !m.AtHub?
    ensures Linked(place, Moved(place, y, m))
  {
    var y' := Moved(place, y, m);
    if m.AtRedis? { CallsKeepTheirOps(y.subs, m.call); }
    forall i | 0 <= i < |y'.subs.calls| ensures CallOk(place, y'.hub, y'.subs.calls[i]) {
      if i < |y.subs.calls| { assert CallOk(place, y.hub, y.subs.calls[i]); }
    }
  }

  lemma SysInvMove(place: Place, init: map<string, S.Entry>, y: Sys, m: Move)
    requires SysInv(place, init, y) && CanMove(y, m)
    ensures SysInv(place, init, Moved(place, y, m))
  {
    match m
    case AtHub(step) =>
      InvNext(y.hub, step);
      LinkedAtHub(place, y, step);
    case AtRedis(call) =>
      S.InvNext(init, y.subs, call);
      LinkedMove(place, y, m);
    case Publish(s) =>
      S.InvNext(init, y.subs, S.Issue(KeyOf(place, s.accountId, s.name), S.Register(EntryOf(place, s))));
      LinkedMove(place, y, m);
    case Withdraw(s) =>
      S.InvNext(init, y.subs, S.Issue(KeyOf(place, s.accountId, s.name), S.Unregister(s.agentId)));
      LinkedMove(place, y, m);
    case CleanUp(a, n, agentId) =>
      S.InvNext(init, y.subs, S.Issue(KeyOf(place, a, n), S.Unregister(agentId)));
      LinkedMove(place, y, m);
    case Forget(s) => LinkedMove(place, y, m);
  }

  lemma {:induction false} SysInvRun(place: Place, init: map<string, S.Entry>, y: Sys, ms: seq<Move>)
    requires SysInv(place, init, y) && Possible(place, y, ms)
    ensures SysInv(place, init, Run(place, y, ms))
    decreases |ms|
  {
    if ms != [] {
      SysInvMove(place, init, y, ms[0]);
      SysInvRun(place, init, Moved(place, y, ms[0]), ms[1..]);
    }
  }

  // ---- What is left in the end --------------------------------------------

  /** The call has finished and its commands were carried out. */
  predicate Executed(c: S.Call) {
    S.Finished(c) && c.phase.fate.first != S.Dropped
    && (c.op.Unregister? ==> c.phase.fate.first == S.Ok && c.phase.fate.second != S.Dropped)
  }

  ghost predicate AllExecuted(calls: seq<S.Call>, key: string) {
    forall i :: 0 <= i < |calls| && calls[i].key == key ==> Executed(calls[i])
  }

  /** Register call `v` was issued after every other on its key, and no unregister for its agent after it. */
  ghost predicate Stands(calls: seq<S.Call>, key: string, v: nat) {
    && v < |calls| && calls[v].key == key && calls[v].op.Register?
    && forall j :: v < j < |calls| && calls[j].key == key ==> S.CannotRemove(calls[j], calls[v].op.entry.agentId)
  }

  lemma {:induction false} Writer(init: map<string, S.Entry>, calls: seq<S.Call>, key: string) returns (v: nat)
    requires AllExecuted(calls, key) && key !in init && key in S.Serial(init, calls)
    ensures Stands(calls, key, v)
    decreases |calls|
  {
    var last := |calls| - 1;
    var c := calls[last];
    if c.key == key && c.op.Register? {
      v := last;
    } else {
      v := Writer(init, calls[..last], key);
      S.SerialKeeps(init, calls[..last], v);
    }
  }

  /** When a key was free at first and all calls on it were carried out, its entry is that of the register call that stands, if there is one. */
  lemma EntryIff(init: map<string, S.Entry>, steps: seq<S.Step>, key: string)
    requires key !in init && S.Legal(S.Fresh(init), steps) && AllExecuted(S.Exec(S.Fresh(init), steps).calls, key)
    ensures var s := S.Exec(S.Fresh(init), steps);
      && (key in s.store <==> exists v: nat :: Stands(s.calls, key, v))
      && (forall v: nat :: Stands(s.calls, key, v) ==> key in s.store && s.store[key] == s.calls[v].op.entry)
  {
    S.InvExec(init, S.Fresh(init), steps);
    StoreIff(init, S.Exec(S.Fresh(init), steps), key);
  }

  lemma StoreIff(init: map<string, S.Entry>, s: S.State, key: string)
    requires S.Inv(init, s) && key !in init && AllExecuted(s.calls, key)
    ensures key in s.store <==> exists v: nat :: Stands(s.calls, key, v)
    ensures forall v: nat :: Stands(s.calls, key, v) ==> key in s.store && s.store[key] == s.calls[v].op.entry
  {
    if key in s.store {
      var v := Writer(init, s.calls, key);
    }
    forall v: nat | Stands(s.calls, key, v) ensures key in s.store && s.store[key] == s.calls[v].op.entry {
      S.SerialKeeps(init, s.calls, v);
    }
  }

  // ---- Where a label is routed --------------------------------------------

  /** The entry names the agent that holds the label; there is none if nobody does. */
  predicate RoutedRight(place: Place, y: Sys, accountId: string, name: string) {
    var key := KeyOf(place, accountId, name);
    if A.Held(y.hub.reg, accountId, name)
    then S.Names(y.subs.store, key, y.hub.reg.accounts[accountId][name].agentId)
    else key !in y.subs.store
  }

  ghost predicate LastRegister(calls: seq<S.Call>, key: string, v: nat) {
    && v < |calls| && calls[v].key == key && calls[v].op.Register?
    && forall j :: v < j < |calls| && calls[j].key == key ==> calls[j].op.Unregister?
  }

  /** The last register call issued on the key was this agent's. */
  ghost predicate PublishedLast(calls: seq<S.Call>, key: string, agentId: string) {
    exists v: nat :: LastRegister(calls, key, v) && calls[v].op.entry.agentId == agentId
  }

  predicate WithdrawnAt(calls: seq<S.Call>, v: nat, j: nat)
    requires v < |calls| && calls[v].op.Register?
  {
    v < j < |calls| && calls[j].key == calls[v].key && calls[j].op == S.Unregister(calls[v].op.entry.agentId)
  }

  /** The last register call issued on the key, if any, was followed by an unregister call for the same agent. */
  ghost predicate Withdrawn(calls: seq<S.Call>, key: string) {
    forall v: nat :: LastRegister(calls, key, v) ==> exists j: nat :: WithdrawnAt(calls, v, j)
  }

  /** A last register that nobody withdrew stands, and conversely. */
  lemma StandsIff(calls: seq<S.Call>, key: string, v: nat)
    ensures Stands(calls, key, v) <==> LastRegister(calls, key, v) && !exists j: nat :: WithdrawnAt(calls, v, j)
  {
    if Stands(calls, key, v) {
      forall j: nat ensures !WithdrawnAt(calls, v, j) {
        if v < j < |calls| && calls[j].key == key { assert S.CannotRemove(calls[j], calls[v].op.entry.agentId); }
      }
    }
    if LastRegister(calls, key, v) && !exists j: nat :: WithdrawnAt(calls, v, j) {
      forall j | v < j < |calls| && calls[j].key == key ensures S.CannotRemove(calls[j], calls[v].op.entry.agentId) {
        assert !WithdrawnAt(calls, v, j);
      }
    }
  }

  lemma HeldIsRouted(place: Place, init: map<string, S.Entry>, y: Sys, accountId: string, name: string)
    requires S.Inv(init, y.subs) && Linked(place, y) && A.Held(y.hub.reg, accountId, name)
    requires y.hub.reg.accounts[accountId][name].agentId in y.hub.reg.byAgentId
    requires var key := KeyOf(place, accountId, name); key !in init && AllExecuted(y.subs.calls, key)
    ensures RoutedRight(place, y, accountId, name) <==>
              PublishedLast(y.subs.calls, KeyOf(place, accountId, name), y.hub.reg.accounts[accountId][name].agentId)
  {
    var key, x := KeyOf(place, accountId, name), y.hub.reg.accounts[accountId][name].agentId;
    StoreIff(init, y.subs, key);
    forall v: nat ensures Stands(y.subs.calls, key, v) ==> LastRegister(y.subs.calls, key, v) {
      StandsIff(y.subs.calls, key, v);
    }
    forall v: nat | LastRegister(y.subs.calls, key, v) && y.subs.calls[v].op.entry.agentId == x
      ensures Stands(y.subs.calls, key, v)
    {
      StandsIff(y.subs.calls, key, v);
    }
  }

  lemma FreeIsRouted(place: Place, init: map<string, S.Entry>, y: Sys, accountId: string, name: string)
    requires S.Inv(init, y.subs) && !A.Held(y.hub.reg, accountId, name)
    requires var key := KeyOf(place, accountId, name); key !in init && AllExecuted(y.subs.calls, key)
    ensures RoutedRight(place, y, accountId, name) <==> Withdrawn(y.subs.calls, KeyOf(place, accountId, name))
  {
    var key := KeyOf(place, accountId, name);
    StoreIff(init, y.subs, key);
    forall v: nat ensures Stands(y.subs.calls, key, v) <==>
                            LastRegister(y.subs.calls, key, v) && !exists j: nat :: WithdrawnAt(y.subs.calls, v, j) {
      StandsIff(y.subs.calls, key, v);
    }
  }

  /**
   Routing, exactly. In every run of the hub with its subdomain registry, once
   the calls on a label's key were carried out, the entry is right (it names
   the agent registered under the label, and is absent if there is none) if and
   only if the last register call issued on the key was the holder's, or, for a
   label nobody holds, was followed by an unregister call for its agent.
   */
  lemma RoutedRightIff(place: Place, init: map<string, S.Entry>, ms: seq<Move>, accountId: string, name: string)
    requires Possible(place, Begun(init), ms) && KeyOf(place, accountId, name) !in init
    requires AllExecuted(Run(place, Begun(init), ms).subs.calls, KeyOf(place, accountId, name))
    ensures var y, key := Run(place, Begun(init), ms), KeyOf(place, accountId, name);
      RoutedRight(place, y, accountId, name) <==>
        if A.Held(y.hub.reg, accountId, name)
        then PublishedLast(y.subs.calls, key, y.hub.reg.accounts[accountId][name].agentId)
        else Withdrawn(y.subs.calls, key)
  {
    StartInv();
    SysInvRun(place, init, Begun(init), ms);
    var y := Run(place, Begun(init), ms);
    if A.Held(y.hub.reg, accountId, name) {
      assert A.Live(y.hub.reg, y.hub.reg.accounts[accountId][name]);
      HeldIsRouted(place, init, y, accountId, name);
    } else {
      FreeIsRouted(place, init, y, accountId, name);
    }
  }

  // ---- What is published and withdrawn ------------------------------------

  /** A call on the key to do this is among the calls from index `n` on. */
  ghost predicate IssuedSince(calls: seq<S.Call>, n: nat, key: string, op: S.Op) {
    exists j: nat :: n <= j < |calls| && calls[j].key == key && calls[j].op == op
  }

  /** The session's entry is yet to be published, or the call was issued; likewise for withdrawing it. */
  ghost predicate PublishedSince(place: Place, y: Sys, n: nat, s: A.Session) {
    || s in y.toPublish
    || IssuedSince(y.subs.calls, n, KeyOf(place, s.accountId, s.name),
                   S.Register(S.Entry(s.agentId, s.accountId, s.name, place.slug(s.accountId), place.hub)))
  }

  ghost predicate WithdrawnSince(place: Place, y: Sys, n: nat, s: A.Session) {
    || s in y.toWithdraw
    || IssuedSince(y.subs.calls, n, KeyOf(place, s.accountId, s.name), S.Unregister(s.agentId))
  }

  lemma IssuedStays(place: Place, y: Sys, m: Move, n: nat, key: string, op: S.Op)
    requires CanMove(y, m) && IssuedSince(y.subs.calls, n, key, op)
    ensures IssuedSince(Moved(place, y, m).subs.calls, n, key, op)
  {
    var j: nat :| n <= j < |y.subs.calls| && y.subs.calls[j].key == key && y.subs.calls[j].op == op;
    if m.AtRedis? { CallsKeepTheirOps(y.subs, m.call); }
    assert Moved(place, y, m).subs.calls[j].key == key;
  }

  lemma OwedStep(place: Place, y: Sys, m: Move, n: nat, s: A.Session)
    requires CanMove(y, m) && m != Forget(s) && n <= |y.subs.calls|
    ensures PublishedSince(place, y, n, s) ==> PublishedSince(place, Moved(place, y, m), n, s)
    ensures WithdrawnSince(place, y, n, s) ==> WithdrawnSince(place, Moved(place, y, m), n, s)
    ensures n <= |Moved(place, y, m).subs.calls|
  {
    var key, y' := KeyOf(place, s.accountId, s.name), Moved(place, y, m);
    if IssuedSince(y.subs.calls, n, key, S.Register(EntryOf(place, s))) {
      IssuedStays(place, y, m, n, key, S.Register(EntryOf(place, s)));
    } else if m == Publish(s) {
      assert y'.subs.calls[|y.subs.calls|].op == S.Register(EntryOf(place, s));
    }
    if IssuedSince(y.subs.calls, n, key, S.Unregister(s.agentId)) {
      IssuedStays(place, y, m, n, key, S.Unregister(s.agentId));
    } else if m == Withdraw(s) {
      assert y'.subs.calls[|y.subs.calls|].op == S.Unregister(s.agentId);
    }
    if m.AtRedis? { CallsKeepTheirOps(y.subs, m.call); }
  }

  lemma {:induction false} OwedRun(place: Place, y: Sys, ms: seq<Move>, n: nat, s: A.Session)
    requires Possible(place, y, ms) && n <= |y.subs.calls| && forall i :: 0 <= i < |ms| ==> ms[i] != Forget(s)
    ensures PublishedSince(place, y, n, s) ==> PublishedSince(place, Run(place, y, ms), n, s)
    ensures WithdrawnSince(place, y, n, s) ==> WithdrawnSince(place, Run(place, y, ms), n, s)
    decreases |ms|
  {
    if ms != [] {
      OwedStep(place, y, ms[0], n, s);
      OwedRun(place, Moved(place, y, ms[0]), ms[1..], n, s);
    }
  }

  /**
   Every admitted registration is published, and every close of an agent's
   socket withdrawn: in every continuation in which the session is not
   forgotten its call is still to come, or was issued after that step.
   */
  lemma RegistrationIsPublished(place: Place, y: Sys, t: Ticket, agentId: string, replaced: Option<A.Session>, ms: seq<Move>)
    requires CanMove(y, AtHub(Commit(t, agentId, replaced))) && Admits(y.hub, t, replaced)
    requires Possible(place, Moved(place, y, AtHub(Commit(t, agentId, replaced))), ms)
    requires forall i :: 0 <= i < |ms| ==> ms[i] != Forget(A.Session(agentId, t.accountId, t.keyId, t.name, t.ws, t.fingerprint))
    ensures var y' := Run(place, Moved(place, y, AtHub(Commit(t, agentId, replaced))), ms);
      PublishedSince(place, y', |y.subs.calls|, A.Session(agentId, t.accountId, t.keyId, t.name, t.ws, t.fingerprint))
  {
    OwedRun(place, Moved(place, y, AtHub(Commit(t, agentId, replaced))), ms, |y.subs.calls|, SessionOf(t, agentId));
  }

  lemma CloseIsWithdrawn(place: Place, y: Sys, ws: nat, ms: seq<Move>)
    requires CanMove(y, AtHub(Close(ws))) && ws in y.hub.reg.byWs
    requires Possible(place, Moved(place, y, AtHub(Close(ws))), ms)
    requires forall i :: 0 <= i < |ms| ==> ms[i] != Forget(y.hub.reg.byWs[ws])
    ensures var y' := Run(place, Moved(place, y, AtHub(Close(ws))), ms);
      WithdrawnSince(place, y', |y.subs.calls|, y.hub.reg.byWs[ws])
  {
    OwedRun(place, Moved(place, y, AtHub(Close(ws))), ms, |y.subs.calls|, y.hub.reg.byWs[ws]);
  }

  /**
   A close leaves no entry behind: if the agent's entry was published before
   its socket closed and no other agent's was since, then once all calls were
   issued and carried out the label has an entry only if somebody holds it.
   */
  lemma CloseFreesTheLabel(place: Place, init: map<string, S.Entry>, y: Sys, ws: nat, ms: seq<Move>, v: nat)
    requires SysInv(place, init, y) && ws in y.hub.reg.byWs
    requires Possible(place, Moved(place, y, AtHub(Close(ws))), ms)
    requires forall i :: 0 <= i < |ms| ==> ms[i] != Forget(y.hub.reg.byWs[ws])
    requires var s, y' := y.hub.reg.byWs[ws], Run(place, Moved(place, y, AtHub(Close(ws))), ms);
      var key := KeyOf(place, s.accountId, s.name);
      && key !in init && AllExecuted(y'.subs.calls, key) && s !in y'.toWithdraw
      && v < |y.subs.calls| && LastRegister(y'.subs.calls, key, v) && y'.subs.calls[v].op.entry.agentId == s.agentId
    ensures var s, y' := y.hub.reg.byWs[ws], Run(place, Moved(place, y, AtHub(Close(ws))), ms);
      KeyOf(place, s.accountId, s.name) !in y'.subs.store
  {
    var s, y1 := y.hub.reg.byWs[ws], Moved(place, y, AtHub(Close(ws)));
    CloseIsWithdrawn(place, y, ws, ms);
    SysInvMove(place, init, y, AtHub(Close(ws)));
    SysInvRun(place, init, y1, ms);
    WithdrawnIsFree(init, Run(place, y1, ms).subs, KeyOf(place, s.accountId, s.name), v, |y.subs.calls|, s.agentId);
  }

  lemma WithdrawnIsFree(init: map<string, S.Entry>, subs: S.State, key: string, v: nat, n: nat, agentId: string)
    requires S.Inv(init, subs) && key !in init && AllExecuted(subs.calls, key)
    requires v < n && LastRegister(subs.calls, key, v) && subs.calls[v].op.entry.agentId == agentId
    requires IssuedSince(subs.calls, n, key, S.Unregister(agentId))
    ensures key !in subs.store
  {
    var j: nat :| n <= j < |subs.calls| && subs.calls[j].key == key && subs.calls[j].op == S.Unregister(agentId);
    assert WithdrawnAt(subs.calls, v, j);
    forall u: nat ensures !Stands(subs.calls, key, u) { StandsIff(subs.calls, key, u); }
    StoreIff(init, subs, key);
  }

  lemma {:induction false} IssuedRun(place: Place, y: Sys, ms: seq<Move>, n: nat, key: string, op: S.Op)
    requires Possible(place, y, ms) && IssuedSince(y.subs.calls, n, key, op)
    ensures IssuedSince(Run(place, y, ms).subs.calls, n, key, op)
    decreases |ms|
  {
    if ms != [] {
      IssuedStays(place, y, ms[0], n, key, op);
      IssuedRun(place, Moved(place, y, ms[0]), ms[1..], n, key, op);
    }
  }

  /**
   So does a public request that came upon the entry of an agent that has
   left: whatever the reason for which the entry stayed behind, once the calls
   were carried out it is gone, unless an agent was published since.
   */
  lemma CleanUpFreesTheLabel(place: Place, init: map<string, S.Entry>, y: Sys, accountId: string, name: string,
                             agentId: string, ms: seq<Move>, v: nat)
    requires SysInv(place, init, y) && CanMove(y, CleanUp(accountId, name, agentId))
    requires Possible(place, Moved(place, y, CleanUp(accountId, name, agentId)), ms)
    requires var y', key := Run(place, Moved(place, y, CleanUp(accountId, name, agentId)), ms), KeyOf(place, accountId, name);
      && key !in init && AllExecuted(y'.subs.calls, key)
      && v < |y.subs.calls| && LastRegister(y'.subs.calls, key, v) && y'.subs.calls[v].op.entry.agentId == agentId
    ensures var y' := Run(place, Moved(place, y, CleanUp(accountId, name, agentId)), ms);
      KeyOf(place, accountId, name) !in y'.subs.store
  {
    var y1, key := Moved(place, y, CleanUp(accountId, name, agentId)), KeyOf(place, accountId, name);
    assert y1.subs.calls[|y.subs.calls|].op == S.Unregister(agentId);
    IssuedRun(place, y1, ms, |y.subs.calls|, key, S.Unregister(agentId));
    SysInvMove(place, init, y, CleanUp(accountId, name, agentId));
    SysInvRun(place, init, y1, ms);
    WithdrawnIsFree(init, Run(place, y1, ms).subs, key, v, |y.subs.calls|, agentId);
  }

  /** With slugs as accounts get them, the calls on a label's key are those of the label's own sessions. */
  lemma CallsAreOfTheLabel(place: Place, y: Sys, accountId: string, name: string, i: nat)
    requires Linked(place, y) && i < |y.subs.calls| && y.subs.calls[i].key == KeyOf(place, accountId, name)
    requires forall a :: Slugs.IsValidSlug(place.slug(a)) && Slugs.NoDouble(place.slug(a))
    requires forall a, b :: place.slug(a) == place.slug(b) ==> a == b
    requires y.subs.calls[i].op.Register?
    ensures y.subs.calls[i].op.entry.accountId == accountId && y.subs.calls[i].op.entry.name == name
  {
    var c := y.subs.calls[i];
    assert CallOk(place, y.hub, c);
    var s :| s in y.hub.ever && c.key == KeyOf(place, s.accountId, s.name) && c.op.entry == EntryOf(place, s);
    Slugs.KeysAreDistinct(place.slug(s.accountId), s.name, place.slug(accountId), name);
  }

  // ---- An entry that stays ------------------------------------------------

  lemma {:induction false} Extend(place: Place, y: Sys, ms: seq<Move>, m: Move)
    requires Possible(place, y, ms) && CanMove(Run(place, y, ms), m)
    ensures Possible(place, y, ms + [m]) && Run(place, y, ms + [m]) == Moved(place, Run(place, y, ms), m)
    decreases |ms|
  {
    var all := ms + [m];
    if ms == [] {
      assert all[1..] == [];
    } else {
      assert all[0] == ms[0] && all[1..] == ms[1..] + [m];
      Extend(place, Moved(place, y, ms[0]), ms[1..], m);
    }
  }

  ghost predicate Leads(place: Place, init: map<string, S.Entry>, ms: seq<Move>, y: Sys) {
    Possible(place, Begun(init), ms) && Run(place, Begun(init), ms) == y
  }

  /** A run of the hub alone, as part of the whole. */
  lemma {:induction false} Lift(place: Place, init: map<string, S.Entry>, ms: seq<Move>, y: Sys, steps: seq<Step>)
    returns (ms': seq<Move>, y': Sys)
    requires Leads(place, init, ms, y) && Legal(y.hub, steps)
    ensures Leads(place, init, ms', y') && y'.hub == Exec(y.hub, steps) && y'.subs == y.subs
    ensures y.toPublish <= y'.toPublish
    ensures forall s :: s in Committed(y.hub, steps) ==> s in y'.toPublish
    decreases |steps|
  {
    ms', y' := ms, y;
    if steps != [] {
      Extend(place, Begun(init), ms, AtHub(steps[0]));
      ms', y' := Lift(place, init, ms + [AtHub(steps[0])], Moved(place, y, AtHub(steps[0])), steps[1..]);
    }
  }

  /** The sessions that a run registers. */
  ghost function Committed(h: Hub, steps: seq<Step>): set<A.Session>
    requires Legal(h, steps)
    decreases |steps|
  {
    if steps == [] then {} else Joining(h, steps[0]) + Committed(Next(h, steps[0]), steps[1..])
  }

  /** A session's entry is published, and the call carried out while no other waits. */
  lemma ThenPublish(place: Place, init: map<string, S.Entry>, ms: seq<Move>, y: Sys, s: A.Session)
    returns (ms': seq<Move>, y': Sys)
    requires Leads(place, init, ms, y) && s in y.toPublish && y.subs == S.Fresh(init)
    ensures Leads(place, init, ms', y') && y'.hub == y.hub
    ensures S.Names(y'.subs.store, KeyOf(place, s.accountId, s.name), s.agentId)
    ensures |y'.subs.calls| == 1 && Executed(y'.subs.calls[0])
  {
    Extend(place, Begun(init), ms, Publish(s));
    var a, y1 := ms + [Publish(s)], Moved(place, y, Publish(s));
    Extend(place, Begun(init), a, AtRedis(S.Start(0)));
    var b, y2 := a + [AtRedis(S.Start(0))], Moved(place, y1, AtRedis(S.Start(0)));
    Extend(place, Begun(init), b, AtRedis(S.Command(0, S.Ok)));
    ms', y' := b + [AtRedis(S.Command(0, S.Ok))], Moved(place, y2, AtRedis(S.Command(0, S.Ok)));
  }

  /** Two parts of a hub run. */
  lemma {:induction false} SplitRun(h: Hub, a: seq<Step>, b: seq<Step>)
    requires Legal(h, a + b)
    ensures Legal(h, a) && Legal(Exec(h, a), b) && Exec(h, a + b) == Exec(Exec(h, a), b)
    decreases |a|
  {
    if a == [] {
      assert a + b == b;
    } else {
      assert (a + b)[0] == a[0] && (a + b)[1..] == a[1..] + b;
      SplitRun(Next(h, a[0]), a[1..], b);
    }
  }

  /**
   An agent registers, its entry is published, and it falls silent. The
   heartbeat drops it, every call has been carried out, nobody holds the label,
   and the entry still names the agent that is gone.
   */
  lemma SilentEntryRun(place: Place, init: map<string, S.Entry>, t: Ticket, id: string, c: T.Conn)
    returns (ms: seq<Move>, y: Sys)
    requires t.limit == AtMost(1) && c.agentId == id
    ensures Leads(place, init, ms, y) && AllExecuted(y.subs.calls, KeyOf(place, t.accountId, t.name))
    ensures !A.Held(y.hub.reg, t.accountId, t.name)
    ensures S.Names(y.subs.store, KeyOf(place, t.accountId, t.name), id)
    ensures !RoutedRight(place, y, t.accountId, t.name)
  {
    var first, rest := SilentParts(t, id, c);
    ms, y := PublishedThenDropped(place, init, SessionOf(t, id), first, rest);
  }

  lemma SilentParts(t: Ticket, id: string, c: T.Conn) returns (first: seq<Step>, rest: seq<Step>)
    requires t.limit == AtMost(1) && c.agentId == id
    ensures Legal(START, first) && SessionOf(t, id) in Committed(START, first)
    ensures Legal(START, first + rest) && Exec(START, first + rest).reg == A.EMPTY
  {
    var h0, h;
    first, h0, rest, h := SilentRun(t, id, c);
    assert first[0] == Begin(t) && first[1..] == [Commit(t, id, None)];
    assert SessionOf(t, id) in Joining(Next(START, Begin(t)), Commit(t, id, None));
    assert SessionOf(t, id) in Committed(Next(START, Begin(t)), first[1..]);
  }

  lemma PublishedThenDropped(place: Place, init: map<string, S.Entry>, s: A.Session,
                             first: seq<Step>, rest: seq<Step>) returns (ms: seq<Move>, y: Sys)
    requires Legal(START, first) && s in Committed(START, first)
    requires Legal(START, first + rest) && Exec(START, first + rest).reg == A.EMPTY
    ensures Leads(place, init, ms, y) && y.hub.reg == A.EMPTY
    ensures AllExecuted(y.subs.calls, KeyOf(place, s.accountId, s.name))
    ensures S.Names(y.subs.store, KeyOf(place, s.accountId, s.name), s.agentId)
  {
    SplitRun(START, first, rest);
    var ms1, y1 := PublishedAgent(place, init, s, first);
    ms, y := Lift(place, init, ms1, y1, rest);
  }

  lemma PublishedAgent(place: Place, init: map<string, S.Entry>, s: A.Session, first: seq<Step>)
    returns (ms: seq<Move>, y: Sys)
    requires Legal(START, first) && s in Committed(START, first)
    ensures Leads(place, init, ms, y) && y.hub == Exec(START, first)
    ensures S.Names(y.subs.store, KeyOf(place, s.accountId, s.name), s.agentId)
    ensures |y.subs.calls| == 1 && Executed(y.subs.calls[0])
  {
    var ms1, y1 := Lift(place, init, [], Begun(init), first);
    ms, y := ThenPublish(place, init, ms1, y1, s);
  }
}
