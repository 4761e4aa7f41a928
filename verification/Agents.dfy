/**
 The hub's agent registry: one map from account and tunnel label to the live
 session, and two reverse indexes that must describe the same sessions.
 `label` is a Dafny keyword, so a tunnel's label is called its `name` here.
 */
module Agents {
  import opened Options

  /** A connection's registration. Sockets are numbered; `agentId` is unique to one registration. */
  datatype Session = Session(agentId: string, accountId: string, keyId: string, name: string,
                             ws: nat, fingerprint: string)

  datatype Registry = Registry(accounts: map<string, map<string, Session>>,
                               byAgentId: map<string, Session>,
                               byWs: map<nat, Session>)

  const EMPTY := Registry(map[], map[], map[])

  function Account(r: Registry, accountId: string): map<string, Session> {
    if accountId in r.accounts then r.accounts[accountId] else map[]
  }

  predicate Held(r: Registry, accountId: string, name: string) {
    accountId in r.accounts && name in r.accounts[accountId]
  }

  predicate Live(r: Registry, s: Session) {
    Held(r, s.accountId, s.name) && r.accounts[s.accountId][s.name] == s
  }

  /** `register`: the session takes its label, and whoever held the label leaves both indexes. */
  function Register(r: Registry, s: Session): Registry {
    var acct := Account(r, s.accountId);
    var ids := if s.name in acct then r.byAgentId - {acct[s.name].agentId} else r.byAgentId;
    var sockets := if s.name in acct then r.byWs - {acct[s.name].ws} else r.byWs;
    Registry(r.accounts[s.accountId := acct[s.name := s]], ids[s.agentId := s], sockets[s.ws := s])
  }

  /** `evict`: drops whichever session holds the label now. */
  function Evict(r: Registry, accountId: string, name: string): Registry {
    if !Held(r, accountId, name) then r
    else
      var s := r.accounts[accountId][name];
      var rest := r.accounts[accountId] - {name};
      Registry(
        if rest == map[] then r.accounts - {accountId} else r.accounts[accountId := rest],
        r.byAgentId - {s.agentId},
        r.byWs - {s.ws})
  }

  /**
   The possible results of `find`. A non-empty label is looked up; an empty one
   means "any agent of the account", so every session of the account may be
   the answer.
   */
  ghost predicate Finds(r: Registry, accountId: string, name: string, result: Option<Session>) {
    var acct := Account(r, accountId);
    if name != "" then result == if name in acct then Some(acct[name]) else None
    else if acct == map[] then result == None
    else exists n :: n in acct && result == Some(acct[n])
  }

  // ---- Agreement of the three maps ----------------------------------------

  ghost predicate Filed(r: Registry) {
    forall a :: a in r.accounts ==>
      && r.accounts[a] != map[]
      && forall n :: n in r.accounts[a] ==> r.accounts[a][n].accountId == a && r.accounts[a][n].name == n
  }

  ghost predicate IdsAgree(r: Registry) {
    && (forall i :: i in r.byAgentId ==> r.byAgentId[i].agentId == i && Live(r, r.byAgentId[i]))
    && (forall s :: Live(r, s) ==> s.agentId in r.byAgentId && r.byAgentId[s.agentId] == s)
  }

  ghost predicate SocketsLive(r: Registry) {
    forall w :: w in r.byWs ==> r.byWs[w].ws == w && Live(r, r.byWs[w])
  }

  ghost predicate SocketsComplete(r: Registry) {
    forall s :: Live(r, s) ==> s.ws in r.byWs && r.byWs[s.ws] == s
  }

  /** What holds whatever sockets register: the socket index may miss a session but never invents one. */
  ghost predicate Sound(r: Registry) { Filed(r) && IdsAgree(r) && SocketsLive(r) }

  /** The three maps describe the same set of sessions. */
  ghost predicate Agree(r: Registry) { Sound(r) && SocketsComplete(r) }

  lemma RegisterLive(r: Registry, s: Session, t: Session)
    ensures Live(Register(r, s), t) <==>
              t == s || (Live(r, t) && (t.accountId != s.accountId || t.name != s.name))
  {
  }

  lemma EvictLive(r: Registry, accountId: string, name: string, t: Session)
    ensures Live(Evict(r, accountId, name), t) <==>
              Live(r, t) && (t.accountId != accountId || t.name != name)
  {
    if Held(r, accountId, name) && Live(r, t) && t.accountId == accountId && t.name != name {
      assert t.name in r.accounts[accountId] - {name};
    }
  }

  lemma RegisterKeepsIds(r: Registry, s: Session)
    requires Sound(r) && s.agentId !in r.byAgentId
    ensures IdsAgree(Register(r, s))
  {
    var r' := Register(r, s);
    var acct := Account(r, s.accountId);
    assert s.name in acct ==> Live(r, acct[s.name]);
    forall i | i in r'.byAgentId ensures r'.byAgentId[i].agentId == i && Live(r', r'.byAgentId[i]) {
      if i != s.agentId {
        RegisterLive(r, s, r.byAgentId[i]);
      }
    }
    forall t | Live(r', t) ensures t.agentId in r'.byAgentId && r'.byAgentId[t.agentId] == t {
      RegisterLive(r, s, t);
    }
  }

  lemma RegisterKeepsSockets(r: Registry, s: Session)
    requires Sound(r)
    ensures SocketsLive(Register(r, s))
  {
    var r' := Register(r, s);
    var acct := Account(r, s.accountId);
    forall w | w in r'.byWs ensures r'.byWs[w].ws == w && Live(r', r'.byWs[w]) {
      if w != s.ws {
        RegisterLive(r, s, r.byWs[w]);
      }
    }
  }

  lemma RegisterKeepsSound(r: Registry, s: Session)
    requires Sound(r) && s.agentId !in r.byAgentId
    ensures Sound(Register(r, s))
  {
    RegisterKeepsIds(r, s);
    RegisterKeepsSockets(r, s);
    assert Filed(Register(r, s));
  }

  lemma EvictKeepsIds(r: Registry, accountId: string, name: string)
    requires Sound(r)
    ensures IdsAgree(Evict(r, accountId, name))
  {
    var r' := Evict(r, accountId, name);
    forall i | i in r'.byAgentId ensures r'.byAgentId[i].agentId == i && Live(r', r'.byAgentId[i]) {
      EvictLive(r, accountId, name, r.byAgentId[i]);
    }
    forall t | Live(r', t) ensures t.agentId in r'.byAgentId && r'.byAgentId[t.agentId] == t {
      EvictLive(r, accountId, name, t);
      if Held(r, accountId, name) { assert Live(r, r.accounts[accountId][name]); }
    }
  }

  lemma EvictKeepsSockets(r: Registry, accountId: string, name: string)
    requires Sound(r)
    ensures SocketsLive(Evict(r, accountId, name))
    ensures SocketsComplete(r) ==> SocketsComplete(Evict(r, accountId, name))
  {
    var r' := Evict(r, accountId, name);
    forall w | w in r'.byWs ensures r'.byWs[w].ws == w && Live(r', r'.byWs[w]) {
      EvictLive(r, accountId, name, r.byWs[w]);
    }
    if SocketsComplete(r) {
      forall t | Live(r', t) ensures t.ws in r'.byWs && r'.byWs[t.ws] == t {
        EvictLive(r, accountId, name, t);
        if Held(r, accountId, name) { assert Live(r, r.accounts[accountId][name]); }
      }
    }
  }

  lemma EvictKeepsSound(r: Registry, accountId: string, name: string)
    requires Sound(r)
    ensures Sound(Evict(r, accountId, name))
    ensures Agree(r) ==> Agree(Evict(r, accountId, name))
  {
    EvictKeepsIds(r, accountId, name);
    EvictKeepsSockets(r, accountId, name);
    assert Filed(Evict(r, accountId, name));
  }

  /**
   When `register` keeps the full agreement: exactly when the socket is not
   already serving another label or account.
   */
  lemma RegisterKeepsAgreeIff(r: Registry, s: Session)
    requires Agree(r) && s.agentId !in r.byAgentId
    ensures Agree(Register(r, s)) <==>
              (s.ws in r.byWs ==> r.byWs[s.ws].accountId == s.accountId && r.byWs[s.ws].name == s.name)
  {
    RegisterKeepsSound(r, s);
    RegisterSocketsIff(r, s);
  }

  lemma RegisterSocketsIff(r: Registry, s: Session)
    requires Filed(r) && SocketsLive(r) && SocketsComplete(r)
    ensures SocketsComplete(Register(r, s)) <==>
              (s.ws in r.byWs ==> r.byWs[s.ws].accountId == s.accountId && r.byWs[s.ws].name == s.name)
  {
    var r' := Register(r, s);
    if s.ws in r.byWs && (r.byWs[s.ws].accountId != s.accountId || r.byWs[s.ws].name != s.name) {
      RegisterLive(r, s, r.byWs[s.ws]);
    } else {
      forall t | Live(r', t) ensures t.ws in r'.byWs && r'.byWs[t.ws] == t {
        RegisterLive(r, s, t);
        if s.name in Account(r, s.accountId) { assert Live(r, r.accounts[s.accountId][s.name]); }
      }
    }
  }

  /** The overlooked session: a socket that registers a second label hides its first session from its own close. */
  lemma SecondLabelHidesTheFirst(r: Registry, s: Session, t: Session)
    requires Live(r, t) && s.ws == t.ws && (s.accountId, s.name) != (t.accountId, t.name)
    ensures var r' := Evict(Register(r, s), s.accountId, s.name);
      Live(r', t) && t.ws !in r'.byWs
  {
    RegisterLive(r, s, t);
    EvictLive(Register(r, s), s.accountId, s.name, t);
  }

  /** The number of sessions of an account, after a registration and after an eviction. */
  lemma CountAfterRegister(r: Registry, s: Session, a: string)
    ensures |Account(Register(r, s), a)| ==
              |Account(r, a)| + (if a == s.accountId && s.name !in Account(r, a) then 1 else 0)
  {
    var acct := Account(r, s.accountId);
    assert acct[s.name := s].Keys == acct.Keys + {s.name};
    assert |acct[s.name := s]| == |acct[s.name := s].Keys| && |acct| == |acct.Keys|;
  }

  // ---- The object ---------------------------------------------------------

  class AgentRegistry {
    var accounts: map<string, map<string, Session>>
    var byAgentId: map<string, Session>
    var byWs: map<nat, Session>

    ghost function View(): Registry reads this { Registry(accounts, byAgentId, byWs) }

    ghost predicate Valid() reads this { Sound(View()) }

    constructor ()
      ensures Valid() && View() == EMPTY
    {
      accounts, byAgentId, byWs := map[], map[], map[];
    }

    method Add(s: Session)
      requires Valid() && s.agentId !in byAgentId
      modifies this
      ensures Valid() && View() == Register(old(View()), s)
    {
      RegisterKeepsSound(View(), s);
      var acct := map[];
      if s.accountId in accounts { acct := accounts[s.accountId]; }
      if s.name in acct {
        var existing := acct[s.name];
        byAgentId := byAgentId - {existing.agentId};
        byWs := byWs - {existing.ws};
      }
      accounts := accounts[s.accountId := acct[s.name := s]];
      byAgentId := byAgentId[s.agentId := s];
      byWs := byWs[s.ws := s];
    }

    method Remove(accountId: string, name: string) returns (evicted: Option<Session>)
      requires Valid()
      modifies this
      ensures Valid() && View() == Evict(old(View()), accountId, name)
      ensures evicted == if old(Held(View(), accountId, name)) then Some(old(accounts[accountId][name])) else None
    {
      EvictKeepsSound(View(), accountId, name);
      if accountId !in accounts || name !in accounts[accountId] { return None; }
      var session := accounts[accountId][name];
      var acct := accounts[accountId] - {name};
      accounts := if acct == map[] then accounts - {accountId} else accounts[accountId := acct];
      byAgentId := byAgentId - {session.agentId};
      byWs := byWs - {session.ws};
      return Some(session);
    }

    method Find(accountId: string, name: string) returns (result: Option<Session>)
      ensures Finds(View(), accountId, name, result)
    {
      if accountId !in accounts || accounts[accountId] == map[] { return None; }
      var acct := accounts[accountId];
      if name != "" {
        return if name in acct then Some(acct[name]) else None;
      }
      var first :| first in acct;
      return Some(acct[first]);
    }

    /** The inner loop of `allSessions`. */
    method SessionsOf(a: string) returns (sessions: seq<Session>)
      requires Filed(View()) && a in accounts
      ensures forall s :: s in sessions <==> Live(View(), s) && s.accountId == a
      ensures forall i, j :: 0 <= i < j < |sessions| ==> sessions[i] != sessions[j]
    {
      sessions := [];
      var names := accounts[a].Keys;
      while names != {}
        invariant names <= accounts[a].Keys
        invariant forall s :: s in sessions <==> Live(View(), s) && s.accountId == a && s.name !in names
        invariant forall i, j :: 0 <= i < j < |sessions| ==> sessions[i] != sessions[j]
      {
        var n :| n in names;
        sessions := sessions + [accounts[a][n]];
        names := names - {n};
      }
    }

    /** `allSessions`: every live session, each once. */
    method AllSessions() returns (sessions: seq<Session>)
      requires Valid()
      ensures forall s :: s in sessions <==> Live(View(), s)
      ensures forall i, j :: 0 <= i < j < |sessions| ==> sessions[i].agentId != sessions[j].agentId
    {
      sessions := [];
      var todo := accounts.Keys;
      while todo != {}
        invariant todo <= accounts.Keys
        invariant forall s :: s in sessions <==> Live(View(), s) && s.accountId !in todo
        invariant forall i, j :: 0 <= i < j < |sessions| ==> sessions[i] != sessions[j]
      {
        var a :| a in todo;
        var more := SessionsOf(a);
        sessions := sessions + more;
        todo := todo - {a};
      }
      forall i, j | 0 <= i < j < |sessions| ensures sessions[i].agentId != sessions[j].agentId {
        assert Live(View(), sessions[i]) && Live(View(), sessions[j]);
      }
    }
  }
}
