/**
 Browser WebSockets relayed through a tunnel: which connection belongs to
 which agent, and how all connections of a lost agent are closed.
 */
module TunnelSockets {
  import opened Options
  import opened Utf8

  datatype Conn = Conn(connectionId: string, accountId: string, agentId: string, browser: nat)

  datatype Tunnels = Tunnels(byConnection: map<string, Conn>, byAgentId: map<string, set<string>>)

  const EMPTY := Tunnels(map[], map[])

  function Of(t: Tunnels, agentId: string): set<string> {
    if agentId in t.byAgentId then t.byAgentId[agentId] else {}
  }

  function Add(t: Tunnels, c: Conn): Tunnels {
    Tunnels(t.byConnection[c.connectionId := c],
            t.byAgentId[c.agentId := Of(t, c.agentId) + {c.connectionId}])
  }

  function Delete(t: Tunnels, id: string): Tunnels {
    if id !in t.byConnection then t
    else
      var owner := t.byConnection[id].agentId;
      var rest := Of(t, owner) - {id};
      Tunnels(t.byConnection - {id},
              if rest == {} then t.byAgentId - {owner} else t.byAgentId[owner := rest])
  }

  /** The specification of `closeAllForAgent`: exactly the agent's connections are gone from both maps. */
  function CloseAll(t: Tunnels, agentId: string): Tunnels {
    Tunnels(map id | id in t.byConnection && t.byConnection[id].agentId != agentId :: t.byConnection[id],
            t.byAgentId - {agentId})
  }

  /** The two maps say the same, and no agent is listed without a connection. */
  ghost predicate Agree(t: Tunnels) {
    && (forall id :: id in t.byConnection ==>
          t.byConnection[id].connectionId == id && id in Of(t, t.byConnection[id].agentId))
    && (forall a :: a in t.byAgentId ==> t.byAgentId[a] != {})
    && (forall a, id :: a in t.byAgentId && id in t.byAgentId[a] ==>
          id in t.byConnection && t.byConnection[id].agentId == a)
  }

  /** `add` keeps the agreement exactly when the id is new, or already belongs to the same agent. */
  lemma AddKeepsAgreeIff(t: Tunnels, c: Conn)
    requires Agree(t)
    ensures Agree(Add(t, c)) <==>
              c.connectionId !in t.byConnection || t.byConnection[c.connectionId].agentId == c.agentId
  {
    var t' := Add(t, c);
    var id := c.connectionId;
    if id in t.byConnection && t.byConnection[id].agentId != c.agentId {
      var a := t.byConnection[id].agentId;
      assert a in t'.byAgentId && id in t'.byAgentId[a] && t'.byConnection[id].agentId != a;
    } else {
      forall a, i | a in t'.byAgentId && i in t'.byAgentId[a]
        ensures i in t'.byConnection && t'.byConnection[i].agentId == a
      {
        if i != id { assert a in t.byAgentId && i in t.byAgentId[a]; }
      }
      assert Agree(t');
    }
  }

  lemma DeleteKeepsAgree(t: Tunnels, id: string)
    requires Agree(t)
    ensures Agree(Delete(t, id))
  {
  }

  lemma CloseAllKeepsAgree(t: Tunnels, agentId: string)
    requires Agree(t)
    ensures Agree(CloseAll(t, agentId))
    ensures forall id :: id in CloseAll(t, agentId).byConnection <==>
              id in t.byConnection && id !in Of(t, agentId)
  {
  }

  /** The state in which some of an agent's connections have been deleted. */
  ghost function CloseSome(t: Tunnels, agentId: string, ids: set<string>): Tunnels {
    Tunnels(t.byConnection - ids,
            if Of(t, agentId) <= ids then t.byAgentId - {agentId}
            else t.byAgentId[agentId := Of(t, agentId) - ids])
  }

  lemma CloseOneMore(t: Tunnels, agentId: string, ids: set<string>, id: string)
    requires Agree(t) && id in Of(t, agentId) && id !in ids
    ensures Delete(CloseSome(t, agentId, ids), id) == CloseSome(t, agentId, ids + {id})
    ensures id in CloseSome(t, agentId, ids).byConnection
  {
    assert Of(t, agentId) - (ids + {id}) == Of(t, agentId) - ids - {id};
    assert t.byConnection - (ids + {id}) == t.byConnection - ids - {id};
    assert Of(t, agentId) <= ids + {id} <==> Of(t, agentId) - ids - {id} == {};
  }

  lemma CloseNone(t: Tunnels, agentId: string)
    requires Agree(t) && agentId in t.byAgentId
    ensures CloseSome(t, agentId, {}) == t
  {
    assert t.byConnection - {} == t.byConnection && Of(t, agentId) - {} == Of(t, agentId);
  }

  const MAX_CLOSE_REASON_BYTES := 123

  /**
   The loop of `closeBrowserSocket`: the longest prefix of the reason that
   fits a close frame.
   */
  method SafeReason(reason: string) returns (safe: string)
    ensures safe <= reason && ByteLen(safe) <= MAX_CLOSE_REASON_BYTES
    ensures forall longer: string :: safe < longer && longer <= reason ==> ByteLen(longer) > MAX_CLOSE_REASON_BYTES
  {
    safe := reason;
    while ByteLen(safe) > MAX_CLOSE_REASON_BYTES
      invariant safe <= reason
      invariant forall longer: string :: safe < longer && longer <= reason ==> ByteLen(longer) > MAX_CLOSE_REASON_BYTES
      decreases |safe|
    {
      ghost var before := safe;
      safe := safe[..|safe| - 1];
      forall longer: string | safe < longer && longer <= reason ensures ByteLen(longer) > MAX_CLOSE_REASON_BYTES {
        if |longer| == |before| {
          assert longer == before;
        } else {
          assert before < longer;
        }
      }
    }
  }

  /** `[...ids]`: the elements of a set, each once, in some order. */
  method Spread(ids: set<string>) returns (a: seq<string>)
    ensures |a| == |ids|
    ensures forall x :: x in a <==> x in ids
    ensures forall i, j :: 0 <= i < j < |a| ==> a[i] != a[j]
  {
    a := [];
    var todo := ids;
    while todo != {}
      invariant todo <= ids && |a| + |todo| == |ids|
      invariant forall x :: x in a <==> x in ids && x !in todo
      invariant forall i, j :: 0 <= i < j < |a| ==> a[i] != a[j]
    {
      var x :| x in todo;
      a := a + [x];
      todo := todo - {x};
    }
  }

  class TunnelWsRegistry {
    var byConnection: map<string, Conn>
    var byAgentId: map<string, set<string>>
    /** Connections whose browser socket has been closed. */
    var closedIds: set<string>

    ghost function View(): Tunnels reads this { Tunnels(byConnection, byAgentId) }

    ghost predicate Valid() reads this { Agree(View()) }

    constructor ()
      ensures Valid() && View() == EMPTY && closedIds == {}
    {
      byConnection, byAgentId, closedIds := map[], map[], {};
    }

    method Open(c: Conn)
      requires Valid() && c.connectionId !in byConnection
      modifies this`byConnection, this`byAgentId
      ensures Valid() && View() == Add(old(View()), c)
    {
      AddKeepsAgreeIff(View(), c);
      byConnection := byConnection[c.connectionId := c];
      var ids := {};
      if c.agentId in byAgentId { ids := byAgentId[c.agentId]; }
      byAgentId := byAgentId[c.agentId := ids + {c.connectionId}];
    }

    method Remove(id: string) returns (removed: Option<Conn>)
      requires Valid()
      modifies this`byConnection, this`byAgentId
      ensures Valid() && View() == Delete(old(View()), id)
      ensures removed == if id in old(byConnection) then Some(old(byConnection)[id]) else None
    {
      DeleteKeepsAgree(View(), id);
      if id !in byConnection { return None; }
      var c := byConnection[id];
      byConnection := byConnection - {id};
      var ids := byAgentId[c.agentId] - {id};
      byAgentId := if ids == {} then byAgentId - {c.agentId} else byAgentId[c.agentId := ids];
      return Some(c);
    }

    /** `teardown`: forget the connection and close its browser socket; a second call does nothing. */
    method Teardown(id: string) returns (closed: bool)
      requires Valid()
      modifies this
      ensures Valid() && View() == Delete(old(View()), id)
      ensures closed == (id in old(byConnection))
      ensures closedIds == old(closedIds) + if closed then {id} else {}
    {
      var removed := Remove(id);
      closed := removed.Some?;
      if closed { closedIds := closedIds + {id}; }
    }

    /** The loop of `closeAllForAgent`, over the agent's connections spread into an array. */
    method CloseEach(agentId: string, ids: seq<string>) returns (closed: nat)
      requires Valid() && agentId in byAgentId
      requires forall id :: id in ids <==> id in byAgentId[agentId]
      requires forall i, j :: 0 <= i < j < |ids| ==> ids[i] != ids[j]
      modifies this
      ensures Valid() && View() == CloseSome(old(View()), agentId, old(byAgentId[agentId]))
      ensures closed == |ids|
      ensures closedIds == old(closedIds) + old(byAgentId[agentId])
    {
      ghost var t := View();
      ghost var done: set<string> := {};
      closed := 0;
      CloseNone(t, agentId);
      for i := 0 to |ids|
        invariant forall id :: id in done <==> id in ids[..i]
        invariant Valid() && View() == CloseSome(t, agentId, done)
        invariant closed == i
        invariant closedIds == old(closedIds) + done
      {
        CloseOneMore(t, agentId, done, ids[i]);
        var known := Teardown(ids[i]);
        done := done + {ids[i]};
        if known { closed := closed + 1; }
      }
      assert done == t.byAgentId[agentId];
    }

    /** Closes every connection of the agent and counts them. */
    method CloseAllForAgent(agentId: string) returns (closed: nat)
      requires Valid()
      modifies this
      ensures Valid() && View() == CloseAll(old(View()), agentId)
      ensures closed == |Of(old(View()), agentId)|
      ensures closedIds == old(closedIds) + Of(old(View()), agentId)
    {
      if agentId !in byAgentId {
        assert byConnection - {} == byConnection;
        return 0;
      }
      var ids := Spread(byAgentId[agentId]);
      closed := CloseEach(agentId, ids);
    }
  }
}
