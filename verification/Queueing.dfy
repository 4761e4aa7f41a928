/**
 The agent's durable queue (two SQLite tables, as maps) and its replay: each
 entry is acknowledged, retried with exponential backoff, or moved to the dead
 letters at its last permitted failure.
 */
module Queueing {

  const MAX_ATTEMPTS_INBOUND := 5
  const MAX_BACKOFF_MS := 300_000

  datatype Direction = Inbound | Outbound

  datatype Item = Item(id: string, direction: Direction, payload: string, ts: int,
                       attempts: nat, maxAttempts: nat, nextRetryAt: int)

  /** A row of `dead_letter`. */
  datatype DeadItem = DeadItem(id: string, direction: Direction, payload: string, ts: int, attempts: nat, failedAt: int)

  /**
   The two tables, with a record of what has been acknowledged, how often each
   entry has failed, and how many failures it is allowed.
   */
  datatype Store = Store(queue: map<string, Item>, dead: map<string, DeadItem>, acked: set<string>,
                         failures: map<string, nat>, allowed: map<string, nat>)

  const EMPTY := Store(map[], map[], {}, map[], map[])

  function Backoff(n: nat): (ms: nat)
    ensures n >= 1 ==> 1_000 <= ms <= MAX_BACKOFF_MS
  {
    if n == 0 then 500
    else if Backoff(n - 1) * 2 <= MAX_BACKOFF_MS then Backoff(n - 1) * 2 else MAX_BACKOFF_MS
  }

  function Enter(s: Store, item: Item): Store {
    s.(queue := s.queue[item.id := item], failures := s.failures[item.id := 0],
       allowed := s.allowed[item.id := item.maxAttempts])
  }

  function Succeed(s: Store, id: string): Store {
    if id in s.queue then s.(queue := s.queue - {id}, acked := s.acked + {id}) else s
  }

  function Retried(item: Item, now: int): Item {
    item.(attempts := item.attempts + 1, nextRetryAt := now + Backoff(item.attempts + 1))
  }

  function Buried(item: Item, now: int): DeadItem {
    DeadItem(item.id, item.direction, item.payload, item.ts, item.attempts + 1, now)
  }

  predicate LastFailure(item: Item) { item.attempts + 1 >= item.maxAttempts }

  function Fail(s: Store, id: string, now: int): Store
    requires id in s.queue ==> id in s.failures
  {
    if id !in s.queue then s
    else
      var s' := s.(failures := s.failures[id := s.failures[id] + 1]);
      if LastFailure(s.queue[id])
      then s'.(queue := s.queue - {id}, dead := s.dead[id := Buried(s.queue[id], now)])
      else s'.(queue := s.queue[id := Retried(s.queue[id], now)])
  }

  // ---- Every entry is in exactly one place --------------------------------

  predicate NewItem(item: Item) { item.attempts == 0 && item.maxAttempts >= 1 }

  ghost predicate Placed(s: Store, id: string)
    requires id in s.failures && id in s.allowed
  {
    if id in s.queue then
      && id !in s.dead && id !in s.acked
      && s.queue[id].id == id && s.queue[id].maxAttempts == s.allowed[id]
      && s.queue[id].attempts == s.failures[id] < s.allowed[id]
    else if id in s.dead then
      id !in s.acked && s.dead[id].attempts == s.failures[id] == s.allowed[id]
    else id in s.acked && s.failures[id] < s.allowed[id]
  }

  ghost predicate Inv(s: Store) {
    && s.failures.Keys == s.allowed.Keys == s.queue.Keys + s.dead.Keys + s.acked
    && forall id :: id in s.failures ==> Placed(s, id)
  }

  datatype Event = Entered(item: Item) | Succeeded(id: string) | Failed(id: string, at: int)

  ghost predicate Enabled(s: Store, e: Event) {
    e.Entered? ==> NewItem(e.item) && e.item.id !in s.failures
  }

  ghost function Apply(s: Store, e: Event): Store
    requires Inv(s) && Enabled(s, e)
  {
    match e
    case Entered(item) => Enter(s, item)
    case Succeeded(id) => Succeed(s, id)
    case Failed(id, at) => Fail(s, id, at)
  }

  lemma InvApply(s: Store, e: Event)
    requires Inv(s) && Enabled(s, e)
    ensures Inv(Apply(s, e))
  {
    match e
    case Entered(item) => InvEnter(s, item);
    case Succeeded(id) => InvSucceed(s, id);
    case Failed(id, at) => InvFail(s, id, at);
  }

  lemma InvEnter(s: Store, item: Item)
    requires Inv(s) && NewItem(item) && item.id !in s.failures
    ensures Inv(Enter(s, item))
  {
    var s' := Enter(s, item);
    forall id | id in s'.failures ensures Placed(s', id) {
      if id != item.id { assert Placed(s, id); }
    }
  }

  lemma InvSucceed(s: Store, id: string)
    requires Inv(s)
    ensures Inv(Succeed(s, id))
  {
    var s' := Succeed(s, id);
    forall i | i in s.failures ensures Placed(s', i) { assert Placed(s, i); }
  }

  lemma InvFail(s: Store, id: string, now: int)
    requires Inv(s)
    ensures Inv(Fail(s, id, now))
  {
    var s' := Fail(s, id, now);
    assert id in s.queue ==> Placed(s, id);
    forall i | i in s.failures ensures Placed(s', i) { assert Placed(s, i); }
  }

  ghost predicate Legal(s: Store, es: seq<Event>)
    requires Inv(s)
    decreases |es|
  {
    es == [] || (Enabled(s, es[0]) && (InvApply(s, es[0]); Legal(Apply(s, es[0]), es[1..])))
  }

  ghost function Exec(s: Store, es: seq<Event>): Store
    requires Inv(s) && Legal(s, es)
    decreases |es|
  {
    if es == [] then s else InvApply(s, es[0]); Exec(Apply(s, es[0]), es[1..])
  }

  lemma {:induction false} InvExec(s: Store, es: seq<Event>)
    requires Inv(s) && Legal(s, es)
    ensures Inv(Exec(s, es))
    decreases |es|
  {
    if es != [] {
      InvApply(s, es[0]);
      InvExec(Apply(s, es[0]), es[1..]);
    }
  }

  /**
   In every run, even with replays overlapping, each entry ever queued is in
   exactly one of queue, dead letters and acknowledged, and it is among the
   dead letters exactly when it has failed as often as it may.
   */
  lemma EveryEntryInOnePlace(es: seq<Event>, id: string)
    requires Legal(EMPTY, es) && id in Exec(EMPTY, es).failures
    ensures var s := Exec(EMPTY, es);
      && id in s.allowed
      && (if id in s.queue then id !in s.dead && id !in s.acked else id in s.dead <==> id !in s.acked)
      && (id in s.dead <==> s.failures[id] == s.allowed[id]) && s.failures[id] <= s.allowed[id]
  {
    InvExec(EMPTY, es);
    assert Placed(Exec(EMPTY, es), id);
  }

  // ---- When a failed entry is due again -----------------------------------

  function Pow2(n: nat): nat { if n == 0 then 1 else 2 * Pow2(n - 1) }

  function Min(a: int, b: int): int { if a < b then a else b }

  /** One second, doubled with every further failure, and at most five minutes. */
  lemma {:induction false} BackoffDoubles(n: nat)
    requires n >= 1
    ensures Backoff(n) == Min(1_000 * Pow2(n - 1), 300_000)
  {
    if n > 1 {
      BackoffDoubles(n - 1);
    } else {
      assert Backoff(0) == 500;
    }
  }

  /** An entry after a failure at time `at`: one attempt more, due after the backoff, otherwise as it was. */
  ghost function Rescheduled(item: Item, at: int): Item {
    Item(item.id, item.direction, item.payload, item.ts, item.attempts + 1, item.maxAttempts,
         at + Min(1_000 * Pow2(item.attempts), 300_000))
  }

  /**
   What a failure does: an entry that may fail again stays queued and is due
   exactly from one second on, doubled for every failure before and capped at
   five minutes; at its last permitted failure it becomes a dead letter with
   the same content. No other entry changes.
   */
  lemma FailureReschedules(s: Store, id: string, at: int)
    requires Inv(s) && id in s.queue
    ensures var item, s' := s.queue[id], Apply(s, Failed(id, at));
      && s'.queue - {id} == s.queue - {id} && s'.dead - {id} == s.dead - {id} && s'.acked == s.acked
      && if item.attempts + 1 < item.maxAttempts then
           && id in s'.queue && s'.queue[id] == Rescheduled(item, at) && id !in s'.dead
           && forall t :: id in ReadyIds(s'.queue, t) <==> at + Min(1_000 * Pow2(item.attempts), 300_000) <= t
         else
           && id !in s'.queue && id in s'.dead
           && s'.dead[id] == DeadItem(id, item.direction, item.payload, item.ts, item.attempts + 1, at)
  {
    assert Placed(s, id);
    BackoffDoubles(s.queue[id].attempts + 1);
  }

  /** Wherever the entry is, its content is that of `item`, and it has not been tried less often. */
  ghost predicate ContentOf(item: Item, s: Store, id: string) {
    && (id in s.queue ==>
          var x := s.queue[id];
          x.direction == item.direction && x.payload == item.payload && x.ts == item.ts && x.attempts >= item.attempts)
    && (id in s.dead ==>
          var x := s.dead[id];
          x.direction == item.direction && x.payload == item.payload && x.ts == item.ts && x.attempts > item.attempts)
  }

  lemma ContentStep(s: Store, e: Event, id: string, item: Item)
    requires Inv(s) && Enabled(s, e) && id in s.failures && ContentOf(item, s, id)
    ensures id in Apply(s, e).failures && ContentOf(item, Apply(s, e), id)
  {
    assert Placed(s, id);
  }

  lemma {:induction false} ContentExec(s: Store, es: seq<Event>, id: string, item: Item)
    requires Inv(s) && Legal(s, es) && id in s.failures && ContentOf(item, s, id)
    ensures ContentOf(item, Exec(s, es), id)
    decreases |es|
  {
    if es != [] {
      ContentStep(s, es[0], id, item);
      InvApply(s, es[0]);
      ContentExec(Apply(s, es[0]), es[1..], id, item);
    }
  }

  /** The content of an entry is what it was queued with, for as long as it is queued and as a dead letter. */
  lemma ContentStays(s: Store, item: Item, es: seq<Event>)
    requires Inv(s) && Enabled(s, Entered(item)) && Inv(Apply(s, Entered(item))) && Legal(Apply(s, Entered(item)), es)
    ensures ContentOf(item, Exec(Apply(s, Entered(item)), es), item.id)
  {
    var s' := Apply(s, Entered(item));
    assert item.id !in s.failures.Keys;
    ContentExec(s', es, item.id, item);
  }

  // ---- One replay pass ----------------------------------------------------

  /** What happens when an entry is tried. */
  datatype Try = Works | Breaks(at: int)

  predicate Ready(item: Item, now: int) { item.nextRetryAt <= now }

  ghost function ReadyIds(q: map<string, Item>, now: int): set<string> {
    set id | id in q && Ready(q[id], now)
  }

  predicate Remains(item: Item, t: Try) {
    item.direction.Inbound? && t.Breaks? && !LastFailure(item)
  }

  /** The queue after the entries `ids` were tried: only entries that failed and may fail again remain of them. */
  ghost function AfterTrying(q: map<string, Item>, ids: set<string>, tries: string -> Try): map<string, Item> {
    map id | id in q && (id in ids ==> Remains(q[id], tries(id))) ::
      if id in ids then Retried(q[id], tries(id).at) else q[id]
  }

  /** The queue's entries are filed under their id and have attempts left. */
  ghost predicate Active(q: map<string, Item>) {
    forall id :: id in q ==> q[id].id == id && q[id].attempts < q[id].maxAttempts
  }

  function Left(item: Item): nat { if item.attempts < item.maxAttempts then item.maxAttempts - item.attempts else 0 }

  /** All the failures the queue can still take. */
  ghost function Potential(q: map<string, Item>): nat
    decreases |q|
  {
    if q == map[] then 0
    else
      var id :| id in q;
      Left(q[id]) + Potential(q - {id})
  }

  lemma {:induction false} PotentialWithout(q: map<string, Item>, id: string)
    requires id in q
    ensures Potential(q) == Left(q[id]) + Potential(q - {id})
    decreases |q|
  {
    var k :| k in q && Potential(q) == Left(q[k]) + Potential(q - {k});
    if k != id {
      PotentialWithout(q - {k}, id);
      PotentialWithout(q - {id}, k);
      assert q - {k} - {id} == q - {id} - {k};
    }
  }

  /** Trying one more entry uses up at least one permitted failure. */
  lemma TryingUsesPotential(q: map<string, Item>, ids: set<string>, id: string, tries: string -> Try)
    requires Active(q) && id in q && id !in ids
    ensures Potential(AfterTrying(q, ids + {id}, tries)) + 1 <= Potential(AfterTrying(q, ids, tries))
  {
    var a, b := AfterTrying(q, ids, tries), AfterTrying(q, ids + {id}, tries);
    PotentialWithout(a, id);
    assert a - {id} == b - {id};
    if id in b {
      PotentialWithout(b, id);
    } else {
      assert b - {id} == b;
    }
  }

  lemma {:induction false} PassUsesPotential(q: map<string, Item>, ids: set<string>, tries: string -> Try)
    requires Active(q) && ids <= q.Keys
    ensures Potential(AfterTrying(q, ids, tries)) + |ids| <= Potential(q)
    decreases |ids|
  {
    if ids == {} {
      assert AfterTrying(q, ids, tries) == q;
    } else {
      var id :| id in ids;
      PassUsesPotential(q, ids - {id}, tries);
      TryingUsesPotential(q, ids - {id}, id, tries);
      assert ids - {id} + {id} == ids;
    }
  }

  lemma PassStaysActive(q: map<string, Item>, ids: set<string>, tries: string -> Try)
    requires Active(q)
    ensures Active(AfterTrying(q, ids, tries))
  {
  }

  datatype Pass = Pass(now: int, tries: string -> Try)

  ghost function AfterPass(q: map<string, Item>, p: Pass): map<string, Item> {
    AfterTrying(q, ReadyIds(q, p.now), p.tries)
  }

  ghost function AfterPasses(q: map<string, Item>, ps: seq<Pass>): map<string, Item>
    decreases |ps|
  {
    if ps == [] then q else AfterPasses(AfterPass(q, ps[0]), ps[1..])
  }

  /**
   What a pass leaves of an entry: it stays as it is if it is not due, stays
   rescheduled if it came from the hub, broke, and may fail again, and is gone
   otherwise.
   */
  lemma PassLeaves(q: map<string, Item>, p: Pass, id: string)
    requires id in q
    ensures var item, q' := q[id], AfterPass(q, p);
      if p.now < item.nextRetryAt then id in q' && q'[id] == item
      else if item.direction == Inbound && p.tries(id).Breaks? && item.attempts + 1 < item.maxAttempts
      then id in q' && q'[id] == Rescheduled(item, p.tries(id).at)
      else id !in q'
  {
    BackoffDoubles(q[id].attempts + 1);
  }

  /** Every pass comes late enough to find something to try, as long as there is anything. */
  ghost predicate Timely(q: map<string, Item>, ps: seq<Pass>)
    decreases |ps|
  {
    ps == [] || ((q != map[] ==> ReadyIds(q, ps[0].now) != {}) && Timely(AfterPass(q, ps[0]), ps[1..]))
  }

  /** Termination: as many timely passes as there are permitted failures empty the queue, whatever fails. */
  lemma {:induction false} RepeatedPassesEmptyTheQueue(q: map<string, Item>, ps: seq<Pass>)
    requires Active(q) && Timely(q, ps) && |ps| >= Potential(q)
    ensures AfterPasses(q, ps) == map[]
    decreases |ps|
  {
    if ps != [] {
      var ids := ReadyIds(q, ps[0].now);
      PassUsesPotential(q, ids, ps[0].tries);
      PassStaysActive(q, ids, ps[0].tries);
      if q == map[] {
        assert AfterPass(q, ps[0]) == map[];
      }
      RepeatedPassesEmptyTheQueue(AfterPass(q, ps[0]), ps[1..]);
    }
  }

  // ---- Overlapping passes -------------------------------------------------

  /** Settling an entry uses up a permitted failure exactly if the entry is still in the queue. */
  lemma SettlingUsesPotential(s: Store, e: Event)
    requires Inv(s) && !e.Entered?
    ensures Potential(Apply(s, e).queue) < Potential(s.queue) <==> e.id in s.queue
    ensures e.id !in s.queue ==> Apply(s, e) == s
  {
    if e.id in s.queue {
      var q' := Apply(s, e).queue;
      assert Placed(s, e.id);
      PotentialWithout(s.queue, e.id);
      assert q' - {e.id} == s.queue - {e.id};
      if e.id in q' {
        PotentialWithout(q', e.id);
      } else {
        assert q' - {e.id} == q';
      }
    }
  }

  /** How many of the events found their entry still in the queue. */
  ghost function Effective(s: Store, es: seq<Event>): nat
    requires Inv(s) && Legal(s, es)
    decreases |es|
  {
    if es == [] then 0
    else
      InvApply(s, es[0]);
      (if !es[0].Entered? && es[0].id in s.queue then 1 else 0) + Effective(Apply(s, es[0]), es[1..])
  }

  /**
   However many passes overlap, and in whatever order their outcomes arrive:
   without new entries, no more outcomes take effect than there are permitted
   failures left.
   */
  lemma {:induction false} OverlappingPassesEnd(s: Store, es: seq<Event>)
    requires Inv(s) && Legal(s, es) && forall i :: 0 <= i < |es| ==> !es[i].Entered?
    ensures Effective(s, es) + Potential(Exec(s, es).queue) <= Potential(s.queue)
    decreases |es|
  {
    if es != [] {
      SettlingUsesPotential(s, es[0]);
      InvApply(s, es[0]);
      OverlappingPassesEnd(Apply(s, es[0]), es[1..]);
    }
  }

  // ---- The objects --------------------------------------------------------

  /** `ORDER BY`: outbound entries first, then by age. */
  predicate Before(a: Item, b: Item) {
    (a.direction.Outbound? && b.direction.Inbound?) || (a.direction == b.direction && a.ts <= b.ts)
  }

  ghost predicate Sorted(items: seq<Item>) {
    forall i, j :: 0 <= i < j < |items| ==> Before(items[i], items[j])
  }

  /** The order in which entries are replayed. */
  lemma SortedIff(items: seq<Item>)
    ensures Sorted(items) <==>
              (forall i, j :: 0 <= i < j < |items| && items[i].direction == items[j].direction ==> items[i].ts <= items[j].ts)
              && (forall i, j :: 0 <= i < j < |items| && items[j].direction == Outbound ==> items[i].direction == Outbound)
  {
    if Sorted(items) {
      forall i, j | 0 <= i < j < |items| ensures Before(items[i], items[j]) {}
    } else {
      var i, j :| 0 <= i < j < |items| && !Before(items[i], items[j]);
    }
  }

  function Insert(items: seq<Item>, x: Item): (r: seq<Item>)
    ensures multiset(r) == multiset(items) + multiset{x}
  {
    if items == [] || Before(x, items[0]) then [x] + items
    else
      assert items == [items[0]] + items[1..];
      [items[0]] + Insert(items[1..], x)
  }

  lemma {:induction false} InsertKeepsSorted(items: seq<Item>, x: Item)
    requires Sorted(items)
    ensures Sorted(Insert(items, x))
  {
    if items != [] && !Before(x, items[0]) {
      var rest := Insert(items[1..], x);
      InsertKeepsSorted(items[1..], x);
      forall i | 0 <= i < |rest| ensures Before(items[0], rest[i]) {
        assert rest[i] in multiset(rest);
        if rest[i] != x { assert rest[i] in multiset(items[1..]); }
      }
    }
  }

  class DurableQueue {
    var queue: map<string, Item>
    var dead: map<string, DeadItem>
    ghost var acked: set<string>
    ghost var failures: map<string, nat>
    ghost var allowed: map<string, nat>

    ghost function View(): Store reads this { Store(queue, dead, acked, failures, allowed) }

    ghost predicate Valid() reads this { Inv(View()) }

    constructor ()
      ensures Valid() && View() == EMPTY
    {
      queue, dead, acked, failures, allowed := map[], map[], {}, map[], map[];
    }

    method EnqueueInbound(id: string, payload: string, now: int)
      requires Valid() && id !in failures
      modifies this
      ensures Valid()
      ensures View() == Apply(old(View()), Entered(Item(id, Inbound, payload, now, 0, MAX_ATTEMPTS_INBOUND, 0)))
      ensures queue == old(queue)[id := Item(id, Inbound, payload, now, 0, 5, 0)]
      ensures forall t :: 0 <= t ==> id in ReadyIds(queue, t)
    {
      var item := Item(id, Inbound, payload, now, 0, MAX_ATTEMPTS_INBOUND, 0);
      InvApply(View(), Entered(item));
      queue := queue[id := item];
      failures, allowed := failures[id := 0], allowed[id := MAX_ATTEMPTS_INBOUND];
    }

    /** All entries that are due, each once, in replay order. */
    method DrainForReplay(now: int) returns (items: seq<Item>)
      requires Valid()
      ensures Sorted(items)
      ensures forall x :: x in items <==> x.id in queue && queue[x.id] == x && Ready(x, now)
      ensures forall i, j :: 0 <= i < j < |items| ==> items[i].id != items[j].id
    {
      items := [];
      var todo := queue.Keys;
      while todo != {}
        invariant todo <= queue.Keys
        invariant Sorted(items)
        invariant forall x :: multiset(items)[x] ==
                    if x.id in queue && x.id !in todo && queue[x.id] == x && Ready(x, now) then 1 else 0
      {
        var id :| id in todo;
        assert Placed(View(), id);
        if Ready(queue[id], now) {
          InsertKeepsSorted(items, queue[id]);
          items := Insert(items, queue[id]);
        }
        todo := todo - {id};
      }
      OnceEach(queue, items);
    }

    method MarkSuccess(id: string)
      requires Valid()
      modifies this
      ensures Valid() && View() == Apply(old(View()), Succeeded(id))
    {
      InvApply(View(), Succeeded(id));
      if id in queue { acked := acked + {id}; }
      assert id !in queue ==> queue - {id} == queue;
      queue := queue - {id};
    }

    method RecordFailure(id: string, now: int)
      requires id in queue && id in failures
      modifies this
      ensures View() == Fail(old(View()), id, now)
    {
      var item := queue[id];
      var newAttempts := item.attempts + 1;
      failures := failures[id := failures[id] + 1];
      if newAttempts >= item.maxAttempts {
        dead := dead[id := DeadItem(item.id, item.direction, item.payload, item.ts, newAttempts, now)];
        queue := queue - {id};
      } else {
        queue := queue[id := item.(attempts := newAttempts, nextRetryAt := now + Backoff(newAttempts))];
      }
    }

    method MarkFailed(id: string, now: int)
      requires Valid()
      modifies this
      ensures Valid() && View() == Apply(old(View()), Failed(id, now))
    {
      InvApply(View(), Failed(id, now));
      if id in queue { RecordFailure(id, now); }
    }
  }

  /** Entries of the queue counted at most once have different ids. */
  lemma OnceEach(q: map<string, Item>, items: seq<Item>)
    requires forall x :: multiset(items)[x] <= if x.id in q && q[x.id] == x then 1 else 0
    ensures forall x :: x in items <==> multiset(items)[x] > 0
    ensures forall i, j :: 0 <= i < j < |items| ==> items[i].id != items[j].id
  {
    forall x ensures x in items <==> multiset(items)[x] > 0 {}
    forall i, j | 0 <= i < j < |items| ensures items[i].id != items[j].id {
      TwiceMeansTwo(items, i, j);
      assert items[i] in multiset(items) && items[j] in multiset(items);
    }
  }

  lemma TwiceMeansTwo(items: seq<Item>, i: nat, j: nat)
    requires i < j < |items|
    ensures items[i] == items[j] ==> multiset(items)[items[i]] >= 2
  {
    assert items == items[..i] + [items[i]] + items[i + 1..j] + [items[j]] + items[j + 1..];
  }

  datatype ReplayResult = ReplayResult(succeeded: nat, failed: nat, skipped: nat)

  datatype Column = Succeeds | Fails | Skips

  function ColumnOf(item: Item, t: Try): Column {
    if item.direction.Outbound? then Skips else if t.Works? then Succeeds else Fails
  }

  /** One entry of the replay loop. */
  method ReplayOne(q: DurableQueue, item: Item, t: Try) returns (r: ReplayResult)
    requires q.Valid() && item.id in q.queue && q.queue[item.id] == item
    modifies q
    ensures q.Valid()
    ensures q.queue == if Remains(item, t) then old(q.queue)[item.id := Retried(item, t.at)] else old(q.queue) - {item.id}
    ensures r == One(ColumnOf(item, t))
  {
    if item.direction.Outbound? {
      q.MarkSuccess(item.id);
      r := ReplayResult(0, 0, 1);
    } else if t.Works? {
      q.MarkSuccess(item.id);
      r := ReplayResult(1, 0, 0);
    } else {
      q.MarkFailed(item.id, t.at);
      r := ReplayResult(0, 1, 0);
    }
  }

  function Plus(a: ReplayResult, b: ReplayResult): ReplayResult {
    ReplayResult(a.succeeded + b.succeeded, a.failed + b.failed, a.skipped + b.skipped)
  }

  function Total(r: ReplayResult): nat { r.succeeded + r.failed + r.skipped }

  ghost function Ids(items: seq<Item>): set<string> {
    if items == [] then {} else Ids(items[..|items| - 1]) + {items[|items| - 1].id}
  }

  lemma {:induction false} IdsMember(items: seq<Item>, id: string)
    ensures id in Ids(items) <==> exists i :: 0 <= i < |items| && items[i].id == id
  {
    if items != [] {
      var n := |items| - 1;
      IdsMember(items[..n], id);
      assert forall i :: 0 <= i < n ==> items[..n][i] == items[i];
    }
  }

  ghost predicate DistinctIds(items: seq<Item>) { forall i, j :: 0 <= i < j < |items| ==> items[i].id != items[j].id }

  lemma OneMoreId(items: seq<Item>, i: nat)
    requires i < |items| && DistinctIds(items)
    ensures items[i].id !in Ids(items[..i]) && Ids(items[..i + 1]) == Ids(items[..i]) + {items[i].id}
  {
    assert items[..i + 1][..i] == items[..i];
    IdsMember(items[..i], items[i].id);
  }

  /** The ids whose entry is counted in a given column of the result. */
  ghost function With(q: map<string, Item>, ids: set<string>, tries: string -> Try, what: Column): set<string> {
    set id | id in ids && id in q && ColumnOf(q[id], tries(id)) == what
  }

  lemma OneMoreCounted(q: map<string, Item>, ids: set<string>, id: string, tries: string -> Try, what: Column)
    requires id in q && id !in ids
    ensures |With(q, ids + {id}, tries, what)| ==
              |With(q, ids, tries, what)| + if ColumnOf(q[id], tries(id)) == what then 1 else 0
  {
    WithOneMore(q, ids, id, tries, what);
    assert id !in With(q, ids, tries, what);
  }

  lemma WithOneMore(q: map<string, Item>, ids: set<string>, id: string, tries: string -> Try, what: Column)
    requires id in q
    ensures With(q, ids + {id}, tries, what) ==
              With(q, ids, tries, what) + if ColumnOf(q[id], tries(id)) == what then {id} else {}
  {
  }

  /** How many of the entries `ids` succeed, fail and are skipped. */
  ghost function Tally(q: map<string, Item>, ids: set<string>, tries: string -> Try): ReplayResult {
    ReplayResult(|With(q, ids, tries, Succeeds)|, |With(q, ids, tries, Fails)|, |With(q, ids, tries, Skips)|)
  }

  function One(c: Column): ReplayResult {
    match c
    case Succeeds => ReplayResult(1, 0, 0)
    case Fails => ReplayResult(0, 1, 0)
    case Skips => ReplayResult(0, 0, 1)
  }

  lemma TallyOneMore(q: map<string, Item>, ids: set<string>, id: string, tries: string -> Try)
    requires id in q && id !in ids
    ensures Tally(q, ids + {id}, tries) == Plus(Tally(q, ids, tries), One(ColumnOf(q[id], tries(id))))
  {
    OneMoreCounted(q, ids, id, tries, Succeeds);
    OneMoreCounted(q, ids, id, tries, Fails);
    OneMoreCounted(q, ids, id, tries, Skips);
  }

  lemma TallyIsComplete(q: map<string, Item>, ids: set<string>, tries: string -> Try)
    requires ids <= q.Keys
    ensures Total(Tally(q, ids, tries)) == |ids|
  {
    var a, b, c := With(q, ids, tries, Succeeds), With(q, ids, tries, Fails), With(q, ids, tries, Skips);
    assert a + b + c == ids && a !! b && (a + b) !! c;
    UnionSize(a, b, c);
  }

  /** The three counts of a pass, over the entries that are due. */
  lemma TallyCounts(q: map<string, Item>, now: int, tries: string -> Try)
    ensures var r, due := Tally(q, ReadyIds(q, now), tries), set id | id in q && q[id].nextRetryAt <= now;
      && r.succeeded == |set id | id in due && q[id].direction == Inbound && tries(id).Works?|
      && r.failed == |set id | id in due && q[id].direction == Inbound && tries(id).Breaks?|
      && r.skipped == |set id | id in due && q[id].direction == Outbound|
  {
    var ids := ReadyIds(q, now);
    var due := set id | id in q && q[id].nextRetryAt <= now;
    assert due == ids;
    assert With(q, ids, tries, Succeeds) == set id | id in due && q[id].direction == Inbound && tries(id).Works?;
    assert With(q, ids, tries, Fails) == set id | id in due && q[id].direction == Inbound && tries(id).Breaks?;
    assert With(q, ids, tries, Skips) == set id | id in due && q[id].direction == Outbound;
  }

  lemma UnionSize(a: set<string>, b: set<string>, c: set<string>)
    requires a !! b && (a + b) !! c
    ensures |a + b + c| == |a| + |b| + |c|
  {
  }

  ghost predicate DrainedFrom(q: map<string, Item>, items: seq<Item>) {
    DistinctIds(items) && forall i :: 0 <= i < |items| ==> items[i].id in q && q[items[i].id] == items[i]
  }

  /** One turn of the loop of `replayQueue`; `before` is the queue as it was drained. */
  method ReplayNext(q: DurableQueue, items: seq<Item>, i: nat, tries: string -> Try, ghost before: map<string, Item>)
    returns (r: ReplayResult)
    requires q.Valid() && i < |items| && DrainedFrom(before, items)
    requires q.queue == AfterTrying(before, Ids(items[..i]), tries)
    modifies q
    ensures q.Valid() && q.queue == AfterTrying(before, Ids(items[..i + 1]), tries)
    ensures Tally(before, Ids(items[..i + 1]), tries) == Plus(Tally(before, Ids(items[..i]), tries), r)
  {
    OneMoreId(items, i);
    TallyOneMore(before, Ids(items[..i]), items[i].id, tries);
    TryOneMore(before, Ids(items[..i]), items[i].id, tries);
    r := ReplayOne(q, items[i], tries(items[i].id));
  }

  lemma NothingTried(q: map<string, Item>, items: seq<Item>, tries: string -> Try)
    ensures AfterTrying(q, Ids(items[..0]), tries) == q && items[..|items|] == items
    ensures Tally(q, Ids(items[..0]), tries) == ReplayResult(0, 0, 0)
  {
  }

  /** The loop of `replayQueue` over the drained entries. */
  method ReplayItems(q: DurableQueue, items: seq<Item>, tries: string -> Try) returns (r: ReplayResult)
    requires q.Valid() && DrainedFrom(q.queue, items)
    modifies q
    ensures q.Valid() && q.queue == AfterTrying(old(q.queue), Ids(items), tries)
    ensures r == Tally(old(q.queue), Ids(items), tries)
  {
    ghost var q0 := q.queue;
    r := ReplayResult(0, 0, 0);
    NothingTried(q0, items, tries);
    for i := 0 to |items|
      invariant q.Valid() && q.queue == AfterTrying(q0, Ids(items[..i]), tries)
      invariant r == Tally(q0, Ids(items[..i]), tries)
    {
      var one := ReplayNext(q, items, i, tries, q0);
      r := Plus(r, one);
    }
  }

  /** `replayQueue`: one pass over everything that is due; every drained entry is counted once. */
  method ReplayQueue(q: DurableQueue, now: int, tries: string -> Try) returns (r: ReplayResult)
    requires q.Valid()
    modifies q
    ensures q.Valid()
    ensures q.queue == AfterPass(old(q.queue), Pass(now, tries))
    ensures r == Tally(old(q.queue), ReadyIds(old(q.queue), now), tries)
    ensures Total(r) == |ReadyIds(old(q.queue), now)|
    ensures Potential(q.queue) + Total(r) <= Potential(old(q.queue))
  {
    ghost var q0 := q.queue;
    var items := q.DrainForReplay(now);
    assert DrainedFrom(q0, items) by { assert forall i :: 0 <= i < |items| ==> items[i] in items; }
    r := ReplayItems(q, items, tries);
    AllReadyDone(q0, items, now);
    TallyIsComplete(q0, Ids(items), tries);
    PassUsesPotential(q0, Ids(items), tries);
  }

  lemma AllReadyDone(q: map<string, Item>, items: seq<Item>, now: int)
    requires Active(q) && forall x :: x in items <==> x.id in q && q[x.id] == x && Ready(x, now)
    ensures Ids(items) == ReadyIds(q, now)
  {
    forall id ensures id in Ids(items) <==> id in ReadyIds(q, now) {
      IdsMember(items, id);
      assert forall i :: 0 <= i < |items| ==> items[i] in items;
      assert id in ReadyIds(q, now) ==> q[id] in items;
    }
  }

  lemma TryOneMore(q: map<string, Item>, ids: set<string>, id: string, tries: string -> Try)
    requires id in q && id !in ids
    ensures var a := AfterTrying(q, ids, tries);
      && id in a && a[id] == q[id]
      && AfterTrying(q, ids + {id}, tries) ==
           if Remains(q[id], tries(id)) then a[id := Retried(q[id], tries(id).at)] else a - {id}
  {
  }

}
