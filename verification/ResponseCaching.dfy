/**
 The agent's response cache (section 4 of RFC 9111 in miniature): bounded,
 expiring, split by credentials and `Vary`, and invalidated by path prefix.
 Over every run it is compared with a map without bound, expiry or digests.
 */
module ResponseCaching {
  import opened Options
  import opened Sets
  import opened CacheKeys

  const MAX_ENTRIES := 500

  /** `maxAge` and `vary` are what `parseMaxAge` and the split of `Vary` made of the response's headers. */
  datatype Response = Response(status: int, body: string, maxAge: nat, setsCookie: bool, vary: seq<string>)

  datatype Entry = Entry(response: Response, vary: Headers, cachedAt: int, expiresAt: int, hits: nat)

  /** A JavaScript `Map`: its entries, and its keys in the order of their insertion. */
  datatype Cache = Cache(order: seq<string>, entries: map<string, Entry>)

  const EMPTY := Cache([], map[])

  function Value(h: Headers, name: string): string { if name in h then h[name] else "" }

  function VaryOf(names: seq<string>, h: Headers): Headers { map n | n in names :: Value(h, n) }

  predicate Matches(vary: Headers, h: Headers) { forall n :: n in vary ==> Value(h, n) == vary[n] }

  predicate Cacheable(r: Response) {
    200 <= r.status < 300 && r.maxAge > 0 && !r.setsCookie && "*" !in r.vary
  }

  function NewEntry(response: Response, h: Headers, now: int): Entry {
    Entry(response, VaryOf(response.vary, h), now, now + response.maxAge * 1_000, 0)
  }

  // ---- The cache's operations ---------------------------------------------

  function Without(order: seq<string>, gone: set<string>): seq<string> {
    if order == [] then []
    else if order[0] in gone then Without(order[1..], gone)
    else [order[0]] + Without(order[1..], gone)
  }

  function Remove(c: Cache, gone: set<string>): Cache { Cache(Without(c.order, gone), c.entries - gone) }

  function Put(c: Cache, key: string, e: Entry): Cache {
    Cache(if key in c.entries then c.order else c.order + [key], c.entries[key := e])
  }

  predicate Full(c: Cache, key: string) { |c.order| >= MAX_ENTRIES && key !in c.entries }

  function MakeRoom(c: Cache, key: string): Cache {
    if Full(c, key) then Remove(c, {c.order[0]}) else c
  }

  function Answer(c: Cache, key: string, h: Headers, now: int): Option<Entry> {
    if key in c.entries && now <= c.entries[key].expiresAt && Matches(c.entries[key].vary, h)
    then Some(c.entries[key].(hits := c.entries[key].hits + 1)) else None
  }

  function AfterGet(c: Cache, key: string, h: Headers, now: int): Cache {
    if key !in c.entries then c
    else if now > c.entries[key].expiresAt then Remove(c, {key})
    else match Answer(c, key, h, now)
      case None => c
      case Some(e) => Put(c, key, e)
  }

  function Stale(c: Cache, now: int): set<string> { set k | k in c.entries && now > c.entries[k].expiresAt }

  function Under(c: Cache, prefix: string): set<string> { set k | k in c.entries && prefix <= k }

  const MUTATING := ["POST", "PUT", "PATCH", "DELETE"]

  function LastSlash(path: string): (n: nat)
    ensures n == 0 || (n < |path| && path[n] == '/')
    ensures forall i :: n < i < |path| ==> path[i] != '/'
    decreases |path|
  {
    if path == "" then 0
    else
      var i := |path| - 1;
      if path[i] == '/' then i else LastSlash(path[..i])
  }

  /** The path up to, not including, its last "/"; the whole path if that leaves nothing. */
  function Target(path: string): string {
    if path[..LastSlash(path)] != "" then path[..LastSlash(path)] else path
  }

  // ---- The order of the keys ----------------------------------------------

  ghost predicate Distinct(order: seq<string>) { forall i, j :: 0 <= i < j < |order| ==> order[i] != order[j] }

  ghost predicate Wf(c: Cache) {
    Distinct(c.order) && |c.order| <= MAX_ENTRIES && forall k :: k in c.order <==> k in c.entries
  }

  lemma {:induction false} WithoutOk(order: seq<string>, gone: set<string>)
    ensures forall k :: k in Without(order, gone) <==> k in order && k !in gone
    ensures Distinct(order) ==> Distinct(Without(order, gone))
    ensures |Without(order, gone)| <= |order|
    ensures (exists k :: k in order && k in gone) ==> |Without(order, gone)| < |order|
  {
    if order != [] {
      WithoutOk(order[1..], gone);
      assert order == [order[0]] + order[1..];
    }
  }

  lemma WfRemove(c: Cache, gone: set<string>)
    requires Wf(c)
    ensures Wf(Remove(c, gone))
  {
    WithoutOk(c.order, gone);
  }

  lemma WfPut(c: Cache, key: string, e: Entry)
    requires Wf(c) && (|c.order| < MAX_ENTRIES || key in c.entries)
    ensures Wf(Put(c, key, e))
  {
  }

  lemma WfMakeRoom(c: Cache, key: string)
    requires Wf(c)
    ensures var c' := MakeRoom(c, key);
      Wf(c') && (|c'.order| < MAX_ENTRIES || key in c'.entries)
  {
    if Full(c, key) {
      WfRemove(c, {c.order[0]});
      WithoutOk(c.order, {c.order[0]});
    }
  }

  // ---- Runs ---------------------------------------------------------------

  /** Methods are upper-cased before they get here. */
  datatype Event =
    | Lookup(at: int, verb: string, req: Req)
    | Store(at: int, verb: string, req: Req, response: Response)
    | Mutate(at: int, verb: string, path: string)
    | Expire(at: int)

  /** `displaced` records the keys pushed out for want of room and not stored since. */
  datatype Run = Run(cache: Cache, displaced: set<string>)

  predicate Stores(e: Event) { e.Store? && e.verb == "GET" && Cacheable(e.response) }

  predicate Mutates(e: Event) { e.Mutate? && e.verb in MUTATING }

  function AfterStore(s: Run, key: string, e: Entry): Run {
    var room := MakeRoom(s.cache, key);
    Run(Put(room, key, e),
        (if Full(s.cache, key) then s.displaced + {s.cache.order[0]} else s.displaced) - {key})
  }

  function Next(lib: Library, s: Run, e: Event): Run
    requires Trusted(lib)
  {
    match e
    case Lookup(at, verb, r) =>
      if verb != "GET" then s else s.(cache := AfterGet(s.cache, Key(lib, IdOf(r)), r.headers, at))
    case Store(at, _, r, response) =>
      if !Stores(e) then s else AfterStore(s, Key(lib, IdOf(r)), NewEntry(response, r.headers, at))
    case Mutate(_, _, path) =>
      if !Mutates(e) then s else s.(cache := Remove(s.cache, Under(s.cache, Target(path))))
    case Expire(at) => s.(cache := Remove(s.cache, Stale(s.cache, at)))
  }

  function After(lib: Library, es: seq<Event>): Run
    requires Trusted(lib)
  {
    if es == [] then Run(EMPTY, {}) else Next(lib, After(lib, es[..|es| - 1]), es[|es| - 1])
  }

  ghost predicate PlainEvent(e: Event) { (e.Lookup? || e.Store?) ==> Plain(e.req.headers) }

  /** Header text as an HTTP parser lets it through. That is enough for every hit to be right. */
  ghost predicate PlainRun(es: seq<Event>) { forall i :: 0 <= i < |es| ==> PlainEvent(es[i]) }

  predicate NulFree(e: Event) { e.Mutate? ==> NUL !in e.path }

  /** For nothing to be missing, the clock must not go back and no path may hold a NUL. */
  ghost predicate Legal(es: seq<Event>) {
    && PlainRun(es)
    && (forall i :: 0 <= i < |es| ==> NulFree(es[i]))
    && (forall i, j :: 0 <= i < j < |es| ==> es[i].at <= es[j].at)
  }

  // ---- The unbounded map --------------------------------------------------

  /** For each URL and credentials, the event that stored what is current. */
  function Current(es: seq<Event>): (m: map<Id, nat>)
    ensures forall id :: id in m ==> m[id] < |es| && Stores(es[m[id]]) && IdOf(es[m[id]].req) == id
  {
    if es == [] then map[]
    else
      var n := |es| - 1;
      var m := Current(es[..n]);
      if Stores(es[n]) then m[IdOf(es[n].req) := n]
      else if Mutates(es[n]) then map id | id in m && !(Target(es[n].path) <= id.url) :: m[id]
      else m
  }

  predicate Live(e: Event, now: int)
    requires e.Store?
  {
    now <= e.at + e.response.maxAge * 1_000
  }

  ghost predicate Agrees(entry: Entry, e: Event) {
    e.Store? && entry.(hits := 0) == NewEntry(e.response, e.req.headers, e.at)
  }

  ghost function KeysOf(lib: Library, ids: set<Id>): set<string>
    requires Trusted(lib)
  {
    set id | id in ids :: Key(lib, id)
  }

  ghost predicate Sound(lib: Library, es: seq<Event>, c: Cache)
    requires Trusted(lib)
  {
    && c.entries.Keys <= KeysOf(lib, Current(es).Keys)
    && forall id: Id :: Plain(id.credentials) && Key(lib, id) in c.entries ==>
         id in Current(es) && Agrees(c.entries[Key(lib, id)], es[Current(es)[id]])
  }

  /** Nothing current is missing, unless it was pushed out or had expired before `now`. */
  ghost predicate Complete(lib: Library, es: seq<Event>, s: Run, now: int)
    requires Trusted(lib)
  {
    forall id :: id in Current(es) ==>
      Key(lib, id) in s.cache.entries || Key(lib, id) in s.displaced || !Live(es[Current(es)[id]], now)
  }

  ghost predicate PlainIds(es: seq<Event>) { forall id :: id in Current(es) ==> Plain(id.credentials) }

  lemma FirstAndLast(es: seq<Event>)
    requires es != []
    ensures es == es[..|es| - 1] + [es[|es| - 1]]
  {
  }

  // ---- Each event keeps the relation --------------------------------------

  /** Removing keys, and dropping the same ids from the map or more keys than that, keeps soundness. */
  lemma SoundRemove(lib: Library, es: seq<Event>, c: Cache, gone: set<string>)
    requires Trusted(lib) && Sound(lib, es, c)
    ensures Sound(lib, es, Remove(c, gone))
  {
  }

  lemma SoundStep(lib: Library, es: seq<Event>, e: Event, s: Run)
    requires Trusted(lib) && Sound(lib, es, s.cache) && PlainEvent(e) && PlainIds(es)
    ensures Sound(lib, es + [e], Next(lib, s, e).cache)
  {
    var es' := es + [e];
    assert es'[..|es|] == es;
    if Stores(e) {
      SoundStore(lib, es, e, s);
    } else if Mutates(e) {
      SoundMutate(lib, es, e, s.cache);
    } else {
      assert Current(es') == Current(es);
      SoundOther(lib, es, e, s);
    }
  }

  lemma SoundStore(lib: Library, es: seq<Event>, e: Event, s: Run)
    requires Trusted(lib) && Sound(lib, es, s.cache) && PlainEvent(e) && PlainIds(es) && Stores(e)
    ensures Sound(lib, es + [e], Next(lib, s, e).cache)
  {
    var es', id' := es + [e], IdOf(e.req);
    var key, room := Key(lib, id'), MakeRoom(s.cache, Key(lib, id'));
    assert es'[..|es|] == es;
    assert Current(es') == Current(es)[id' := |es|];
    if Full(s.cache, key) { SoundRemove(lib, es, s.cache, {s.cache.order[0]}); }
    var c := Next(lib, s, e).cache;
    assert c.entries == room.entries[key := NewEntry(e.response, e.req.headers, e.at)];
    forall id: Id | Plain(id.credentials) && Key(lib, id) in c.entries
      ensures id in Current(es') && Agrees(c.entries[Key(lib, id)], es'[Current(es')[id]])
    {
      if Key(lib, id) == key { KeyInjective(lib, id, id'); }
    }
    assert Current(es').Keys == Current(es).Keys + {id'};
  }

  lemma SoundMutate(lib: Library, es: seq<Event>, e: Event, c: Cache)
    requires Trusted(lib) && Sound(lib, es, c) && Mutates(e)
    ensures Sound(lib, es + [e], Remove(c, Under(c, Target(e.path))))
  {
    var es', p := es + [e], Target(e.path);
    assert es'[..|es|] == es;
    var c' := Remove(c, Under(c, p));
    forall id | id in Current(es) && Key(lib, id) in c'.entries ensures id in Current(es') {
      PrefixOfKey(lib, id, p);
    }
    forall k | k in c'.entries ensures k in KeysOf(lib, Current(es').Keys) {
      var id :| id in Current(es) && Key(lib, id) == k;
      assert id in Current(es');
    }
  }

  lemma SoundOther(lib: Library, es: seq<Event>, e: Event, s: Run)
    requires Trusted(lib) && Sound(lib, es, s.cache) && !Stores(e) && !Mutates(e)
    requires Current(es + [e]) == Current(es)
    ensures Sound(lib, es + [e], Next(lib, s, e).cache)
  {
    var c := s.cache;
    match e
    case Lookup(at, verb, r) => SoundGet(lib, es, c, Key(lib, IdOf(r)), r.headers, at);
    case Expire(at) => SoundRemove(lib, es, c, Stale(c, at));
    case _ =>
    assert forall i :: 0 <= i < |es| ==> (es + [e])[i] == es[i];
  }

  lemma SoundGet(lib: Library, es: seq<Event>, c: Cache, key: string, h: Headers, now: int)
    requires Trusted(lib) && Sound(lib, es, c)
    ensures Sound(lib, es, AfterGet(c, key, h, now))
  {
    SoundRemove(lib, es, c, {key});
  }

  lemma CompleteStep(lib: Library, es: seq<Event>, e: Event, s: Run, now: int)
    requires Trusted(lib) && Wf(s.cache) && Sound(lib, es, s.cache) && Complete(lib, es, s, now)
    requires PlainEvent(e) && NulFree(e) && PlainIds(es) && now <= e.at
    ensures Complete(lib, es + [e], Next(lib, s, e), e.at)
  {
    if Stores(e) {
      CompleteStore(lib, es, e, s, now);
    } else if Mutates(e) {
      CompleteMutate(lib, es, e, s, now);
    } else {
      CompleteOther(lib, es, e, s, now);
    }
  }

  /** Only what has expired is removed by a lookup or by the periodic eviction. */
  lemma ExpiredOnly(lib: Library, s: Run, e: Event, k: string)
    requires Trusted(lib) && !Stores(e) && !Mutates(e) && k in s.cache.entries
    ensures k in Next(lib, s, e).cache.entries || e.at > s.cache.entries[k].expiresAt
  {
  }

  lemma CompleteOther(lib: Library, es: seq<Event>, e: Event, s: Run, now: int)
    requires Trusted(lib) && Sound(lib, es, s.cache) && Complete(lib, es, s, now)
    requires PlainIds(es) && now <= e.at && !Stores(e) && !Mutates(e)
    ensures Complete(lib, es + [e], Next(lib, s, e), e.at)
  {
    var es', s' := es + [e], Next(lib, s, e);
    assert es'[..|es|] == es;
    assert Current(es') == Current(es) && s'.displaced == s.displaced;
    forall id | id in Current(es)
      ensures Key(lib, id) in s'.cache.entries || Key(lib, id) in s'.displaced || !Live(es[Current(es)[id]], e.at)
    {
      assert Plain(id.credentials);
      if Key(lib, id) in s.cache.entries { ExpiredOnly(lib, s, e, Key(lib, id)); }
    }
  }

  lemma CompleteStore(lib: Library, es: seq<Event>, e: Event, s: Run, now: int)
    requires Trusted(lib) && Wf(s.cache) && Complete(lib, es, s, now)
    requires PlainEvent(e) && PlainIds(es) && now <= e.at && Stores(e)
    ensures Complete(lib, es + [e], Next(lib, s, e), e.at)
  {
    var es', id', s' := es + [e], IdOf(e.req), Next(lib, s, e);
    assert es'[..|es|] == es;
    assert Current(es') == Current(es)[id' := |es|];
    forall id | id in Current(es')
      ensures Key(lib, id) in s'.cache.entries || Key(lib, id) in s'.displaced || !Live(es'[Current(es')[id]], e.at)
    {
      if id != id' && Key(lib, id) == Key(lib, id') { KeyInjective(lib, id, id'); }
    }
  }

  lemma CompleteMutate(lib: Library, es: seq<Event>, e: Event, s: Run, now: int)
    requires Trusted(lib) && Complete(lib, es, s, now)
    requires NulFree(e) && now <= e.at && Mutates(e)
    ensures Complete(lib, es + [e], Next(lib, s, e), e.at)
  {
    var es', s', p := es + [e], Next(lib, s, e), Target(e.path);
    assert es'[..|es|] == es;
    TargetIsPrefix(e.path);
    forall id | id in Current(es')
      ensures Key(lib, id) in s'.cache.entries || Key(lib, id) in s'.displaced || !Live(es'[Current(es')[id]], e.at)
    {
      PrefixOfKey(lib, id, p);
    }
  }

  /** What is invalidated includes everything at or below the path written to, and its siblings. */
  lemma TargetIsPrefix(path: string)
    ensures Target(path) <= path
    ensures forall a, b :: path == a + "/" + b && '/' !in b && a != "" ==> Target(path) == a
  {
    forall a, b | path == a + "/" + b && '/' !in b && a != "" ensures Target(path) == a {
      assert path[|a|] == '/';
      assert forall i :: |a| < i < |path| ==> path[i] == b[i - |a| - 1];
      assert path[..|a|] == a;
    }
  }

  lemma WfStep(lib: Library, s: Run, e: Event)
    requires Trusted(lib) && Wf(s.cache)
    ensures Wf(Next(lib, s, e).cache)
  {
    match e
    case Lookup(at, verb, r) => WfRemove(s.cache, {Key(lib, IdOf(r))});
    case Store(at, _, r, response) =>
      var key := Key(lib, IdOf(r));
      WfMakeRoom(s.cache, key);
      WfPut(MakeRoom(s.cache, key), key, NewEntry(response, r.headers, at));
    case Mutate(_, _, path) => WfRemove(s.cache, Under(s.cache, Target(path)));
    case Expire(at) => WfRemove(s.cache, Stale(s.cache, at));
  }

  // ---- Every run ----------------------------------------------------------

  lemma {:induction false} RunIsWf(lib: Library, es: seq<Event>)
    requires Trusted(lib)
    ensures Wf(After(lib, es).cache)
    decreases |es|
  {
    if es != [] {
      RunIsWf(lib, es[..|es| - 1]);
      WfStep(lib, After(lib, es[..|es| - 1]), es[|es| - 1]);
    }
  }

  lemma {:induction false} RunIsSound(lib: Library, es: seq<Event>)
    requires Trusted(lib) && PlainRun(es)
    ensures Sound(lib, es, After(lib, es).cache)
    decreases |es|
  {
    if es != [] {
      var before, e := es[..|es| - 1], es[|es| - 1];
      FirstAndLast(es);
      RunIsSound(lib, before);
      SoundStep(lib, before, e, After(lib, before));
    }
  }

  lemma {:induction false} RunIsComplete(lib: Library, es: seq<Event>, now: int)
    requires Trusted(lib) && Legal(es) && forall i :: 0 <= i < |es| ==> es[i].at <= now
    ensures Complete(lib, es, After(lib, es), now)
    decreases |es|
  {
    if es != [] {
      var before, e := es[..|es| - 1], es[|es| - 1];
      FirstAndLast(es);
      RunIsComplete(lib, before, e.at);
      RunIsWf(lib, before);
      RunIsSound(lib, before);
      CompleteStep(lib, before, e, After(lib, before), e.at);
    }
  }

  predicate Overrides(e: Event, id: Id) {
    (Stores(e) && IdOf(e.req) == id) || (Mutates(e) && Target(e.path) <= id.url)
  }

  /** Event `i` stored something for `id` that nothing has overridden since. */
  ghost predicate LastStore(es: seq<Event>, id: Id, i: nat) {
    i < |es| && Stores(es[i]) && IdOf(es[i].req) == id && forall j :: i < j < |es| ==> !Overrides(es[j], id)
  }

  lemma LastStoreStep(es: seq<Event>, e: Event, id: Id, i: nat)
    ensures LastStore(es + [e], id, i) <==>
              if i == |es| then Stores(e) && IdOf(e.req) == id else LastStore(es, id, i) && !Overrides(e, id)
  {
    var es' := es + [e];
    assert es'[|es|] == e && forall j :: 0 <= j < |es| ==> es'[j] == es[j];
  }

  /** The unbounded map in terms of the run alone. */
  lemma {:induction false} CurrentIff(es: seq<Event>, id: Id, i: nat)
    ensures id in Current(es) && Current(es)[id] == i <==> LastStore(es, id, i)
    decreases |es|
  {
    if es != [] {
      var n := |es| - 1;
      FirstAndLast(es);
      CurrentIff(es[..n], id, i);
      LastStoreStep(es[..n], es[n], id, i);
    }
  }

  /** A response to a GET that a shared cache may store. */
  predicate Storable(e: Event) {
    && e.Store? && e.verb == "GET" && 200 <= e.response.status <= 299 && e.response.maxAge > 0
    && !e.response.setsCookie && "*" !in e.response.vary
  }

  /** The header values named by the response's `Vary` are the request's; an absent header counts as empty. */
  ghost predicate SameVaried(e: Event, r: Req)
    requires e.Store?
  {
    forall n :: n in e.response.vary ==>
      (if n in e.req.headers then e.req.headers[n] else "") == (if n in r.headers then r.headers[n] else "")
  }

  /** A stored response that suits the request and is within its max-age. */
  ghost predicate Fits(e: Event, r: Req, now: int) {
    && Storable(e) && SameTarget(e.req, r) && SameCaller(e.req.headers, r.headers) && SameVaried(e, r)
    && now <= e.at + e.response.maxAge * 1_000
  }

  /** What a write to `path` covers: the part before its last "/", or the whole path if that is empty. */
  ghost predicate Parent(path: string, p: string) {
    if exists a, b :: path == a + "/" + b && a != "" && '/' !in b
    then exists b :: path == p + "/" + b && p != "" && '/' !in b
    else p == path
  }

  /** A later response for the same target and caller, or a write whose parent path the URL begins with. */
  ghost predicate Supersedes(e: Event, r: Req) {
    || (Storable(e) && SameTarget(e.req, r) && SameCaller(e.req.headers, r.headers))
    || (e.Mutate? && e.verb in {"POST", "PUT", "PATCH", "DELETE"} && exists p :: Parent(e.path, p) && Covers(p, r))
  }

  /** Event `i` may answer request `r`: its response fits, and nothing has superseded it since. */
  ghost predicate MayAnswer(es: seq<Event>, i: nat, r: Req, now: int) {
    i < |es| && Fits(es[i], r, now) && forall j :: i < j < |es| ==> !Supersedes(es[j], r)
  }

  lemma SplitAtLastSlash(path: string, a: string, b: string)
    requires path == a + "/" + b && '/' !in b
    ensures LastSlash(path) == |a| && path[..LastSlash(path)] == a
  {
    assert path[|a|] == '/';
    assert forall i :: |a| < i < |path| ==> path[i] == b[i - |a| - 1];
  }

  lemma TargetIff(path: string, p: string)
    ensures Parent(path, p) <==> p == Target(path)
  {
    var n := LastSlash(path);
    if exists a, b :: path == a + "/" + b && a != "" && '/' !in b {
      var a, b :| path == a + "/" + b && a != "" && '/' !in b;
      SplitAtLastSlash(path, a, b);
      if Parent(path, p) {
        var c :| path == p + "/" + c && p != "" && '/' !in c;
        SplitAtLastSlash(path, p, c);
      }
    } else if n > 0 {
      assert path == path[..n] + "/" + path[n + 1..];
      assert '/' !in path[n + 1..];
    }
  }

  /** Storing and writing in the cache's own terms, and in terms of what a response or a write says. */
  lemma OverridesIff(e: Event, r: Req)
    ensures Stores(e) <==> Storable(e)
    ensures Overrides(e, IdOf(r)) <==> Supersedes(e, r)
  {
    if e.Store? { SameIdIff(e.req, r); }
    if e.Mutate? {
      TargetIff(e.path, Target(e.path));
      CoversIff(Target(e.path), r);
      forall p ensures Parent(e.path, p) <==> p == Target(e.path) { TargetIff(e.path, p); }
    }
  }

  lemma MayAnswerIff(es: seq<Event>, i: nat, r: Req, now: int)
    ensures MayAnswer(es, i, r, now) <==>
              LastStore(es, IdOf(r), i) && Live(es[i], now)
              && forall n :: n in es[i].response.vary ==> Value(es[i].req.headers, n) == Value(r.headers, n)
  {
    forall j | 0 <= j < |es|
      ensures Stores(es[j]) <==> Storable(es[j])
      ensures Overrides(es[j], IdOf(r)) <==> Supersedes(es[j], r)
    {
      OverridesIff(es[j], r);
    }
    if i < |es| && es[i].Store? { SameIdIff(es[i].req, r); }
  }

  ghost function Lookups(lib: Library, es: seq<Event>, r: Req, now: int): Option<Entry>
    requires Trusted(lib)
  {
    Answer(After(lib, es).cache, Key(lib, IdOf(r)), r.headers, now)
  }

  lemma VaryMatches(names: seq<string>, h: Headers, h': Headers)
    ensures Matches(VaryOf(names, h), h') <==> forall n :: n in names ==> Value(h, n) == Value(h', n)
  {
    var v := VaryOf(names, h);
    assert forall n :: n in names <==> n in v;
    assert forall n :: n in v ==> v[n] == Value(h, n);
  }

  /**
   Safety: every hit is a stored response that fits the request, and the last
   one stored for its target and caller that no write has covered since. Where
   no path holds a "?", it was stored for that very path and query.
   */
  lemma HitsAreCurrent(lib: Library, es: seq<Event>, r: Req, now: int) returns (i: nat)
    requires Trusted(lib) && PlainRun(es) && Plain(r.headers)
    requires Lookups(lib, es, r, now).Some?
    ensures MayAnswer(es, i, r, now)
    ensures Lookups(lib, es, r, now).value.response == es[i].response
    ensures '?' !in r.path && '?' !in es[i].req.path ==> es[i].req.path == r.path && es[i].req.query == r.query
  {
    RunIsSound(lib, es);
    i := Current(es)[IdOf(r)];
    CurrentIff(es, IdOf(r), i);
    VaryMatches(es[i].response.vary, es[i].req.headers, r.headers);
    MayAnswerIff(es, i, r, now);
    SameUrlIff(es[i].req, r);
  }

  /** Completeness: what may be answered is answered, unless it was pushed out for want of room. */
  lemma CurrentIsServed(lib: Library, es: seq<Event>, r: Req, now: int, i: nat)
    requires Trusted(lib) && Legal(es) && Plain(r.headers) && forall i :: 0 <= i < |es| ==> es[i].at <= now
    requires MayAnswer(es, i, r, now)
    ensures var a := Lookups(lib, es, r, now);
      if a.Some? then a.value.response == es[i].response
      else Key(lib, IdOf(r)) in After(lib, es).displaced
  {
    RunIsSound(lib, es);
    RunIsComplete(lib, es, now);
    MayAnswerIff(es, i, r, now);
    CurrentIff(es, IdOf(r), i);
    ServedFrom(lib, es, After(lib, es), r, now);
  }

  lemma ServedFrom(lib: Library, es: seq<Event>, s: Run, r: Req, now: int)
    requires Trusted(lib) && Sound(lib, es, s.cache) && Complete(lib, es, s, now) && Plain(r.headers)
    requires IdOf(r) in Current(es) && Live(es[Current(es)[IdOf(r)]], now)
    requires var e := es[Current(es)[IdOf(r)]];
      forall n :: n in e.response.vary ==> Value(e.req.headers, n) == Value(r.headers, n)
    ensures var a := Answer(s.cache, Key(lib, IdOf(r)), r.headers, now);
      if a.Some? then a.value.response == es[Current(es)[IdOf(r)]].response
      else Key(lib, IdOf(r)) in s.displaced
  {
    var e := es[Current(es)[IdOf(r)]];
    assert Plain(IdOf(r).credentials);
    VaryMatches(e.response.vary, e.req.headers, r.headers);
  }

  /** A write to `path` takes effect: no hit below that path was stored before it, in the rest of the run. */
  lemma WritesTakeEffect(lib: Library, es: seq<Event>, k: nat, r: Req, now: int) returns (i: nat)
    requires Trusted(lib) && PlainRun(es) && Plain(r.headers)
    requires k < |es| && es[k].Mutate? && es[k].verb in {"POST", "PUT", "PATCH", "DELETE"} && Covers(es[k].path, r)
    requires Lookups(lib, es, r, now).Some?
    ensures k < i && MayAnswer(es, i, r, now)
    ensures Lookups(lib, es, r, now).value.response == es[i].response
  {
    i := HitsAreCurrent(lib, es, r, now);
    MayAnswerIff(es, i, r, now);
    TargetIsPrefix(es[k].path);
    CoversIff(es[k].path, r);
    assert Overrides(es[k], IdOf(r));
    assert i != k;
  }

  /**
   The bound is exact: it is the arrival of the write and the time of storing
   that count. A GET that was looked up before the write and stored after it is
   served, although what it fetched may be older than the write; and so is one
   looked up after the write arrived, although the backend may not have carried
   the write out by then.
   */
  lemma StoredLaterIsServed(lib: Library, r: Req, response: Response, at: int, first: Event, second: Event)
    requires Trusted(lib) && Plain(r.headers) && Storable(Store(at, "GET", r, response))
    requires (first.Lookup? && second.Mutate?) || (first.Mutate? && second.Lookup?)
    ensures var es := [first, second, Store(at, "GET", r, response)];
      Lookups(lib, es, r, at).Some? && Lookups(lib, es, r, at).value.response == response
  {
    var es := [first, second, Store(at, "GET", r, response)];
    assert es[..|es| - 1] == [first, second];
    VaryMatches(response.vary, r.headers, r.headers);
  }

  // ---- Capacity -----------------------------------------------------------

  lemma {:induction false} KeysOfBound(lib: Library, ids: set<Id>)
    requires Trusted(lib)
    ensures |KeysOf(lib, ids)| <= |ids|
    decreases ids
  {
    if ids != {} {
      var id :| id in ids;
      KeysOfBound(lib, ids - {id});
      assert KeysOf(lib, ids) == KeysOf(lib, ids - {id}) + {Key(lib, id)};
    }
  }

  lemma {:induction false} OrderSize(order: seq<string>, keys: set<string>)
    requires Distinct(order) && forall k :: k in order <==> k in keys
    ensures |order| == |keys|
  {
    if order != [] {
      assert order == [order[0]] + order[1..];
      OrderSize(order[1..], keys - {order[0]});
    } else {
      assert keys == {};
    }
  }

  /** In every run the cache holds at most 500 entries. */
  lemma Bounded(lib: Library, es: seq<Event>)
    requires Trusted(lib)
    ensures |After(lib, es).cache.entries| <= MAX_ENTRIES
  {
    RunIsWf(lib, es);
    var c := After(lib, es).cache;
    OrderSize(c.order, c.entries.Keys);
  }

  lemma OneMoreFits(keys: set<string>, all: set<string>, key: string)
    requires keys <= all && key in all && key !in keys && |all| <= MAX_ENTRIES
    ensures |keys| < MAX_ENTRIES
  {
    SubsetSize(keys + {key}, all);
  }

  lemma RoomForOne(lib: Library, es: seq<Event>, e: Event, c: Cache)
    requires Trusted(lib) && Wf(c) && Sound(lib, es, c) && Stores(e) && |Current(es + [e])| <= MAX_ENTRIES
    ensures !Full(c, Key(lib, IdOf(e.req)))
  {
    assert (es + [e])[..|es|] == es;
    var ids, key := Current(es + [e]).Keys, Key(lib, IdOf(e.req));
    assert ids == Current(es).Keys + {IdOf(e.req)};
    OrderSize(c.order, c.entries.Keys);
    KeysOfBound(lib, ids);
    if key !in c.entries { OneMoreFits(c.entries.Keys, KeysOf(lib, ids), key); }
  }

  lemma NothingPushedOut(lib: Library, s: Run, e: Event)
    requires Trusted(lib) && s.displaced == {} && (Stores(e) ==> !Full(s.cache, Key(lib, IdOf(e.req))))
    ensures Next(lib, s, e).displaced == {}
  {
  }

  lemma AmpleStep(lib: Library, es: seq<Event>, e: Event)
    requires Trusted(lib) && PlainRun(es)
    requires After(lib, es).displaced == {} && |Current(es + [e])| <= MAX_ENTRIES
    ensures Next(lib, After(lib, es), e).displaced == {}
  {
    if Stores(e) {
      RunIsWf(lib, es);
      RunIsSound(lib, es);
      RoomForOne(lib, es, e, After(lib, es).cache);
    }
    NothingPushedOut(lib, After(lib, es), e);
  }

  /** At no point of the run does the unbounded map have more than 500 entries. */
  ghost predicate AlwaysFits(es: seq<Event>) {
    |Current(es)| <= MAX_ENTRIES && (es == [] || AlwaysFits(es[..|es| - 1]))
  }

  /** As long as the unbounded map has at most 500 entries, nothing is pushed out: the cache answers exactly like it. */
  lemma {:induction false} AmpleRoom(lib: Library, es: seq<Event>)
    requires Trusted(lib) && PlainRun(es) && AlwaysFits(es)
    ensures After(lib, es).displaced == {}
    decreases |es|
  {
    if es != [] {
      var n := |es| - 1;
      var before, e := es[..n], es[n];
      FirstAndLast(es);
      AmpleRoom(lib, before);
      AmpleStep(lib, before, e);
    }
  }

  // ---- Who makes room -----------------------------------------------------

  /** The key is in the cache `j` events into the run. */
  ghost predicate CachedAfter(lib: Library, es: seq<Event>, key: string, j: nat)
    requires Trusted(lib)
  {
    j <= |es| && key in After(lib, es[..j]).cache.entries
  }

  /** Event `i` brought the key into the cache, and it has stayed there since. */
  ghost predicate InsertedAt(lib: Library, es: seq<Event>, key: string, i: nat)
    requires Trusted(lib)
  {
    i < |es| && !CachedAfter(lib, es, key, i) && forall j :: i < j <= |es| ==> CachedAfter(lib, es, key, j)
  }

  lemma InsertedOnce(lib: Library, es: seq<Event>, key: string, i: nat, j: nat)
    requires Trusted(lib) && InsertedAt(lib, es, key, i) && InsertedAt(lib, es, key, j)
    ensures i == j
  {
    if i < j {
      NotInsertedAgain(lib, es, key, i, j);
    } else if j < i {
      NotInsertedAgain(lib, es, key, j, i);
    }
  }

  lemma NotInsertedAgain(lib: Library, es: seq<Event>, key: string, i: nat, j: nat)
    requires Trusted(lib) && InsertedAt(lib, es, key, i) && i < j <= |es|
    ensures !InsertedAt(lib, es, key, j)
  {
    assert CachedAfter(lib, es, key, j);
  }

  /** Whatever is in the cache was brought in by some event. */
  lemma {:induction false} Insertion(lib: Library, es: seq<Event>, key: string) returns (i: nat)
    requires Trusted(lib) && key in After(lib, es).cache.entries
    ensures InsertedAt(lib, es, key, i)
    decreases |es|
  {
    var n := |es| - 1;
    assert es[..n + 1] == es;
    if key in After(lib, es[..n]).cache.entries {
      i := Insertion(lib, es[..n], key);
      StillInserted(lib, es, key, i);
    } else {
      i := n;
    }
  }

  lemma StillInserted(lib: Library, es: seq<Event>, key: string, i: nat)
    requires Trusted(lib) && es != [] && key in After(lib, es).cache.entries
    requires InsertedAt(lib, es[..|es| - 1], key, i)
    ensures InsertedAt(lib, es, key, i)
  {
    var before := es[..|es| - 1];
    assert es[..|es|] == es;
    forall j | 0 <= j <= |before| ensures CachedAfter(lib, before, key, j) <==> CachedAfter(lib, es, key, j) {
      assert before[..j] == es[..j];
    }
  }

  ghost predicate Ahead(order: seq<string>, a: string, b: string) {
    exists p, q :: 0 <= p < q < |order| && order[p] == a && order[q] == b
  }

  lemma {:induction false} WithoutKeepsOrder(order: seq<string>, gone: set<string>, a: string, b: string)
    requires Ahead(Without(order, gone), a, b)
    ensures Ahead(order, a, b)
  {
    var rest := order[1..];
    if order[0] in gone {
      WithoutKeepsOrder(rest, gone, a, b);
      AheadInTail(order, a, b);
    } else {
      var p, q :| 0 <= p < q < |Without(order, gone)| && Without(order, gone)[p] == a && Without(order, gone)[q] == b;
      if p == 0 {
        WithoutOk(rest, gone);
        assert Without(rest, gone)[q - 1] == b;
        assert b in rest;
        var k :| 0 <= k < |rest| && rest[k] == b;
        assert order[k + 1] == b;
      } else {
        assert Without(rest, gone)[p - 1] == a && Without(rest, gone)[q - 1] == b;
        WithoutKeepsOrder(rest, gone, a, b);
        AheadInTail(order, a, b);
      }
    }
  }

  lemma AheadInTail(order: seq<string>, a: string, b: string)
    requires order != [] && Ahead(order[1..], a, b)
    ensures Ahead(order, a, b)
  {
    var p, q :| 0 <= p < q < |order[1..]| && order[1..][p] == a && order[1..][q] == b;
    assert order[p + 1] == a && order[q + 1] == b;
  }

  /** An event changes the order of the keys only by leaving some out and appending a new one. */
  lemma AheadBefore(lib: Library, s: Run, e: Event, a: string, b: string)
    requires Trusted(lib) && Wf(s.cache) && Ahead(Next(lib, s, e).cache.order, a, b)
    ensures a in s.cache.entries
    ensures Ahead(s.cache.order, a, b) || b !in s.cache.entries
  {
    match e
    case Lookup(at, verb, r) =>
      if Ahead(Remove(s.cache, {Key(lib, IdOf(r))}).order, a, b) {
        WithoutKeepsOrder(s.cache.order, {Key(lib, IdOf(r))}, a, b);
      }
      AheadMember(s.cache.order, a, b);
    case Store(at, _, r, response) => AheadStored(s, Key(lib, IdOf(r)), NewEntry(response, r.headers, at), a, b);
    case Mutate(_, _, path) =>
      if Mutates(e) { WithoutKeepsOrder(s.cache.order, Under(s.cache, Target(path)), a, b); }
      AheadMember(s.cache.order, a, b);
    case Expire(at) =>
      WithoutKeepsOrder(s.cache.order, Stale(s.cache, at), a, b);
      AheadMember(s.cache.order, a, b);
  }

  lemma AheadMember(order: seq<string>, a: string, b: string)
    ensures Ahead(order, a, b) ==> a in order && b in order
  {
  }

  lemma AheadStored(s: Run, key: string, e: Entry, a: string, b: string)
    requires Wf(s.cache)
    ensures Ahead(s.cache.order, a, b) ==> a in s.cache.entries
    ensures Ahead(AfterStore(s, key, e).cache.order, a, b) ==>
              a in s.cache.entries && (Ahead(s.cache.order, a, b) || b !in s.cache.entries)
  {
    AheadMember(s.cache.order, a, b);
    var room := MakeRoom(s.cache, key);
    WfMakeRoom(s.cache, key);
    if Ahead(AfterStore(s, key, e).cache.order, a, b) {
      var order := AfterStore(s, key, e).cache.order;
      var p, q :| 0 <= p < q < |order| && order[p] == a && order[q] == b;
      assert a == room.order[p] && (q < |room.order| ==> b == room.order[q]);
      assert a in room.order;
      if Full(s.cache, key) {
        if q < |room.order| { WithoutKeepsOrder(s.cache.order, {s.cache.order[0]}, a, b); }
      }
    }
  }

  lemma AheadInRun(lib: Library, es: seq<Event>, a: string, b: string)
    requires Trusted(lib) && Ahead(After(lib, es).cache.order, a, b)
    ensures es != []
    ensures var c := After(lib, es[..|es| - 1]).cache; a in c.entries && (Ahead(c.order, a, b) || b !in c.entries)
  {
    RunIsWf(lib, es[..|es| - 1]);
    AheadBefore(lib, After(lib, es[..|es| - 1]), es[|es| - 1], a, b);
  }

  /** The keys are kept in the order in which they came into the cache. */
  lemma {:induction false} OrderIsAge(lib: Library, es: seq<Event>, a: string, b: string) returns (i: nat, k: nat)
    requires Trusted(lib) && Ahead(After(lib, es).cache.order, a, b)
    ensures i < k && InsertedAt(lib, es, a, i) && InsertedAt(lib, es, b, k)
    decreases |es|
  {
    AheadInRun(lib, es, a, b);
    BothStillThere(lib, es, a, b);
    var before := es[..|es| - 1];
    if b !in After(lib, before).cache.entries {
      i := NewestLast(lib, es, a, b);
      k := |es| - 1;
    } else {
      i, k := OrderIsAge(lib, before, a, b);
      BothStillInserted(lib, es, a, b, i, k);
    }
  }

  lemma BothStillInserted(lib: Library, es: seq<Event>, a: string, b: string, i: nat, k: nat)
    requires Trusted(lib) && es != []
    requires a in After(lib, es).cache.entries && b in After(lib, es).cache.entries
    requires InsertedAt(lib, es[..|es| - 1], a, i) && InsertedAt(lib, es[..|es| - 1], b, k)
    ensures InsertedAt(lib, es, a, i) && InsertedAt(lib, es, b, k)
  {
    StillInserted(lib, es, a, i);
    StillInserted(lib, es, b, k);
  }

  lemma BothStillThere(lib: Library, es: seq<Event>, a: string, b: string)
    requires Trusted(lib) && Ahead(After(lib, es).cache.order, a, b)
    ensures a in After(lib, es).cache.entries && b in After(lib, es).cache.entries
  {
    RunIsWf(lib, es);
    AheadMember(After(lib, es).cache.order, a, b);
  }

  /** The last event brought in `b`, and `a` was there before. */
  lemma NewestLast(lib: Library, es: seq<Event>, a: string, b: string) returns (i: nat)
    requires Trusted(lib) && es != [] && Ahead(After(lib, es).cache.order, a, b)
    requires a in After(lib, es[..|es| - 1]).cache.entries && b !in After(lib, es[..|es| - 1]).cache.entries
    ensures i < |es| - 1 && InsertedAt(lib, es, a, i) && InsertedAt(lib, es, b, |es| - 1)
  {
    BothStillThere(lib, es, a, b);
    i := Insertion(lib, es[..|es| - 1], a);
    StillInserted(lib, es, a, i);
    assert es[..|es|] == es;
  }

  /**
   Who makes room: when a new key meets a full cache, in any run, exactly one
   key is dropped for it, and it is the one that came into the cache first.
   */
  lemma OldestMakesRoom(lib: Library, es: seq<Event>, e: Event) returns (victim: string, i: nat)
    requires Trusted(lib) && Storable(e)
    requires Key(lib, IdOf(e.req)) !in After(lib, es).cache.entries
    requires |After(lib, es).cache.entries| >= MAX_ENTRIES
    ensures var was, left := After(lib, es).cache.entries, Next(lib, After(lib, es), e).cache.entries;
      && victim in was && left.Keys == was.Keys - {victim} + {Key(lib, IdOf(e.req))}
      && (forall k :: k in was && k != victim ==> left[k] == was[k])
      && InsertedAt(lib, es, victim, i)
      && (forall k, j :: k in was && k != victim && InsertedAt(lib, es, k, j) ==> i < j)
  {
    var c := After(lib, es).cache;
    RunIsWf(lib, es);
    OrderSize(c.order, c.entries.Keys);
    victim := c.order[0];
    i := Insertion(lib, es, victim);
    forall k, j | k in c.entries && k != victim && InsertedAt(lib, es, k, j) ensures i < j {
      var q :| 0 <= q < |c.order| && c.order[q] == k;
      assert Ahead(c.order, victim, k);
      var i', j' := OrderIsAge(lib, es, victim, k);
      InsertedOnce(lib, es, victim, i, i');
      InsertedOnce(lib, es, k, j, j');
    }
  }

  // ---- The object ---------------------------------------------------------

  lemma {:induction false} WithoutTwice(order: seq<string>, a: set<string>, b: set<string>)
    ensures Without(Without(order, a), b) == Without(order, a + b)
    ensures Without(order, {}) == order
  {
    if order != [] { WithoutTwice(order[1..], a, b); }
  }

  lemma RemoveTwice(c: Cache, a: set<string>, b: set<string>)
    ensures Remove(Remove(c, a), b) == Remove(c, a + b) && Remove(c, {}) == c
  {
    WithoutTwice(c.order, a, b);
  }

  ghost function Chosen(keys: seq<string>, gone: set<string>): set<string> { set k | k in keys && k in gone }

  /** One turn of a loop that deletes the keys in `gone`. */
  lemma ChosenNext(c: Cache, i: nat, gone: set<string>)
    requires Wf(c) && i < |c.order|
    ensures var k, done, done' := c.order[i], Chosen(c.order[..i], gone), Chosen(c.order[..i + 1], gone);
      && k in c.entries && k in Remove(c, done).entries
      && if k in gone then Remove(Remove(c, done), {k}) == Remove(c, done') && |done'| == |done| + 1
         else done' == done
  {
    var k, done, done' := c.order[i], Chosen(c.order[..i], gone), Chosen(c.order[..i + 1], gone);
    assert c.order[..i + 1] == c.order[..i] + [k];
    assert k in c.order && k !in c.order[..i];
    assert done' == done + (if k in gone then {k} else {});
    RemoveTwice(c, done, {k});
  }

  lemma ChosenAll(keys: seq<string>, gone: set<string>)
    requires forall k :: k in gone ==> k in keys
    ensures Chosen(keys[..|keys|], gone) == gone
  {
  }

  class ResponseCache {
    var order: seq<string>
    var store: map<string, Entry>

    ghost function View(): Cache reads this { Cache(order, store) }

    ghost predicate Valid() reads this { Wf(View()) }

    constructor ()
      ensures Valid() && View() == EMPTY
    {
      order, store := [], map[];
    }

    method Delete(key: string)
      requires Valid()
      modifies this
      ensures Valid() && View() == Remove(old(View()), {key})
    {
      WfRemove(View(), {key});
      order := Without(order, {key});
      store := store - {key};
    }

    method Get(lib: Library, verb: string, r: Req, now: int) returns (a: Option<Entry>)
      requires Valid() && Trusted(lib)
      modifies this
      ensures Valid()
      ensures forall d :: View() == Next(lib, Run(old(View()), d), Lookup(now, lib.upper(verb), r)).cache
      ensures a == if lib.upper(verb) == "GET" then Answer(old(View()), Key(lib, IdOf(r)), r.headers, now) else None
      ensures var key, was := Key(lib, IdOf(r)), old(store);
        store == if lib.upper(verb) == "GET" && key in was && now > was[key].expiresAt then was - {key}
                 else if a.Some? then was[key := was[key].(hits := was[key].hits + 1)]
                 else was
    {
      WfStep(lib, Run(View(), {}), Lookup(now, lib.upper(verb), r));
      if lib.upper(verb) != "GET" { return None; }
      var key := Key(lib, IdOf(r));
      if key !in store { return None; }
      var cached := store[key];
      if now > cached.expiresAt {
        Delete(key);
        return None;
      }
      if !Matches(cached.vary, r.headers) { return None; }
      cached := cached.(hits := cached.hits + 1);
      store := store[key := cached];
      return Some(cached);
    }

    method Set(lib: Library, verb: string, r: Req, response: Response, now: int)
      requires Valid() && Trusted(lib)
      modifies this
      ensures Valid()
      ensures forall d :: View() == Next(lib, Run(old(View()), d), Store(now, lib.upper(verb), r, response)).cache
    {
      WfStep(lib, Run(View(), {}), Store(now, lib.upper(verb), r, response));
      if lib.upper(verb) != "GET" || !Cacheable(response) { return; }
      var key := Key(lib, IdOf(r));
      ghost var was := View();
      OrderSize(order, store.Keys);
      if |store| >= MAX_ENTRIES && key !in store {
        Delete(order[0]);
      }
      assert View() == MakeRoom(was, key);
      if key !in store { order := order + [key]; }
      store := store[key := NewEntry(response, r.headers, now)];
    }

    method InvalidatePrefix(prefix: string) returns (count: nat)
      requires Valid()
      modifies this
      ensures Valid()
      ensures View() == Remove(old(View()), Under(old(View()), prefix)) && count == |Under(old(View()), prefix)|
      ensures forall k :: k in store <==> k in old(store) && !(prefix <= k)
    {
      var keys := order;
      count := 0;
      ghost var was := View();
      ghost var gone := Under(was, prefix);
      assert Chosen(keys[..0], gone) == {};
      RemoveTwice(was, {}, {});
      for i := 0 to |keys|
        invariant Valid() && View() == Remove(was, Chosen(keys[..i], gone)) && count == |Chosen(keys[..i], gone)|
      {
        ChosenNext(was, i, gone);
        if prefix <= keys[i] {
          Delete(keys[i]);
          count := count + 1;
        }
      }
      ChosenAll(keys, gone);
    }

    method EvictExpired(now: int) returns (count: nat)
      requires Valid()
      modifies this
      ensures Valid()
      ensures View() == Remove(old(View()), Stale(old(View()), now)) && count == |Stale(old(View()), now)|
      ensures forall k :: k in store <==> k in old(store) && now <= old(store)[k].expiresAt
    {
      var keys := order;
      count := 0;
      ghost var was := View();
      ghost var gone := Stale(was, now);
      assert Chosen(keys[..0], gone) == {};
      RemoveTwice(was, {}, {});
      for i := 0 to |keys|
        invariant Valid() && View() == Remove(was, Chosen(keys[..i], gone)) && count == |Chosen(keys[..i], gone)|
      {
        ChosenNext(was, i, gone);
        if now > store[keys[i]].expiresAt {
          Delete(keys[i]);
          count := count + 1;
        }
      }
      ChosenAll(keys, gone);
    }

    /** `BackendProxy.invalidateCacheFor`. */
    method InvalidateFor(lib: Library, verb: string, path: string, now: int)
      requires Valid() && Trusted(lib)
      modifies this
      ensures Valid()
      ensures forall d :: View() == Next(lib, Run(old(View()), d), Mutate(now, lib.upper(verb), path)).cache
    {
      if lib.upper(verb) in MUTATING {
        var n := InvalidatePrefix(Target(path));
      }
    }
  }
}
