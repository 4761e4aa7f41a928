/**
 Per-account limiting and usage counting on the public tunnel path. Checks
 wait for a plan lookup, so many may be in flight; each is charged, in one
 uninterrupted stretch, to the minute in which it resumes.
 */
module PublicLimiter {

  /** The plan's limit as the lookup returned it (or the fallback, when the lookup failed). */
  datatype Limit = Unlimited | PerMinute(n: nat)

  datatype Counter = Counter(minute: nat, count: nat)

  /**
   `counters` and `monthly` are the limiter's own maps, `flushed` what the
   usage service was told. The rest is a record: requests allowed in all, and
   per minute those allowed under a finite limit and the largest such limit.
   */
  datatype Limiter = Limiter(minute: nat, waiting: multiset<string>, counters: map<string, Counter>,
                             monthly: map<string, nat>, flushed: map<string, nat>,
                             allowed: map<string, nat>, metered: map<(string, nat), nat>,
                             largest: map<(string, nat), nat>)

  const START := Limiter(0, multiset{}, map[], map[], map[], map[], map[], map[])

  function Get<K(==)>(m: map<K, nat>, k: K): nat { if k in m then m[k] else 0 }

  function Max(a: nat, b: nat): nat { if a < b then b else a }

  function CountNow(l: Limiter, account: string): nat {
    if account in l.counters && l.counters[account].minute == l.minute then l.counters[account].count else 0
  }

  function Allow(l: Limiter, account: string): Limiter {
    l.(monthly := l.monthly[account := Get(l.monthly, account) + 1],
       allowed := l.allowed[account := Get(l.allowed, account) + 1])
  }

  /** `checkRequest` after its await. */
  function Charge(l: Limiter, account: string, limit: Limit): Limiter {
    match limit
    case Unlimited => Allow(l, account)
    case PerMinute(n) =>
      var count := CountNow(l, account) + 1;
      var now := (account, l.minute);
      var l' := l.(counters := l.counters[account := Counter(l.minute, count)],
                   largest := l.largest[now := Max(Get(l.largest, now), n)]);
      if count > n then l'
      else Allow(l', account).(metered := l.metered[now := Get(l.metered, now) + 1])
  }

  /** One increment per account with something to report; then the accumulator is cleared. */
  function Reported(flushed: map<string, nat>, monthly: map<string, nat>, accounts: set<string>): map<string, nat> {
    flushed + map a | a in accounts && a in monthly && monthly[a] > 0 :: Get(flushed, a) + monthly[a]
  }

  function Flush(l: Limiter): Limiter {
    l.(flushed := Reported(l.flushed, l.monthly, l.monthly.Keys), monthly := map[])
  }

  datatype Step = Arrive(account: string) | Resume(account: string, limit: Limit) | FlushUsage | Minute(m: nat)

  predicate Enabled(l: Limiter, step: Step) {
    match step
    case Resume(a, _) => a in l.waiting
    case Minute(m) => l.minute <= m
    case _ => true
  }

  function Next(l: Limiter, step: Step): Limiter
    requires Enabled(l, step)
  {
    match step
    case Arrive(a) => l.(waiting := l.waiting + multiset{a})
    case Resume(a, limit) => Charge(l.(waiting := l.waiting - multiset{a}), a, limit)
    case FlushUsage => Flush(l)
    case Minute(m) => l.(minute := m)
  }

  // ---- The invariant ------------------------------------------------------

  /** In one minute: what was let through is at most the counter, and at most the largest limit applied. */
  ghost predicate WithinLimit(l: Limiter, a: string, m: nat) {
    && Get(l.metered, (a, m)) <= Get(l.largest, (a, m))
    && (m > l.minute ==> Get(l.metered, (a, m)) == 0)
    && (m == l.minute ==> Get(l.metered, (a, m)) <= CountNow(l, a))
  }

  ghost predicate Accounted(l: Limiter, a: string) {
    Get(l.allowed, a) == Get(l.flushed, a) + Get(l.monthly, a)
  }

  ghost predicate Inv(l: Limiter) {
    && (forall a, m :: WithinLimit(l, a, m))
    && (forall a :: Accounted(l, a))
    && (forall a :: a in l.counters ==> l.counters[a].minute <= l.minute)
  }

  lemma InvCharge(l: Limiter, account: string, limit: Limit)
    requires Inv(l)
    ensures Inv(Charge(l, account, limit))
  {
    var l' := Charge(l, account, limit);
    forall a, m ensures WithinLimit(l', a, m) {
      assert WithinLimit(l, a, m);
      ChargeStaysWithin(l, account, limit, a, m);
    }
    forall a ensures Accounted(l', a) { assert Accounted(l, a); }
  }

  lemma ChargeStaysWithin(l: Limiter, account: string, limit: Limit, a: string, m: nat)
    requires WithinLimit(l, a, m) && (account in l.counters ==> l.counters[account].minute <= l.minute)
    ensures WithinLimit(Charge(l, account, limit), a, m)
  {
  }

  lemma InvNext(l: Limiter, step: Step)
    requires Inv(l) && Enabled(l, step)
    ensures Inv(Next(l, step))
  {
    var l' := Next(l, step);
    match step
    case Resume(a, limit) =>
      var l1 := l.(waiting := l.waiting - multiset{a});
      assert Inv(l1) by { InvSame(l, l1); }
      InvCharge(l1, a, limit);
    case Minute(m) =>
      forall a, k ensures WithinLimit(l', a, k) { assert WithinLimit(l, a, k); }
      forall a ensures Accounted(l', a) { assert Accounted(l, a); }
    case FlushUsage =>
      forall a, k ensures WithinLimit(l', a, k) { assert WithinLimit(l, a, k); }
      forall a ensures Accounted(l', a) { assert Accounted(l, a); }
    case Arrive(_) => InvSame(l, l');
  }

  /** The invariant does not depend on the checks in flight. */
  lemma InvSame(l: Limiter, l': Limiter)
    requires Inv(l) && l' == l.(waiting := l'.waiting)
    ensures Inv(l')
  {
    forall a, m ensures WithinLimit(l', a, m) { assert WithinLimit(l, a, m); }
    forall a ensures Accounted(l', a) { assert Accounted(l, a); }
  }

  predicate Legal(l: Limiter, steps: seq<Step>)
    decreases |steps|
  {
    steps == [] || (Enabled(l, steps[0]) && Legal(Next(l, steps[0]), steps[1..]))
  }

  function Exec(l: Limiter, steps: seq<Step>): Limiter
    requires Legal(l, steps)
    decreases |steps|
  {
    if steps == [] then l else Exec(Next(l, steps[0]), steps[1..])
  }

  lemma {:induction false} InvExec(l: Limiter, steps: seq<Step>)
    requires Inv(l) && Legal(l, steps)
    ensures Inv(Exec(l, steps))
    decreases |steps|
  {
    if steps != [] {
      InvNext(l, steps[0]);
      InvExec(Next(l, steps[0]), steps[1..]);
    }
  }

  /**
   In every run with a clock that does not go back: per account and minute, no
   more requests are let through under finite limits than the largest of those
   limits, and every request let through is flushed or still accumulated.
   */
  lemma LimitAndConservation(steps: seq<Step>, account: string, minute: nat)
    requires Legal(START, steps)
    ensures var l := Exec(START, steps);
      && Get(l.metered, (account, minute)) <= Get(l.largest, (account, minute))
      && Get(l.allowed, account) == Get(l.flushed, account) + Get(l.monthly, account)
  {
    InvExec(START, steps);
    var l := Exec(START, steps);
    assert WithinLimit(l, account, minute) && Accounted(l, account);
  }

  // ---- What a check is answered -------------------------------------------

  /** A check of the account under a finite limit. */
  predicate Counted(step: Step, a: string) { step.Resume? && step.account == a && step.limit.PerMinute? }

  /** How many checks of the account under finite limits resume in minute `m` of the run. */
  function ChecksIn(l: Limiter, steps: seq<Step>, a: string, m: nat): nat
    requires Legal(l, steps)
    decreases |steps|
  {
    if steps == [] then 0
    else (if Counted(steps[0], a) && l.minute == m then 1 else 0) + ChecksIn(Next(l, steps[0]), steps[1..], a, m)
  }

  /** A check is let through exactly if it is charged to the account's usage. */
  predicate Passes(l: Limiter, step: Step, a: string)
    requires Enabled(l, step)
  {
    step.Resume? && step.account == a && Get(Next(l, step).monthly, a) == Get(l.monthly, a) + 1
  }

  /** And how many of them are let through. */
  function PassedIn(l: Limiter, steps: seq<Step>, a: string, m: nat): nat
    requires Legal(l, steps)
    decreases |steps|
  {
    if steps == [] then 0
    else (if Counted(steps[0], a) && l.minute == m && Passes(l, steps[0], a) then 1 else 0)
         + PassedIn(Next(l, steps[0]), steps[1..], a, m)
  }

  /** The counters never are ahead of the clock. */
  ghost predicate Timed(l: Limiter) { forall a :: a in l.counters ==> l.counters[a].minute <= l.minute }

  lemma CountCharge(l: Limiter, account: string, limit: Limit, a: string)
    requires Timed(l)
    ensures var l' := Charge(l, account, limit);
      && Timed(l') && l'.minute == l.minute
      && CountNow(l', a) == CountNow(l, a) + if account == a && limit.PerMinute? then 1 else 0
  {
  }

  lemma CountStep(l: Limiter, step: Step, a: string)
    requires Timed(l) && Enabled(l, step)
    ensures var l' := Next(l, step);
      && Timed(l') && l.minute <= l'.minute
      && CountNow(l', a) == (if l'.minute == l.minute then CountNow(l, a) + if Counted(step, a) then 1 else 0 else 0)
      && (Counted(step, a) ==> l'.minute == l.minute)
  {
    if step.Resume? {
      var l1 := l.(waiting := l.waiting - multiset{step.account});
      assert Timed(l1) && CountNow(l1, a) == CountNow(l, a);
      CountCharge(l1, step.account, step.limit, a);
    }
  }

  lemma {:induction false} CountRun(l: Limiter, steps: seq<Step>, a: string)
    requires Timed(l) && Legal(l, steps)
    ensures var l' := Exec(l, steps);
      && l.minute <= l'.minute
      && CountNow(l', a) == (if l'.minute == l.minute then CountNow(l, a) else 0) + ChecksIn(l, steps, a, l'.minute)
    decreases |steps|
  {
    if steps != [] {
      CountStep(l, steps[0], a);
      CountRun(Next(l, steps[0]), steps[1..], a);
    }
  }

  /**
   What a check is answered: after any run, a check under limit `n` is let
   through if and only if fewer than `n` checks of the account under finite
   limits resumed before it in the same minute; without a limit, always. A
   check that is let through is charged once, any other not at all.
   */
  lemma CheckPassesIff(steps: seq<Step>, a: string, limit: Limit)
    requires Legal(START, steps) && a in Exec(START, steps).waiting
    ensures var l, l' := Exec(START, steps), Next(Exec(START, steps), Resume(a, limit));
      && (Passes(l, Resume(a, limit), a) <==> limit.Unlimited? || ChecksIn(START, steps, a, l.minute) < limit.n)
      && (!Passes(l, Resume(a, limit), a) ==> l'.monthly == l.monthly)
      && (forall b :: b != a ==> Get(l'.monthly, b) == Get(l.monthly, b))
  {
    CountRun(START, steps, a);
  }

  function Change(step: Step, a: string): int {
    if step == Arrive(a) then 1 else if step.Resume? && step.account == a then -1 else 0
  }

  function Balance(steps: seq<Step>, a: string): int {
    if steps == [] then 0 else Change(steps[0], a) + Balance(steps[1..], a)
  }

  /** A check that arrived is answered at most once, and waits until then. */
  lemma {:induction false} ChecksAddUp(l: Limiter, steps: seq<Step>, a: string)
    requires Legal(l, steps)
    ensures Exec(l, steps).waiting[a] == l.waiting[a] + Balance(steps, a)
    decreases |steps|
  {
    if steps != [] {
      WaitingStep(l, steps[0], a);
      ChecksAddUp(Next(l, steps[0]), steps[1..], a);
    }
  }

  lemma WaitingStep(l: Limiter, step: Step, a: string)
    requires Enabled(l, step)
    ensures Next(l, step).waiting[a] == l.waiting[a] + Change(step, a)
  {
    if step.Resume? { ChargeKeepsWaiting(l.(waiting := l.waiting - multiset{step.account}), step.account, step.limit); }
  }

  lemma ChargeKeepsWaiting(l: Limiter, account: string, limit: Limit)
    ensures Charge(l, account, limit).waiting == l.waiting
  {
  }

  function Min(a: nat, b: nat): nat { if a < b then a else b }

  /** The checks of minute `m` that the counter still knows of. */
  function Known(l: Limiter, a: string, m: nat): nat { if m == l.minute then CountNow(l, a) else 0 }

  lemma PassedStep(l: Limiter, step: Step, a: string, m: nat)
    requires Timed(l) && Enabled(l, step)
    ensures var here, known := Counted(step, a) && l.minute == m, Known(l, a, m);
      && (here ==> (Passes(l, step, a) <==> known < step.limit.n))
      && (Next(l, step).minute == l.minute || m != l.minute ==> Known(Next(l, step), a, m) == known + if here then 1 else 0)
      && (Next(l, step).minute != l.minute ==> !here)
  {
    CountStep(l, step, a);
  }

  lemma {:induction false} PassedRun(l: Limiter, steps: seq<Step>, a: string, m: nat, n: nat)
    requires Timed(l) && Legal(l, steps)
    requires forall i :: 0 <= i < |steps| && Counted(steps[i], a) ==> steps[i].limit.n == n
    ensures PassedIn(l, steps, a, m) + Min(n, Known(l, a, m)) == Min(n, Known(l, a, m) + ChecksIn(l, steps, a, m))
    decreases |steps|
  {
    if steps != [] {
      var l' := Next(l, steps[0]);
      CountStep(l, steps[0], a);
      PassedStep(l, steps[0], a, m);
      if l'.minute != l.minute && m == l.minute {
        NoneEarlier(l', steps[1..], a, m);
      } else {
        PassedRun(l', steps[1..], a, m, n);
        var here := Counted(steps[0], a) && l.minute == m;
        FirstOnes(n, Known(l, a, m), if here then 1 else 0, PassedIn(l', steps[1..], a, m), ChecksIn(l', steps[1..], a, m));
      }
    }
  }

  /** One more check, with `known` before it and `more` after it. */
  lemma FirstOnes(n: nat, known: nat, here: nat, passed: nat, more: nat)
    requires here <= 1 && passed + Min(n, known + here) == Min(n, known + here + more)
    ensures (if here == 1 && known < n then 1 else 0) + passed + Min(n, known) == Min(n, known + here + more)
  {
  }

  /** No check of a run resumes before its first minute. */
  lemma {:induction false} NoneEarlier(l: Limiter, steps: seq<Step>, a: string, m: nat)
    requires Legal(l, steps) && m < l.minute
    ensures ChecksIn(l, steps, a, m) == 0 && PassedIn(l, steps, a, m) == 0
    decreases |steps|
  {
    if steps != [] { NoneEarlier(Next(l, steps[0]), steps[1..], a, m); }
  }

  /** Under one limit `n`, exactly the first `n` checks of every minute are let through. */
  lemma ConstantLimit(steps: seq<Step>, a: string, m: nat, n: nat)
    requires Legal(START, steps)
    requires forall i :: 0 <= i < |steps| && Counted(steps[i], a) ==> steps[i].limit.n == n
    ensures PassedIn(START, steps, a, m) == Min(n, ChecksIn(START, steps, a, m))
  {
    PassedRun(START, steps, a, m, n);
  }

  /** A flush tells the usage service everything charged so far, for every account. */
  lemma FlushTellsAll(steps: seq<Step>, a: string)
    requires Legal(START, steps)
    ensures var l, l' := Exec(START, steps), Next(Exec(START, steps), FlushUsage);
      && Get(l'.flushed, a) == Get(l.flushed, a) + Get(l.monthly, a) == Get(l.allowed, a) && Get(l'.monthly, a) == 0
  {
    InvExec(START, steps);
    assert Accounted(Exec(START, steps), a);
  }

  // ---- The object ---------------------------------------------------------

  lemma ReportOneMore(flushed: map<string, nat>, monthly: map<string, nat>, accounts: set<string>, a: string)
    requires a in monthly && a !in accounts
    ensures Reported(flushed, monthly, accounts + {a}) ==
              if monthly[a] > 0 then Reported(flushed, monthly, accounts)[a := Get(flushed, a) + monthly[a]]
              else Reported(flushed, monthly, accounts)
    ensures Get(Reported(flushed, monthly, accounts), a) == Get(flushed, a)
  {
  }

  lemma ReportNone(flushed: map<string, nat>, monthly: map<string, nat>)
    ensures Reported(flushed, monthly, monthly.Keys - monthly.Keys) == flushed
  {
  }

  /** One turn of the reporting loop, with `todo` left before it. */
  lemma ReportNext(flushed: map<string, nat>, monthly: map<string, nat>, todo: set<string>, a: string)
    requires a in todo && todo <= monthly.Keys
    ensures var reported := Reported(flushed, monthly, monthly.Keys - todo);
      Reported(flushed, monthly, monthly.Keys - (todo - {a})) ==
        if monthly[a] > 0 then reported[a := Get(reported, a) + monthly[a]] else reported
  {
    ReportOneMore(flushed, monthly, monthly.Keys - todo, a);
    assert monthly.Keys - todo + {a} == monthly.Keys - (todo - {a});
  }

  class PublicPathUsageLimiter {
    var minute: nat
    var counters: map<string, Counter>
    var monthly: map<string, nat>
    var reported: map<string, nat>
    ghost var waiting: multiset<string>
    ghost var allowed: map<string, nat>
    ghost var metered: map<(string, nat), nat>
    ghost var largest: map<(string, nat), nat>

    ghost function View(): Limiter reads this {
      Limiter(minute, waiting, counters, monthly, reported, allowed, metered, largest)
    }

    ghost predicate Valid() reads this { Inv(View()) }

    constructor ()
      ensures Valid() && View() == START
    {
      minute, counters, monthly, reported := 0, map[], map[], map[];
      waiting, allowed, metered, largest := multiset{}, map[], map[], map[];
    }

    method RecordMonthlyUsage(account: string)
      modifies this`monthly, this`allowed
      ensures View() == Allow(old(View()), account)
    {
      monthly := monthly[account := (if account in monthly then monthly[account] else 0) + 1];
      allowed := allowed[account := Get(allowed, account) + 1];
    }

    /** The metered half of `checkRequest`. */
    method Meter(account: string, n: nat) returns (ok: bool)
      modifies this
      ensures View() == Charge(old(View()), account, PerMinute(n))
      ensures ok == (old(CountNow(View(), account)) < n)
    {
      ghost var now := (account, minute);
      largest := largest[now := Max(Get(largest, now), n)];
      var count := CountUp(account);
      if count > n { return false; }
      RecordMonthlyUsage(account);
      metered := metered[now := Get(metered, now) + 1];
      return true;
    }

    /** The account's counter for this minute, begun anew if the minute is another one. */
    method CountUp(account: string) returns (count: nat)
      modifies this`counters
      ensures count == old(CountNow(View(), account)) + 1
      ensures counters == old(counters)[account := Counter(minute, count)]
    {
      count := 1;
      if account in counters && counters[account].minute == minute { count := counters[account].count + 1; }
      counters := counters[account := Counter(minute, count)];
    }

    /** `checkRequest` after the limit is known. */
    method CheckRequest(account: string, limit: Limit) returns (ok: bool)
      requires Valid() && account in waiting
      modifies this
      ensures Valid() && View() == Next(old(View()), Resume(account, limit))
      ensures ok <==> limit.Unlimited? || old(CountNow(View(), account)) < limit.n
      ensures ok <==> Passes(old(View()), Resume(account, limit), account)
    {
      InvNext(View(), Resume(account, limit));
      waiting := waiting - multiset{account};
      if limit.Unlimited? {
        RecordMonthlyUsage(account);
        return true;
      }
      ok := Meter(account, limit.n);
    }

    /** The usage service adds a positive delta to what it was told before. */
    method Report(account: string, delta: nat)
      modifies this`reported
      ensures reported == if delta > 0 then old(reported)[account := Get(old(reported), account) + delta] else old(reported)
    {
      if delta > 0 {
        reported := reported[account := (if account in reported then reported[account] else 0) + delta];
      }
    }

    method ReportAll()
      modifies this`reported
      ensures reported == Reported(old(reported), monthly, monthly.Keys)
    {
      ghost var before := reported;
      var todo := monthly.Keys;
      ReportNone(before, monthly);
      while todo != {}
        invariant todo <= monthly.Keys && reported == Reported(before, monthly, monthly.Keys - todo)
      {
        var a :| a in todo;
        ReportNext(before, monthly, todo, a);
        Report(a, monthly[a]);
        todo := todo - {a};
      }
      assert monthly.Keys - {} == monthly.Keys;
    }

    /** `flush`: one report per account with a positive delta, then a clean accumulator. */
    method FlushAll()
      requires Valid()
      modifies this
      ensures Valid() && View() == Next(old(View()), FlushUsage)
    {
      InvNext(View(), FlushUsage);
      ReportAll();
      monthly := map[];
    }
  }
}
