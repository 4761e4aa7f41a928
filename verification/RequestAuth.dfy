/**
 Replay protection of signed requests, as a matter of clock arithmetic. A
 request is checked against the signature window when it arrives and is
 recorded in Redis (`SET NX PX`) some time later, after the key was loaded and
 the signature verified; many requests are between the two at once.

 The windows and the longest time between check and record are parameters, so
 that the exact condition on them can be stated.
 */
module RequestAuth {

  const SIGNATURE_WINDOW_MS := 30_000
  const REPLAY_WINDOW_MS := 2 * 30_000 + 5_000

  /** `delay`: every request reaches its SET NX in less than this time after its timestamp check. */
  datatype Timing = Timing(signature: nat, replay: nat, delay: nat)

  datatype Signed = Signed(keyId: string, requestId: string, ts: int)

  /** A request that has passed the timestamp check at time `checkedAt`. */
  datatype Attempt = Attempt(request: Signed, checkedAt: int)

  /** A request that was new to Redis at time `at`, and so got past the replay check. */
  datatype Passed = Passed(request: Signed, at: int)

  /** `marks` maps a remembered request id to the time its Redis key expires. */
  datatype Gate = Gate(now: int, marks: map<(string, string), int>, open: multiset<Attempt>, passed: seq<Passed>)

  const START := Gate(0, map[], multiset{}, [])

  datatype Step = Wait(until: int) | Check(request: Signed) | Mark(attempt: Attempt)

  function IdOf(s: Signed): (string, string) { (s.keyId, s.requestId) }

  predicate InWindow(w: Timing, now: int, ts: int) { ts - w.signature <= now <= ts + w.signature }

  predicate Remembered(g: Gate, s: Signed) { IdOf(s) in g.marks && g.now < g.marks[IdOf(s)] }

  predicate Enabled(w: Timing, g: Gate, step: Step) {
    match step
    case Wait(t) => g.now <= t
    case Check(_) => true
    case Mark(a) => a in g.open && g.now - a.checkedAt < w.delay
  }

  function Next(w: Timing, g: Gate, step: Step): Gate
    requires Enabled(w, g, step)
  {
    match step
    case Wait(t) => g.(now := t)
    case Check(s) =>
      if InWindow(w, g.now, s.ts) then g.(open := g.open + multiset{Attempt(s, g.now)}) else g
    case Mark(a) =>
      var g' := g.(open := g.open - multiset{a});
      if Remembered(g, a.request) then g'
      else g'.(marks := g.marks[IdOf(a.request) := g.now + w.replay],
               passed := g.passed + [Passed(a.request, g.now)])
  }

  predicate Legal(w: Timing, g: Gate, steps: seq<Step>)
    decreases |steps|
  {
    steps == [] || (Enabled(w, g, steps[0]) && Legal(w, Next(w, g, steps[0]), steps[1..]))
  }

  function Exec(w: Timing, g: Gate, steps: seq<Step>): Gate
    requires Legal(w, g, steps)
    decreases |steps|
  {
    if steps == [] then g else Exec(w, Next(w, g, steps[0]), steps[1..])
  }

  ghost predicate NoReplay(g: Gate) {
    forall i, j :: 0 <= i < j < |g.passed| ==> g.passed[i].request != g.passed[j].request
  }

  /** No run lets the same signed request past the replay check twice. */
  ghost predicate Safe(w: Timing) {
    forall steps :: Legal(w, START, steps) ==> NoReplay(Exec(w, START, steps))
  }

  // ---- Sufficiency --------------------------------------------------------

  ghost predicate PassedOk(w: Timing, g: Gate, p: Passed) {
    && p.at <= g.now && p.request.ts - w.signature <= p.at
    && IdOf(p.request) in g.marks && p.at + w.replay <= g.marks[IdOf(p.request)]
  }

  ghost predicate Inv(w: Timing, g: Gate) {
    && (forall a :: a in g.open ==> a.checkedAt <= g.now && InWindow(w, a.checkedAt, a.request.ts))
    && (forall i :: 0 <= i < |g.passed| ==> PassedOk(w, g, g.passed[i]))
    && NoReplay(g)
  }

  lemma InvNext(w: Timing, g: Gate, step: Step)
    requires Inv(w, g) && Enabled(w, g, step) && w.delay + 2 * w.signature <= w.replay
    ensures Inv(w, Next(w, g, step))
  {
    var g' := Next(w, g, step);
    forall i | 0 <= i < |g'.passed| ensures PassedOk(w, g', g'.passed[i]) {
      if i < |g.passed| { assert PassedOk(w, g, g.passed[i]); }
    }
    if step.Mark? && !Remembered(g, step.attempt.request) {
      forall i | 0 <= i < |g.passed| ensures g.passed[i].request != step.attempt.request {
        assert PassedOk(w, g, g.passed[i]);
      }
    }
  }

  lemma {:induction false} InvExec(w: Timing, g: Gate, steps: seq<Step>)
    requires Inv(w, g) && Legal(w, g, steps) && w.delay + 2 * w.signature <= w.replay
    ensures Inv(w, Exec(w, g, steps))
    decreases |steps|
  {
    if steps != [] {
      InvNext(w, g, steps[0]);
      InvExec(w, Next(w, g, steps[0]), steps[1..]);
    }
  }

  // ---- Who gets past ------------------------------------------------------

  /** A request of the same key and id got past less than the replay window ago. */
  ghost predicate SeenLately(w: Timing, g: Gate, s: Signed) {
    exists i :: 0 <= i < |g.passed| && g.passed[i].request.keyId == s.keyId
                && g.passed[i].request.requestId == s.requestId && g.now < g.passed[i].at + w.replay
  }

  /** Every mark was left by the request that got past last with its id. */
  ghost predicate MarksMatch(w: Timing, g: Gate) {
    && (forall i :: 0 <= i < |g.passed| ==> g.passed[i].at <= g.now)
    && (forall i :: 0 <= i < |g.passed| ==> MarkCovers(w, g, g.passed[i]))
    && (forall k :: k in g.marks ==> MarkedBy(w, g, k))
  }

  ghost predicate MarkCovers(w: Timing, g: Gate, p: Passed) {
    IdOf(p.request) in g.marks && p.at + w.replay <= g.marks[IdOf(p.request)]
  }

  ghost predicate MarkedBy(w: Timing, g: Gate, k: (string, string)) {
    exists i :: 0 <= i < |g.passed| && IdOf(g.passed[i].request) == k && k in g.marks && g.marks[k] == g.passed[i].at + w.replay
  }

  lemma MarksKept(w: Timing, g: Gate, g': Gate)
    requires MarksMatch(w, g) && g'.passed == g.passed && g'.marks == g.marks && g.now <= g'.now
    ensures MarksMatch(w, g')
  {
    forall i | 0 <= i < |g.passed| ensures MarkCovers(w, g', g.passed[i]) { assert MarkCovers(w, g, g.passed[i]); }
    forall k | k in g.marks ensures MarkedBy(w, g', k) { assert MarkedBy(w, g, k); }
  }

  lemma MarksAdded(w: Timing, g: Gate, s: Signed, g': Gate)
    requires MarksMatch(w, g) && g'.now == g.now && g'.passed == g.passed + [Passed(s, g.now)]
    requires g'.marks == g.marks[IdOf(s) := g.now + w.replay]
    ensures MarksMatch(w, g')
  {
    var n := |g.passed|;
    forall i | 0 <= i <= n ensures MarkCovers(w, g', g'.passed[i]) {
      if i < n { assert MarkCovers(w, g, g.passed[i]); }
    }
    forall k | k in g'.marks ensures MarkedBy(w, g', k) {
      if k == IdOf(s) {
        assert g'.passed[n] == Passed(s, g.now);
      } else {
        assert MarkedBy(w, g, k);
        var i :| 0 <= i < n && IdOf(g.passed[i].request) == k && g.marks[k] == g.passed[i].at + w.replay;
        assert g'.passed[i] == g.passed[i];
      }
    }
  }

  lemma MarksStep(w: Timing, g: Gate, step: Step)
    requires MarksMatch(w, g) && Enabled(w, g, step)
    ensures MarksMatch(w, Next(w, g, step))
  {
    if step.Mark? && !Remembered(g, step.attempt.request) {
      MarksAdded(w, g, step.attempt.request, Next(w, g, step));
    } else {
      MarksKept(w, g, Next(w, g, step));
    }
  }

  lemma {:induction false} MarksExec(w: Timing, g: Gate, steps: seq<Step>)
    requires MarksMatch(w, g) && Legal(w, g, steps)
    ensures MarksMatch(w, Exec(w, g, steps))
    decreases |steps|
  {
    if steps != [] {
      MarksStep(w, g, steps[0]);
      MarksExec(w, Next(w, g, steps[0]), steps[1..]);
    }
  }

  /**
   Who gets past the replay check, in any run and with any windows: exactly a
   request of whose key and id none got past within the replay window before.
   */
  lemma PassesIff(w: Timing, steps: seq<Step>, a: Attempt)
    requires Legal(w, START, steps) && Enabled(w, Exec(w, START, steps), Mark(a))
    ensures var g := Exec(w, START, steps); var g' := Next(w, g, Mark(a));
      g'.passed == if SeenLately(w, g, a.request) then g.passed else g.passed + [Passed(a.request, g.now)]
  {
    MarksExec(w, START, steps);
    var g, k := Exec(w, START, steps), IdOf(a.request);
    forall i | 0 <= i < |g.passed| ensures MarkCovers(w, g, g.passed[i]) {}
    if Remembered(g, a.request) {
      assert MarkedBy(w, g, k);
      var i :| 0 <= i < |g.passed| && IdOf(g.passed[i].request) == k && g.marks[k] == g.passed[i].at + w.replay;
      assert SeenLately(w, g, a.request);
    }
  }

  // ---- Necessity ----------------------------------------------------------

  lemma Unroll(w: Timing, g: Gate, step: Step, steps: seq<Step>)
    requires Enabled(w, g, step) && Legal(w, Next(w, g, step), steps)
    ensures Legal(w, g, [step] + steps) && Exec(w, g, [step] + steps) == Exec(w, Next(w, g, step), steps)
  {
    assert ([step] + steps)[1..] == steps;
  }

  /** The double-accepting run: used at the early edge of its window, replayed at the late edge. */
  lemma ReplayRun(w: Timing) returns (steps: seq<Step>)
    requires w.delay >= 1 && w.delay + 2 * w.signature > w.replay
    ensures Legal(w, START, steps) && !NoReplay(Exec(w, START, steps))
  {
    var r := Signed("key", "id", w.signature);
    var late := 2 * w.signature;
    var a0, a1 := Attempt(r, 0), Attempt(r, late);
    var g1 := Next(w, START, Check(r));
    var g2 := Next(w, g1, Mark(a0));
    var g3 := Next(w, g2, Wait(late));
    var g4 := Next(w, g3, Check(r));
    var g5 := Next(w, g4, Wait(late + w.delay - 1));
    var g6 := Next(w, g5, Mark(a1));
    assert g6.passed == [Passed(r, 0), Passed(r, late + w.delay - 1)];
    Unroll(w, g5, Mark(a1), []);
    Unroll(w, g4, Wait(late + w.delay - 1), [Mark(a1)] + []);
    Unroll(w, g3, Check(r), [Wait(late + w.delay - 1)] + ([Mark(a1)] + []));
    var tail := [Check(r)] + ([Wait(late + w.delay - 1)] + ([Mark(a1)] + []));
    Unroll(w, g2, Wait(late), tail);
    Unroll(w, g1, Mark(a0), [Wait(late)] + tail);
    Unroll(w, START, Check(r), [Mark(a0)] + ([Wait(late)] + tail));
    steps := [Check(r)] + ([Mark(a0)] + ([Wait(late)] + tail));
    assert Exec(w, START, steps).passed[0].request == Exec(w, START, steps).passed[1].request;
  }

  /**
   The replay bound, exactly: no signed request gets past twice, in any run
   with a clock that does not go back, if and only if the replay window covers
   twice the signature window plus the delay.
   */
  lemma SafeIff(w: Timing)
    requires w.delay >= 1
    ensures Safe(w) <==> w.delay + 2 * w.signature <= w.replay
  {
    if w.delay + 2 * w.signature <= w.replay {
      forall steps | Legal(w, START, steps) ensures NoReplay(Exec(w, START, steps)) {
        InvExec(w, START, steps);
      }
    } else {
      var steps := ReplayRun(w);
    }
  }

  /** The hub's windows leave 5 s between check and record, and with equal windows of any length no delay at all is safe. */
  lemma HubWindows(delay: nat, window: nat)
    requires delay >= 1
    ensures Safe(Timing(SIGNATURE_WINDOW_MS, REPLAY_WINDOW_MS, delay)) <==> delay <= 5_000
    ensures !Safe(Timing(window, window, delay))
  {
    SafeIff(Timing(SIGNATURE_WINDOW_MS, REPLAY_WINDOW_MS, delay));
    SafeIff(Timing(window, window, delay));
  }

  // ---- The object ---------------------------------------------------------

  class ReplayGuard {
    const timing: Timing
    var now: int
    var marks: map<(string, string), int>
    ghost var open: multiset<Attempt>
    ghost var passed: seq<Passed>

    ghost function View(): Gate reads this { Gate(now, marks, open, passed) }

    ghost predicate Valid() reads this {
      Inv(timing, View()) && timing.delay + 2 * timing.signature <= timing.replay
    }

    constructor ()
      ensures Valid() && View() == START && timing == Timing(SIGNATURE_WINDOW_MS, REPLAY_WINDOW_MS, 5_000)
    {
      timing := Timing(SIGNATURE_WINDOW_MS, REPLAY_WINDOW_MS, 5_000);
      now, marks, open, passed := 0, map[], multiset{}, [];
    }

    method CheckTimestamp(request: Signed) returns (inWindow: bool)
      requires Valid()
      modifies this`open
      ensures Valid() && View() == Next(timing, old(View()), Check(request))
      ensures inWindow == InWindow(timing, now, request.ts)
    {
      InvNext(timing, View(), Check(request));
      inWindow := request.ts - timing.signature <= now <= request.ts + timing.signature;
      if inWindow { open := open + multiset{Attempt(request, now)}; }
    }

    /** `markRequestId`: `SET key NX PX`; a key past its expiry counts as absent. */
    method MarkRequestId(attempt: Attempt) returns (isNew: bool)
      requires Valid() && Enabled(timing, View(), Mark(attempt))
      modifies this`marks, this`open, this`passed
      ensures Valid() && View() == Next(timing, old(View()), Mark(attempt))
      ensures isNew ==> forall i :: 0 <= i < |old(passed)| ==> old(passed)[i].request != attempt.request
      ensures isNew == !old(Remembered(View(), attempt.request))
    {
      InvNext(timing, View(), Mark(attempt));
      open := open - multiset{attempt};
      isNew := SetIfAbsent((attempt.request.keyId, attempt.request.requestId));
      if isNew { passed := passed + [Passed(attempt.request, now)]; }
    }

    method SetIfAbsent(key: (string, string)) returns (isSet: bool)
      modifies this`marks
      ensures isSet == !(key in old(marks) && now < old(marks)[key])
      ensures marks == if isSet then old(marks)[key := now + timing.replay] else old(marks)
    {
      isSet := !(key in marks && now < marks[key]);
      if isSet { marks := marks[key := now + timing.replay]; }
    }
  }
}
