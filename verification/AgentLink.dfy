/**
 The agent's end of the link: the batcher together with the responses that
 are held in memory while the hub cannot be reached. Every message the agent
 creates is accounted for, through any sequence of reconnects.
 */
module AgentLink {
  import opened Batching

  const MAX_HELD_RESPONSES := 100
  const MAX_HELD_BYTES := 20 * 1024 * 1024
  const REQUEST_TIMEOUT_MS := 120_000

  datatype Held = Held(msg: Msg, heldAt: nat)

  /**
   `frames` are the groups handed to the socket. `evicted`, `expired`,
   `discarded` and `pongs` record what was given up: pushed out of the hold,
   too old at reconnect, cleared by `stop`, and pongs without a connection.
   */
  datatype Link = Link(now: nat, connected: bool, stopped: bool, batch: Batch, held: seq<Held>,
                       frames: seq<seq<Msg>>, evicted: seq<Msg>, expired: seq<Msg>,
                       discarded: seq<Msg>, pongs: seq<Msg>)

  const IDLE := Link(0, false, false, Batching.EMPTY, [], [], [], [], [], [])

  function Messages(q: seq<Held>): seq<Msg> {
    if q == [] then [] else [q[0].msg] + Messages(q[1..])
  }

  function HeldBytes(q: seq<Held>): nat {
    if q == [] then 0 else Size(q[0].msg) + HeldBytes(q[1..])
  }

  predicate Over(q: seq<Held>) {
    |q| > MAX_HELD_RESPONSES || (HeldBytes(q) > MAX_HELD_BYTES && |q| > 1)
  }

  /** How many of the oldest entries the shift loop of `holdResponse` drops. */
  function Excess(q: seq<Held>): (n: nat)
    ensures n <= |q| && !Over(q[n..])
    ensures q != [] ==> n < |q|
  {
    if Over(q) then
      var n := Excess(q[1..]);
      assert q[1..][n..] == q[n + 1..];
      n + 1
    else
      assert q[0..] == q;
      0
  }

  /** It drops no entry that could have stayed. */
  lemma {:induction false} ExcessIsLeast(q: seq<Held>, n: nat)
    requires n < Excess(q)
    ensures Over(q[n..])
  {
    if n == 0 {
      assert q[0..] == q;
    } else {
      ExcessIsLeast(q[1..], n - 1);
      assert q[1..][n - 1..] == q[n..];
    }
  }

  function Hold(l: Link, m: Msg): Link {
    var q := l.held + [Held(m, l.now)];
    l.(held := q[Excess(q)..], evicted := l.evicted + Messages(q[..Excess(q)]))
  }

  /** Without a connection, responses and errors are held one by one and pongs are dropped. */
  function Fallback(l: Link, ms: seq<Msg>): Link
    decreases |ms|
  {
    if ms == [] then l
    else
      var l' := if ms[0].Pong? then l.(pongs := l.pongs + [ms[0]]) else Hold(l, ms[0]);
      Fallback(l', ms[1..])
  }

  function Send(l: Link, groups: seq<seq<Msg>>): Link {
    if l.connected then l.(frames := l.frames + groups) else Fallback(l, Flatten(groups))
  }

  function Post(l: Link, m: Msg): Link {
    var s := Add(l.batch, m);
    Send(l.(batch := s.batch), s.groups)
  }

  function FlushTimer(l: Link): Link {
    var s := Flush(l.batch);
    Send(l.(batch := s.batch), s.groups)
  }

  /** `flushToQueue`: everything buffered goes to the fallback, connected or not. */
  function FlushToHold(l: Link): Link {
    Fallback(l.(batch := Batching.EMPTY), l.batch.buffer)
  }

  /** `sendHeldResponses`: entries older than the hub's patience are dropped, the others are posted in order. */
  function Resend(l: Link, q: seq<Held>): Link
    decreases |q|
  {
    if q == [] then l
    else
      var l' := if q[0].heldAt < l.now - REQUEST_TIMEOUT_MS then l.(expired := l.expired + [q[0].msg])
                else Post(l, q[0].msg);
      Resend(l', q[1..])
  }

  datatype Event = Create(msg: Msg) | TimerFires | Registered | Closed | Stop | Wait(until: nat)

  predicate Enabled(l: Link, e: Event) {
    e.Wait? ==> l.now <= e.until
  }

  function Apply(l: Link, e: Event): Link
    requires Enabled(l, e)
  {
    match e
    case Create(m) => Post(l, m)
    case TimerFires => FlushTimer(l)
    case Registered => Resend(l.(connected := true, held := []), l.held)
    case Closed => if l.stopped then l else FlushToHold(l).(connected := false)
    case Stop =>
      var l' := FlushToHold(l.(connected := false, stopped := true));
      l'.(held := [], discarded := l'.discarded + Messages(l'.held))
    case Wait(t) => l.(now := t)
  }

  // ---- Conservation -------------------------------------------------------

  function Occurrences(ms: seq<Msg>, m: Msg): nat {
    if ms == [] then 0 else (if ms[0] == m then 1 else 0) + Occurrences(ms[1..], m)
  }

  lemma {:induction false} OccurrencesConcat(a: seq<Msg>, b: seq<Msg>, m: Msg)
    ensures Occurrences(a + b, m) == Occurrences(a, m) + Occurrences(b, m)
  {
    if a == [] {
      assert a + b == b;
    } else {
      assert (a + b)[1..] == a[1..] + b;
      OccurrencesConcat(a[1..], b, m);
    }
  }

  lemma OccurrencesPush(a: seq<Msg>, x: Msg, m: Msg)
    ensures Occurrences(a + [x], m) == Occurrences(a, m) + if x == m then 1 else 0
  {
    OccurrencesConcat(a, [x], m);
    assert [x][1..] == [];
  }

  /** Copies of a message that were given up, for any reason. */
  function GivenUp(l: Link, m: Msg): nat {
    Occurrences(l.evicted, m) + Occurrences(l.expired, m) + Occurrences(l.discarded, m) + Occurrences(l.pongs, m)
  }

  /** All copies of a message that the link knows of, wherever they are. */
  function Copies(l: Link, m: Msg): nat {
    Occurrences(Flatten(l.frames), m) + Occurrences(l.batch.buffer, m) + Occurrences(Messages(l.held), m) + GivenUp(l, m)
  }

  /** Bounds of the hold and of the batcher; every frame fits. */
  ghost predicate Ok(l: Link) {
    Bounded(l.batch) && AllFit(l.frames) && !Over(l.held)
  }

  lemma {:induction false} MessagesConcat(a: seq<Held>, b: seq<Held>)
    ensures Messages(a + b) == Messages(a) + Messages(b)
  {
    if a == [] {
      assert a + b == b;
    } else {
      assert (a + b)[1..] == a[1..] + b;
      MessagesConcat(a[1..], b);
    }
  }

  lemma HoldKeeps(l: Link, x: Msg, m: Msg)
    ensures Copies(Hold(l, x), m) == Copies(l, m) + if x == m then 1 else 0
    ensures Ok(l) ==> Ok(Hold(l, x))
  {
    var one := Held(x, l.now);
    var q := l.held + [one];
    var n := Excess(q);
    MessagesConcat(l.held, [one]);
    assert Messages([one]) == [x];
    OccurrencesPush(Messages(l.held), x, m);
    MessagesConcat(q[..n], q[n..]);
    assert q == q[..n] + q[n..];
    OccurrencesConcat(Messages(q[..n]), Messages(q[n..]), m);
    OccurrencesConcat(l.evicted, Messages(q[..n]), m);
  }

  lemma {:induction false} FallbackKeeps(l: Link, ms: seq<Msg>, m: Msg)
    ensures Copies(Fallback(l, ms), m) == Copies(l, m) + Occurrences(ms, m)
    ensures Ok(l) ==> Ok(Fallback(l, ms))
    decreases |ms|
  {
    if ms != [] {
      if ms[0].Pong? {
        OccurrencesPush(l.pongs, ms[0], m);
        FallbackKeeps(l.(pongs := l.pongs + [ms[0]]), ms[1..], m);
      } else {
        HoldKeeps(l, ms[0], m);
        FallbackKeeps(Hold(l, ms[0]), ms[1..], m);
      }
    }
  }

  lemma SendKeeps(l: Link, groups: seq<seq<Msg>>, m: Msg)
    requires AllFit(groups)
    ensures Copies(Send(l, groups), m) == Copies(l, m) + Occurrences(Flatten(groups), m)
    ensures Ok(l) ==> Ok(Send(l, groups))
  {
    if l.connected {
      FlattenConcat(l.frames, groups);
      OccurrencesConcat(Flatten(l.frames), Flatten(groups), m);
      if AllFit(l.frames) { AllFitConcat(l.frames, groups); }
    } else {
      FallbackKeeps(l, Flatten(groups), m);
    }
  }

  lemma PostKeeps(l: Link, x: Msg, m: Msg)
    requires Ok(l)
    ensures Ok(Post(l, x)) && Copies(Post(l, x), m) == Copies(l, m) + if x == m then 1 else 0
  {
    AddIsFifo(l.batch, x);
    var s := Add(l.batch, x);
    SendKeeps(l.(batch := s.batch), s.groups, m);
    OccurrencesConcat(Flatten(s.groups), s.batch.buffer, m);
    OccurrencesPush(l.batch.buffer, x, m);
  }

  lemma FlushKeeps(l: Link, m: Msg)
    requires Ok(l)
    ensures Ok(FlushTimer(l)) && Copies(FlushTimer(l), m) == Copies(l, m)
    ensures Ok(FlushToHold(l)) && Copies(FlushToHold(l), m) == Copies(l, m)
  {
    FlushOk(l.batch);
    SendKeeps(l.(batch := Flush(l.batch).batch), Flush(l.batch).groups, m);
    FallbackKeeps(l.(batch := Batching.EMPTY), l.batch.buffer, m);
  }

  lemma {:induction false} ResendKeeps(l: Link, q: seq<Held>, m: Msg)
    requires Ok(l)
    ensures Ok(Resend(l, q)) && Copies(Resend(l, q), m) == Copies(l, m) + Occurrences(Messages(q), m)
    decreases |q|
  {
    if q != [] {
      assert Messages(q)[1..] == Messages(q[1..]);
      if q[0].heldAt < l.now - REQUEST_TIMEOUT_MS {
        OccurrencesPush(l.expired, q[0].msg, m);
        ResendKeeps(l.(expired := l.expired + [q[0].msg]), q[1..], m);
      } else {
        PostKeeps(l, q[0].msg, m);
        ResendKeeps(Post(l, q[0].msg), q[1..], m);
      }
    }
  }

  lemma ApplyKeeps(l: Link, e: Event, m: Msg)
    requires Ok(l) && Enabled(l, e)
    ensures Ok(Apply(l, e))
    ensures Copies(Apply(l, e), m) == Copies(l, m) + if e == Create(m) then 1 else 0
  {
    match e
    case Create(x) => PostKeeps(l, x, m);
    case TimerFires => FlushKeeps(l, m);
    case Registered => ResendKeeps(l.(connected := true, held := []), l.held, m);
    case Closed => FlushKeeps(l, m);
    case Stop =>
      FlushKeeps(l.(connected := false, stopped := true), m);
      var l' := FlushToHold(l.(connected := false, stopped := true));
      OccurrencesConcat(l'.discarded, Messages(l'.held), m);
    case Wait(t) =>
  }

  // ---- What becomes of what is held ---------------------------------------

  /** The hold's bounds: a hundred entries, and 20 MiB unless there is only one. */
  predicate InBounds(q: seq<Held>) { |q| <= 100 && (HeldBytes(q) <= 20_971_520 || |q| <= 1) }

  predicate EndFits(all: seq<Held>, n: nat) { n <= |all| && InBounds(all[n..]) }

  /** From index `n` on is the longest end of `all` that is within the bounds. */
  ghost predicate LongestEnd(all: seq<Held>, n: nat) {
    EndFits(all, n) && forall k :: 0 <= k < n ==> !EndFits(all, k)
  }

  /** The responses and errors among the messages, held at time `now`; and the pongs. */
  function Stamped(ms: seq<Msg>, now: nat): seq<Held> {
    if ms == [] then [] else (if ms[0].Pong? then [] else [Held(ms[0], now)]) + Stamped(ms[1..], now)
  }

  function Pongs(ms: seq<Msg>): seq<Msg> {
    if ms == [] then [] else (if ms[0].Pong? then [ms[0]] else []) + Pongs(ms[1..])
  }

  lemma {:induction false} HeldBytesConcat(a: seq<Held>, b: seq<Held>)
    ensures HeldBytes(a + b) == HeldBytes(a) + HeldBytes(b)
  {
    if a == [] {
      assert a + b == b;
    } else {
      assert (a + b)[1..] == a[1..] + b;
      HeldBytesConcat(a[1..], b);
    }
  }

  lemma HoldTakesLongestEnd(l: Link, m: Msg)
    ensures var all, n := l.held + [Held(m, l.now)], Excess(l.held + [Held(m, l.now)]);
      LongestEnd(all, n) && Hold(l, m) == l.(held := all[n..], evicted := l.evicted + Messages(all[..n]))
  {
    var all := l.held + [Held(m, l.now)];
    forall k | 0 <= k < Excess(all) ensures !EndFits(all, k) { ExcessIsLeast(all, k); }
  }

  /** Appending makes nothing fit, and from index `n` on the ends are those of the end itself. */
  lemma EndsWithMore(q: seq<Held>, n: nat, more: seq<Held>, j: nat)
    requires n <= |q| && j <= |q| + |more|
    ensures j < n && !EndFits(q, j) ==> !EndFits(q + more, j)
    ensures j >= n ==> (q + more)[j..] == (q[n..] + more)[j - n..]
    ensures j >= n ==> (EndFits(q + more, j) <==> EndFits(q[n..] + more, j - n))
  {
    if j < n {
      assert (q + more)[j..] == q[j..] + more;
      HeldBytesConcat(q[j..], more);
    } else {
      assert (q + more)[j..] == (q[n..] + more)[j - n..];
    }
  }

  lemma LongestEndTwice(q: seq<Held>, n: nat, more: seq<Held>, k: nat)
    requires LongestEnd(q, n) && LongestEnd(q[n..] + more, k)
    ensures LongestEnd(q + more, n + k) && (q + more)[n + k..] == (q[n..] + more)[k..]
  {
    EndsWithMore(q, n, more, n + k);
    forall j | 0 <= j < n + k ensures !EndFits(q + more, j) { EndsWithMore(q, n, more, j); }
  }

  lemma MessagesTwice(q: seq<Held>, n: nat, more: seq<Held>, k: nat)
    requires n <= |q| && n + k <= |q| + |more|
    ensures Messages((q + more)[..n + k]) == Messages(q[..n]) + Messages((q[n..] + more)[..k])
  {
    assert (q + more)[..n + k] == q[..n] + (q[n..] + more)[..k];
    MessagesConcat(q[..n], (q[n..] + more)[..k]);
  }

  /** The link after `ms` fell back, of which everything from index `n` on is held. */
  ghost predicate FellBack(l: Link, ms: seq<Msg>, n: nat, l': Link) {
    var all := l.held + Stamped(ms, l.now);
    && LongestEnd(all, n)
    && l' == l.(held := all[n..], evicted := l.evicted + Messages(all[..n]), pongs := l.pongs + Pongs(ms))
  }

  lemma NothingFellBack(l: Link)
    requires InBounds(l.held)
    ensures FellBack(l, [], 0, l)
  {
    assert l.held + Stamped([], l.now) == l.held && l.held[0..] == l.held;
  }

  lemma PongFellBack(l: Link, ms: seq<Msg>, n: nat, l': Link)
    requires ms != [] && ms[0].Pong? && FellBack(l.(pongs := l.pongs + [ms[0]]), ms[1..], n, l')
    ensures FellBack(l, ms, n, l')
  {
    assert Stamped(ms, l.now) == Stamped(ms[1..], l.now);
    assert l.pongs + [ms[0]] + Pongs(ms[1..]) == l.pongs + Pongs(ms);
  }

  lemma StampedOne(ms: seq<Msg>, held: seq<Held>, now: nat)
    requires ms != [] && !ms[0].Pong?
    ensures held + Stamped(ms, now) == held + [Held(ms[0], now)] + Stamped(ms[1..], now)
    ensures Pongs(ms) == Pongs(ms[1..])
  {
  }

  /** Dropping twice is dropping once. */
  lemma DroppedTwice(l: Link, q: seq<Held>, n: nat, more: seq<Held>, k: nat)
    requires LongestEnd(q, n) && LongestEnd(q[n..] + more, k)
    ensures var mid, rest, all := l.evicted + Messages(q[..n]), q[n..] + more, q + more;
      && LongestEnd(all, n + k) && all[n + k..] == rest[k..]
      && mid + Messages(rest[..k]) == l.evicted + Messages(all[..n + k])
  {
    LongestEndTwice(q, n, more, k);
    MessagesTwice(q, n, more, k);
    Assoc(l.evicted, Messages(q[..n]), Messages((q[n..] + more)[..k]));
  }

  lemma HeldFellBack(l: Link, ms: seq<Msg>, k: nat, l': Link)
    requires ms != [] && !ms[0].Pong? && FellBack(Hold(l, ms[0]), ms[1..], k, l')
    ensures FellBack(l, ms, Excess(l.held + [Held(ms[0], l.now)]) + k, l')
  {
    HoldTakesLongestEnd(l, ms[0]);
    var q, rest := l.held + [Held(ms[0], l.now)], Stamped(ms[1..], l.now);
    StampedOne(ms, l.held, l.now);
    DroppedTwice(l, q, Excess(q), rest, k);
  }

  lemma Assoc(a: seq<Msg>, b: seq<Msg>, c: seq<Msg>)
    ensures a + b + c == a + (b + c)
  {
  }

  /**
   What falls back without a connection: responses and errors go behind what
   is held, in order and stamped with the time, pongs are dropped, and of all
   this the longest end that is within the bounds is kept.
   */
  lemma {:induction false} FallbackKeepsLongestEnd(l: Link, ms: seq<Msg>) returns (n: nat)
    requires InBounds(l.held)
    ensures FellBack(l, ms, n, Fallback(l, ms))
    decreases |ms|
  {
    if ms == [] {
      n := 0;
      NothingFellBack(l);
    } else if ms[0].Pong? {
      n := FallbackKeepsLongestEnd(l.(pongs := l.pongs + [ms[0]]), ms[1..]);
      PongFellBack(l, ms, n, Fallback(l, ms));
    } else {
      HoldTakesLongestEnd(l, ms[0]);
      n := FallbackKeepsLongestEnd(Hold(l, ms[0]), ms[1..]);
      HeldFellBack(l, ms, n, Fallback(l, ms));
      n := Excess(l.held + [Held(ms[0], l.now)]) + n;
    }
  }

  /** A lost connection: what is buffered falls back, and nothing else changes. */
  lemma ClosedKeepsLongestEnd(l: Link) returns (n: nat)
    requires Ok(l) && !l.stopped
    ensures FellBack(l.(connected := false, batch := Batching.EMPTY), l.batch.buffer, n, Apply(l, Closed))
  {
    n := FallbackKeepsLongestEnd(l.(batch := Batching.EMPTY), l.batch.buffer);
  }

  /** A stop: what is buffered falls back as on a lost connection, and then everything held is discarded; the close that follows changes nothing. */
  lemma StopDiscards(l: Link) returns (n: nat, mid: Link)
    requires Ok(l)
    ensures FellBack(l.(connected := false, stopped := true, batch := Batching.EMPTY), l.batch.buffer, n, mid)
    ensures Apply(l, Stop) == mid.(held := [], discarded := l.discarded + Messages(mid.held))
    ensures Apply(Apply(l, Stop), Closed) == Apply(l, Stop)
  {
    mid := FlushToHold(l.(connected := false, stopped := true));
    n := FallbackKeepsLongestEnd(l.(connected := false, stopped := true, batch := Batching.EMPTY), l.batch.buffer);
  }

  /** The messages of the entries held for more than 120 s at time `now`, in the order they were held; and the others. */
  function Outdated(q: seq<Held>, now: nat): seq<Msg> {
    if q == [] then [] else (if q[0].heldAt + 120_000 < now then [q[0].msg] else []) + Outdated(q[1..], now)
  }

  function Recent(q: seq<Held>, now: nat): seq<Msg> {
    if q == [] then [] else (if q[0].heldAt + 120_000 < now then [] else [q[0].msg]) + Recent(q[1..], now)
  }

  /** What was handed to the socket, then what is buffered. */
  function Outgoing(l: Link): seq<Msg> { Flatten(l.frames) + l.batch.buffer }

  /** Groups that leave the batcher of a connected link. */
  lemma SendForwards(l: Link, s: Sent)
    requires l.connected
    ensures Send(l.(batch := s.batch), s.groups) == l.(frames := l.frames + s.groups, batch := s.batch)
    ensures Flatten(l.frames + s.groups) + s.batch.buffer == Flatten(l.frames) + (Flatten(s.groups) + s.batch.buffer)
  {
    FlattenConcat(l.frames, s.groups);
    Assoc(Flatten(l.frames), Flatten(s.groups), s.batch.buffer);
  }

  lemma PostSends(l: Link, m: Msg)
    requires Ok(l) && l.connected
    ensures Outgoing(Post(l, m)) == Outgoing(l) + [m]
    ensures Post(l, m) == l.(frames := Post(l, m).frames, batch := Post(l, m).batch)
  {
    AddIsFifo(l.batch, m);
    SendForwards(l, Add(l.batch, m));
    Assoc(Flatten(l.frames), l.batch.buffer, [m]);
  }

  lemma {:induction false} ResendSends(l: Link, q: seq<Held>)
    requires Ok(l) && l.connected
    ensures var l' := Resend(l, q);
      && Outgoing(l') == Outgoing(l) + Recent(q, l.now) && l'.expired == l.expired + Outdated(q, l.now)
      && l' == l.(frames := l'.frames, batch := l'.batch, expired := l'.expired)
    decreases |q|
  {
    if q != [] {
      if q[0].heldAt + 120_000 < l.now {
        ResendSends(l.(expired := l.expired + [q[0].msg]), q[1..]);
      } else {
        PostKeeps(l, q[0].msg, q[0].msg);
        PostSends(l, q[0].msg);
        ResendSends(Post(l, q[0].msg), q[1..]);
        assert Outgoing(l) + [q[0].msg] + Recent(q[1..], l.now) == Outgoing(l) + Recent(q, l.now);
      }
    }
  }

  /**
   A connection that is back: what was held for more than 120 s is given up as
   expired, everything else goes out behind what was buffered, each in the
   order in which it was held, and nothing stays held.
   */
  lemma RegisteredSends(l: Link)
    requires Ok(l)
    ensures var l' := Apply(l, Registered);
      && Outgoing(l') == Outgoing(l) + Recent(l.held, l.now) && l'.expired == l.expired + Outdated(l.held, l.now)
      && l' == l.(connected := true, held := [], frames := l'.frames, batch := l'.batch, expired := l'.expired)
  {
    ResendSends(l.(connected := true, held := []), l.held);
  }

  predicate Legal(l: Link, es: seq<Event>)
    decreases |es|
  {
    es == [] || (Enabled(l, es[0]) && Legal(Apply(l, es[0]), es[1..]))
  }

  function Exec(l: Link, es: seq<Event>): Link
    requires Legal(l, es)
    decreases |es|
  {
    if es == [] then l else Exec(Apply(l, es[0]), es[1..])
  }

  function TimesCreated(es: seq<Event>, m: Msg): nat {
    if es == [] then 0 else (if es[0] == Create(m) then 1 else 0) + TimesCreated(es[1..], m)
  }

  /**
   Conservation over whole runs: whatever the link goes through, every copy of
   a message created is in exactly one place: handed to the socket, buffered,
   held, evicted, expired, discarded on stop, or a pong dropped while offline.
   The bounds of batcher, frames and hold are kept throughout.
   */
  lemma {:induction false} EveryMessageAccountedFor(l: Link, es: seq<Event>, m: Msg)
    requires Ok(l) && Legal(l, es)
    ensures Ok(Exec(l, es)) && Copies(Exec(l, es), m) == Copies(l, m) + TimesCreated(es, m)
    decreases |es|
  {
    if es != [] {
      ApplyKeeps(l, es[0], m);
      EveryMessageAccountedFor(Apply(l, es[0]), es[1..], m);
    }
  }

  /** While connected, nothing is given up and nothing goes to the hold. */
  lemma {:induction false} ConnectedDropsNothing(l: Link, es: seq<Event>)
    requires l.connected && Legal(l, es)
    requires forall i :: 0 <= i < |es| ==> es[i].Create? || es[i].TimerFires? || es[i].Wait?
    ensures var l' := Exec(l, es);
      && l'.connected && l'.held == l.held && l'.pongs == l.pongs
      && l'.evicted == l.evicted && l'.expired == l.expired && l'.discarded == l.discarded
    decreases |es|
  {
    if es != [] {
      ConnectedDropsNothing(Apply(l, es[0]), es[1..]);
    }
  }

  function Created(es: seq<Event>): seq<Msg> {
    if es == [] then [] else (if es[0].Create? then [es[0].msg] else []) + Created(es[1..])
  }

  lemma FlushSends(l: Link)
    requires Ok(l) && l.connected
    ensures Outgoing(FlushTimer(l)) == Outgoing(l) && FlushTimer(l).connected
  {
    FlushOk(l.batch);
    SendForwards(l, Flush(l.batch));
  }

  /** While connected, messages go out in the order in which they were created. */
  lemma {:induction false} ConnectedIsFifo(l: Link, es: seq<Event>)
    requires Ok(l) && l.connected && Legal(l, es)
    requires forall i :: 0 <= i < |es| ==> es[i].Create? || es[i].TimerFires? || es[i].Wait?
    ensures Outgoing(Exec(l, es)) == Outgoing(l) + Created(es)
    decreases |es|
  {
    if es != [] {
      ApplyKeeps(l, es[0], Pong("", ""));
      ConnectedStep(l, es[0]);
      ConnectedIsFifo(Apply(l, es[0]), es[1..]);
      Assoc(Outgoing(l), if es[0].Create? then [es[0].msg] else [], Created(es[1..]));
    }
  }

  lemma ConnectedStep(l: Link, e: Event)
    requires Ok(l) && l.connected && Enabled(l, e) && (e.Create? || e.TimerFires? || e.Wait?)
    ensures Apply(l, e).connected && Outgoing(Apply(l, e)) == Outgoing(l) + if e.Create? then [e.msg] else []
  {
    match e
    case Create(m) => PostSends(l, m);
    case TimerFires => FlushSends(l);
    case _ =>
  }

  // ---- How long what expired was held -------------------------------------

  lemma PrefixUnfolds(l: Link, es: seq<Event>, n: nat)
    requires 0 < n <= |es| && Enabled(l, es[0])
    ensures Legal(l, es[..n]) <==> Legal(Apply(l, es[0]), es[1..][..n - 1])
    ensures Legal(l, es[..n]) ==> Exec(l, es[..n]) == Exec(Apply(l, es[0]), es[1..][..n - 1])
  {
    assert es[..n][1..] == es[1..][..n - 1];
  }

  lemma {:induction false} StepOf(l: Link, es: seq<Event>, n: nat)
    requires Ok(l) && Legal(l, es) && n < |es|
    ensures Legal(l, es[..n]) && Ok(Exec(l, es[..n])) && Enabled(Exec(l, es[..n]), es[n])
    ensures Legal(l, es[..n + 1]) && Exec(l, es[..n + 1]) == Apply(Exec(l, es[..n]), es[n])
    decreases n
  {
    PrefixUnfolds(l, es, n + 1);
    if n > 0 {
      ApplyKeeps(l, es[0], Pong("", ""));
      StepOf(Apply(l, es[0]), es[1..], n - 1);
      PrefixUnfolds(l, es, n);
    } else {
      assert es[..0] == [] && es[1..][..0] == [];
    }
  }

  /** An entry is held from the time it is stamped with; only a reconnect lets entries expire. */
  lemma StampedNow(l: Link, e: Event, x: Held)
    requires Ok(l) && Enabled(l, e)
    ensures x in Apply(l, e).held ==> x in l.held || x.heldAt == Apply(l, e).now
    ensures e != Registered ==> Apply(l, e).expired == l.expired
  {
    match e
    case Create(m) =>
      AddIsFifo(l.batch, m);
      SendStamps(l.(batch := Add(l.batch, m).batch), Add(l.batch, m).groups, x);
    case TimerFires => SendStamps(l.(batch := Flush(l.batch).batch), Flush(l.batch).groups, x);
    case Registered => RegisteredSends(l);
    case Closed => FallbackStamps(l.(batch := Batching.EMPTY), l.batch.buffer, x);
    case Stop =>
      FallbackStamps(l.(connected := false, stopped := true, batch := Batching.EMPTY), l.batch.buffer, x);
    case Wait(_) =>
  }

  lemma SendStamps(l: Link, groups: seq<seq<Msg>>, x: Held)
    requires InBounds(l.held)
    ensures x in Send(l, groups).held ==> x in l.held || x.heldAt == l.now
    ensures Send(l, groups).now == l.now && Send(l, groups).expired == l.expired
  {
    if !l.connected { FallbackStamps(l, Flatten(groups), x); }
  }

  lemma FallbackStamps(l: Link, ms: seq<Msg>, x: Held)
    requires InBounds(l.held)
    ensures x in Fallback(l, ms).held ==> x in l.held || x.heldAt == l.now
    ensures Fallback(l, ms).now == l.now && Fallback(l, ms).expired == l.expired
  {
    var n := FallbackKeepsLongestEnd(l, ms);
    assert l.held + Stamped(ms, l.now) == (l.held + Stamped(ms, l.now))[..n] + Fallback(l, ms).held;
    StampedAt(ms, l.now, x);
  }

  lemma {:induction false} StampedAt(ms: seq<Msg>, now: nat, x: Held)
    ensures x in Stamped(ms, now) ==> x.heldAt == now
  {
    if ms != [] { StampedAt(ms[1..], now, x); }
  }

  /** Entry `x` is held `j` events into the run. */
  ghost predicate HeldAfter(es: seq<Event>, x: Held, j: nat) {
    j <= |es| && Legal(IDLE, es[..j]) && x in Exec(IDLE, es[..j]).held
  }

  ghost predicate CameIn(es: seq<Event>, x: Held, j: nat) {
    j <= |es| && Legal(IDLE, es[..j]) && Exec(IDLE, es[..j]).now == x.heldAt
  }

  /** Entry `x` came into the hold at the time it is stamped with, `m` events into the run, and was held until event `k`. */
  ghost predicate HeldBetween(es: seq<Event>, x: Held, m: nat, k: nat) {
    m <= k <= |es| && CameIn(es, x, m) && HeldAfter(es, x, k) && forall j :: m <= j <= k ==> HeldAfter(es, x, j)
  }

  lemma HeldBefore(es: seq<Event>, x: Held, k: nat)
    requires Legal(IDLE, es) && HeldAfter(es, x, k)
    ensures k > 0 && (HeldAfter(es, x, k - 1) || CameIn(es, x, k))
  {
    assert es[..0] == [];
    StepOf(IDLE, es, k - 1);
    StampedNow(Exec(IDLE, es[..k - 1]), es[k - 1], x);
  }

  lemma {:induction false} HeldSince(es: seq<Event>, x: Held, k: nat) returns (m: nat)
    requires Legal(IDLE, es) && HeldAfter(es, x, k)
    ensures HeldBetween(es, x, m, k)
    decreases k
  {
    HeldBefore(es, x, k);
    if HeldAfter(es, x, k - 1) {
      m := HeldSince(es, x, k - 1);
    } else {
      m := k;
    }
  }

  lemma {:induction false} OutdatedEntry(q: seq<Held>, now: nat, i: nat) returns (x: Held)
    requires i < |Outdated(q, now)|
    ensures x in q && x.msg == Outdated(q, now)[i] && x.heldAt + 120_000 < now
  {
    if q[0].heldAt + 120_000 < now && i == 0 {
      x := q[0];
    } else {
      x := OutdatedEntry(q[1..], now, if q[0].heldAt + 120_000 < now then i - 1 else i);
    }
  }

  /**
   Over whole runs: whatever expired came into the hold more than 120 s before
   a reconnect, was held all that time, and was given up at that reconnect.
   */
  lemma {:induction false} ExpiredWasOutdated(es: seq<Event>, i: nat) returns (x: Held, m: nat, k: nat)
    requires Legal(IDLE, es) && i < |Exec(IDLE, es).expired|
    ensures k < |es| && es[k] == Registered && HeldBetween(es, x, m, k)
    ensures x.msg == Exec(IDLE, es).expired[i] && x.heldAt + 120_000 < Exec(IDLE, es[..k]).now
    decreases |es|
  {
    var n := |es| - 1;
    StepOf(IDLE, es, n);
    assert es[..n + 1] == es;
    var l := Exec(IDLE, es[..n]);
    if es[n] == Registered { RegisteredSends(l); } else { StampedNow(l, es[n], Held(Pong("", ""), 0)); }
    if i < |l.expired| {
      x, m, k := ExpiredWasOutdated(es[..n], i);
      SamePrefixes(es, n, x, m, k);
    } else {
      k := n;
      x := OutdatedEntry(l.held, l.now, i - |l.expired|);
      m := HeldSince(es, x, n);
    }
  }

  lemma SamePrefixes(es: seq<Event>, n: nat, x: Held, m: nat, k: nat)
    requires Legal(IDLE, es) && n <= |es| && Legal(IDLE, es[..n]) && k <= n && HeldBetween(es[..n], x, m, k)
    ensures es[..n][..k] == es[..k] && HeldBetween(es, x, m, k)
  {
    forall j | 0 <= j <= k ensures es[..n][..j] == es[..j] {}
    forall j | m <= j <= k ensures HeldAfter(es, x, j) { assert HeldAfter(es[..n], x, j); }
  }

  // ---- The object ---------------------------------------------------------

  /** The client object: connection state, hold, and the batcher it feeds. */
  class AgentClient {
    const batcher: MessageBatcher
    var now: nat
    var connected: bool
    var stopped: bool
    var held: seq<Held>
    var heldBytes: nat
    var frames: seq<seq<Msg>>
    ghost var evicted: seq<Msg>
    ghost var expired: seq<Msg>
    ghost var discarded: seq<Msg>
    ghost var pongs: seq<Msg>

    ghost function View(): Link
      reads this, batcher
    {
      Link(now, connected, stopped, batcher.View(), held, frames, evicted, expired, discarded, pongs)
    }

    ghost predicate Valid()
      reads this, batcher
    {
      Ok(View()) && heldBytes == HeldBytes(held)
    }

    constructor ()
      ensures Valid() && View() == IDLE && fresh(batcher)
    {
      batcher := new MessageBatcher();
      now, connected, stopped, held, heldBytes, frames := 0, false, false, [], 0, [];
      evicted, expired, discarded, pongs := [], [], [], [];
    }

    /** The shift loop: drop the oldest entry while the hold is over its bounds. */
    method ShiftExcess()
      requires heldBytes == HeldBytes(held)
      modifies this`held, this`heldBytes
      ensures held == old(held)[Excess(old(held))..] && heldBytes == HeldBytes(held)
    {
      ghost var gone := 0;
      while |held| > MAX_HELD_RESPONSES || (heldBytes > MAX_HELD_BYTES && |held| > 1)
        invariant gone <= |old(held)| && held == old(held)[gone..] && heldBytes == HeldBytes(held)
        invariant gone + Excess(held) == Excess(old(held))
        decreases |held|
      {
        var dropped := held[0];
        held := held[1..];
        heldBytes := heldBytes - Size(dropped.msg);
        gone := gone + 1;
      }
    }

    method HoldResponse(msg: Msg)
      requires Valid()
      modifies this
      ensures Valid() && View() == Hold(old(View()), msg)
    {
      var one := Held(msg, now);
      ghost var all := held + [one];
      HeldBytesPush(held, one);
      held := held + [one];
      heldBytes := heldBytes + Size(msg);
      ShiftExcess();
      evicted := evicted + Messages(all[..Excess(all)]);
    }

    /** The batcher's `send`: one frame per group, or the fallback for every message. */
    method SendGroups(groups: seq<seq<Msg>>)
      requires Valid() && AllFit(groups)
      modifies this
      ensures Valid() && View() == Send(old(View()), groups)
    {
      if connected {
        AllFitConcat(frames, groups);
        frames := frames + groups;
      } else {
        ToFallback(Flatten(groups));
      }
    }

    method ToFallback(ms: seq<Msg>)
      requires Valid()
      modifies this
      ensures Valid() && View() == Fallback(old(View()), ms)
    {
      for i := 0 to |ms|
        invariant Valid() && Fallback(View(), ms[i..]) == Fallback(old(View()), ms)
      {
        if ms[i].Pong? {
          pongs := pongs + [ms[i]];
        } else {
          HoldResponse(ms[i]);
        }
        assert ms[i..][1..] == ms[i + 1..];
      }
    }

    method Submit(msg: Msg)
      requires Valid()
      modifies this, batcher
      ensures Valid() && View() == Apply(old(View()), Create(msg))
    {
      var groups := batcher.Enqueue(msg);
      SendGroups(groups);
    }

    method OnTimer()
      requires Valid()
      modifies this, batcher
      ensures Valid() && View() == Apply(old(View()), TimerFires)
    {
      FlushOk(batcher.View());
      var groups := batcher.FlushNow();
      SendGroups(groups);
    }

    /** `onRegistered`: connected again, then everything held is posted or, if too old, dropped. */
    method OnRegistered()
      requires Valid()
      modifies this, batcher
      ensures Valid() && View() == Apply(old(View()), Registered)
    {
      var q := held;
      held, heldBytes, connected := [], 0, true;
      ghost var l := View();
      for i := 0 to |q|
        invariant Valid() && Resend(View(), q[i..]) == Resend(l, q)
      {
        assert q[i..][1..] == q[i + 1..];
        if q[i].heldAt < now - REQUEST_TIMEOUT_MS {
          expired := expired + [q[i].msg];
        } else {
          Submit(q[i].msg);
        }
      }
    }

    /** `onClose`: unless the client was stopped, what is buffered moves to the hold before the state changes. */
    method OnClose()
      requires Valid()
      modifies this, batcher
      ensures Valid() && View() == Apply(old(View()), Closed)
    {
      if stopped { return; }
      MoveBufferToHold();
      connected := false;
    }

    method MoveBufferToHold()
      requires Valid()
      modifies this, batcher
      ensures Valid() && View() == FlushToHold(old(View()))
    {
      var ms := batcher.buffer;
      batcher.buffer, batcher.bufferBytes, batcher.timer := [], 0, false;
      ToFallback(ms);
    }

    method StopClient()
      requires Valid()
      modifies this, batcher
      ensures Valid() && View() == Apply(old(View()), Stop)
    {
      connected, stopped := false, true;
      MoveBufferToHold();
      discarded := discarded + Messages(held);
      held, heldBytes := [], 0;
    }
  }

  lemma {:induction false} HeldBytesPush(q: seq<Held>, x: Held)
    ensures HeldBytes(q + [x]) == HeldBytes(q) + Size(x.msg)
  {
    if q == [] {
      assert q + [x] == [x];
    } else {
      assert (q + [x])[1..] == q[1..] + [x];
      HeldBytesPush(q[1..], x);
    }
  }
}
