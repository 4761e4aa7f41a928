/**
 The agent's message batcher. Messages are collected for up to 50 ms and sent
 as one frame, bounded in number and in bytes; a message that is too big on
 its own is sent by itself, after what was buffered before it.
 */
module Batching {
  import opened Utf8

  const BATCH_MAX_BYTES := 1024 * 1024
  const BATCH_MAX_SIZE := 100

  /** A message with its JSON, serialized once when it is added. */
  datatype Msg =
    | Response(requestId: string, json: string)
    | AgentError(requestId: string, code: string, json: string)
    | Pong(agentId: string, json: string)

  function Size(m: Msg): nat { ByteLen(m.json) }

  function Bytes(ms: seq<Msg>): nat {
    if ms == [] then 0 else Bytes(ms[..|ms| - 1]) + Size(ms[|ms| - 1])
  }

  function Flatten(groups: seq<seq<Msg>>): seq<Msg> {
    if groups == [] then [] else Flatten(groups[..|groups| - 1]) + groups[|groups| - 1]
  }

  lemma {:induction false} FlattenConcat(a: seq<seq<Msg>>, b: seq<seq<Msg>>)
    ensures Flatten(a + b) == Flatten(a) + Flatten(b)
  {
    if b == [] {
      assert a + b == a;
    } else {
      assert (a + b)[..|a + b| - 1] == a + b[..|b| - 1];
      FlattenConcat(a, b[..|b| - 1]);
    }
  }

  lemma FlattenOne(g: seq<Msg>)
    ensures Flatten([g]) == g
  {
    assert [g][..0] == [];
  }

  datatype Batch = Batch(buffer: seq<Msg>, bufferBytes: nat, timer: bool)

  const EMPTY := Batch([], 0, false)

  /** The state after a call, and the groups of messages handed to `send` during it, in order. */
  datatype Sent = Sent(batch: Batch, groups: seq<seq<Msg>>)

  function Flush(b: Batch): Sent {
    if b.buffer == [] then Sent(b.(timer := false), []) else Sent(EMPTY, [b.buffer])
  }

  /** Buffer a message that fits, and flush if that makes a full batch. */
  function Push(b: Batch, m: Msg): Sent {
    var b' := Batch(b.buffer + [m], b.bufferBytes + Size(m), b.timer);
    if |b'.buffer| >= BATCH_MAX_SIZE then Flush(b') else Sent(b'.(timer := true), [])
  }

  function Add(b: Batch, m: Msg): Sent {
    if Size(m) > BATCH_MAX_BYTES then
      Sent(Flush(b).batch, Flush(b).groups + [[m]])
    else if b.bufferBytes + Size(m) > BATCH_MAX_BYTES then
      var p := Push(Flush(b).batch, m);
      Sent(p.batch, Flush(b).groups + p.groups)
    else Push(b, m)
  }

  /** Between calls: the byte count is right, the bounds hold, and the timer runs exactly while something is buffered. */
  ghost predicate Bounded(b: Batch) {
    && b.bufferBytes == Bytes(b.buffer) <= BATCH_MAX_BYTES
    && |b.buffer| < BATCH_MAX_SIZE
    && (b.buffer != [] <==> b.timer)
  }

  /** A group that is sent as one frame: within both bounds, or a single message. */
  ghost predicate FitsFrame(g: seq<Msg>) {
    && 1 <= |g| <= BATCH_MAX_SIZE
    && (|g| > 1 ==> Bytes(g) <= BATCH_MAX_BYTES)
  }

  ghost predicate AllFit(groups: seq<seq<Msg>>) {
    forall i :: 0 <= i < |groups| ==> FitsFrame(groups[i])
  }

  lemma FlushOk(b: Batch)
    requires b.bufferBytes == Bytes(b.buffer) <= BATCH_MAX_BYTES && |b.buffer| <= BATCH_MAX_SIZE
    ensures Bounded(Flush(b).batch) && AllFit(Flush(b).groups)
    ensures Flush(b).batch.buffer == [] && Flatten(Flush(b).groups) == b.buffer
  {
    if b.buffer != [] { FlattenOne(b.buffer); }
  }

  lemma PushOk(b: Batch, m: Msg)
    requires Bounded(b) && b.bufferBytes + Size(m) <= BATCH_MAX_BYTES
    ensures var s := Push(b, m);
      && Bounded(s.batch) && AllFit(s.groups)
      && Flatten(s.groups) + s.batch.buffer == b.buffer + [m]
  {
    var b' := Batch(b.buffer + [m], b.bufferBytes + Size(m), b.timer);
    assert b'.buffer[..|b'.buffer| - 1] == b.buffer;
    if |b'.buffer| >= BATCH_MAX_SIZE {
      FlushOk(b');
    }
  }

  lemma AllFitConcat(a: seq<seq<Msg>>, b: seq<seq<Msg>>)
    requires AllFit(a) && AllFit(b)
    ensures AllFit(a + b)
  {
  }

  /** First in, first out: what leaves, followed by what stays, is what was there and then the new message. */
  lemma AddIsFifo(b: Batch, m: Msg)
    requires Bounded(b)
    ensures var s := Add(b, m);
      && Bounded(s.batch) && AllFit(s.groups)
      && Flatten(s.groups) + s.batch.buffer == b.buffer + [m]
  {
    if Size(m) > BATCH_MAX_BYTES {
      FlushThenSend(b, m);
    } else if b.bufferBytes + Size(m) > BATCH_MAX_BYTES {
      FlushThenPush(b, m);
    } else {
      PushOk(b, m);
    }
  }

  lemma FlushThenSend(b: Batch, m: Msg)
    requires Bounded(b)
    ensures var groups := Flush(b).groups + [[m]];
      Bounded(Flush(b).batch) && AllFit(groups) && Flatten(groups) + Flush(b).batch.buffer == b.buffer + [m]
  {
    FlushOk(b);
    FlattenConcat(Flush(b).groups, [[m]]);
    FlattenOne([m]);
    assert FitsFrame([m]);
    AllFitConcat(Flush(b).groups, [[m]]);
  }

  lemma FlushThenPush(b: Batch, m: Msg)
    requires Bounded(b) && Size(m) <= BATCH_MAX_BYTES
    ensures var p := Push(Flush(b).batch, m); var groups := Flush(b).groups + p.groups;
      Bounded(p.batch) && AllFit(groups) && Flatten(groups) + p.batch.buffer == b.buffer + [m]
  {
    var p := Push(Flush(b).batch, m);
    FlushOk(b);
    PushOk(Flush(b).batch, m);
    FlattenConcat(Flush(b).groups, p.groups);
    AllFitConcat(Flush(b).groups, p.groups);
    assert b.buffer + Flatten(p.groups) + p.batch.buffer == b.buffer + (Flatten(p.groups) + p.batch.buffer);
  }

  /** When a message waits: exactly if with it the buffer is within 1 MiB and short of 100 messages; it then is the last of the buffer. */
  lemma WaitsIff(b: Batch, m: Msg)
    requires Bounded(b)
    ensures var s, all := Add(b, m), b.buffer + [m];
      && (s.groups == [] <==> Bytes(all) <= 1_048_576 && |all| < 100)
      && (s.groups == [] ==> s.batch.buffer == all && s.batch.timer)
  {
    assert (b.buffer + [m])[..|b.buffer|] == b.buffer;
  }

  // ---- Whole runs ---------------------------------------------------------

  datatype Event = Incoming(msg: Msg) | Drain

  function After(b: Batch, e: Event): Sent {
    if e.Incoming? then Add(b, e.msg) else Flush(b)
  }

  function Added(es: seq<Event>): seq<Msg> {
    if es == [] then []
    else Added(es[..|es| - 1]) + if es[|es| - 1].Incoming? then [es[|es| - 1].msg] else []
  }

  function Run(es: seq<Event>): Sent {
    if es == [] then Sent(EMPTY, [])
    else
      var before := Run(es[..|es| - 1]);
      var now := After(before.batch, es[|es| - 1]);
      Sent(now.batch, before.groups + now.groups)
  }

  /**
   Over any run of messages and flushes, the groups that have left followed by
   the buffer are exactly the added messages in order, every group fits a
   frame, and the buffer is within its bounds.
   */
  lemma {:induction false} RunIsFifo(es: seq<Event>)
    ensures Flatten(Run(es).groups) + Run(es).batch.buffer == Added(es)
    ensures AllFit(Run(es).groups) && Bounded(Run(es).batch)
  {
    if es != [] {
      var before := Run(es[..|es| - 1]);
      var e := es[|es| - 1];
      RunIsFifo(es[..|es| - 1]);
      AfterIsFifo(before.batch, e);
      var now := After(before.batch, e);
      Chain(before.groups, before.batch.buffer, Added(es[..|es| - 1]),
            now.groups, now.batch.buffer, if e.Incoming? then [e.msg] else []);
      AllFitConcat(before.groups, now.groups);
    }
  }

  lemma Chain(sent: seq<seq<Msg>>, kept: seq<Msg>, added: seq<Msg>, sent': seq<seq<Msg>>, kept': seq<Msg>, more: seq<Msg>)
    requires Flatten(sent) + kept == added && Flatten(sent') + kept' == kept + more
    ensures Flatten(sent + sent') + kept' == added + more
  {
    FlattenConcat(sent, sent');
    assert Flatten(sent) + Flatten(sent') + kept' == Flatten(sent) + (Flatten(sent') + kept');
    assert Flatten(sent) + (kept + more) == Flatten(sent) + kept + more;
  }

  lemma AfterIsFifo(b: Batch, e: Event)
    requires Bounded(b)
    ensures var s := After(b, e);
      && Bounded(s.batch) && AllFit(s.groups)
      && Flatten(s.groups) + s.batch.buffer == b.buffer + if e.Incoming? then [e.msg] else []
  {
    if e.Incoming? {
      AddIsFifo(b, e.msg);
    } else {
      FlushOk(b);
    }
  }

  // ---- The frame on the wire ----------------------------------------------

  const VERSION_FIELD := "{\"v\":\"1\","
  const TYPE_FIELD := "\"type\":\"agent:batch\","
  const MESSAGES_FIELD := "\"messages\":["
  const TAIL := "]}"

  function Joined(ms: seq<Msg>): string
    requires ms != []
  {
    if |ms| == 1 then ms[0].json else Joined(ms[..|ms| - 1]) + "," + ms[|ms| - 1].json
  }

  function FrameText(g: seq<Msg>): string
    requires g != []
  {
    if |g| == 1 then g[0].json else Wrapped(Joined(g))
  }

  function Wrapped(body: string): string { VERSION_FIELD + TYPE_FIELD + MESSAGES_FIELD + body + TAIL }

  lemma {:induction false} AsciiBytes(s: string)
    requires forall i :: 0 <= i < |s| ==> s[i] as int < 0x80
    ensures ByteLen(s) == |s|
  {
    if s != "" { AsciiBytes(s[1..]); }
  }

  lemma {:induction false} JoinedBytes(ms: seq<Msg>)
    requires ms != []
    ensures ByteLen(Joined(ms)) == Bytes(ms) + |ms| - 1
  {
    var init := ms[..|ms| - 1];
    if |ms| == 1 {
      assert init == [];
    } else {
      JoinedBytes(init);
      ByteLenConcat(Joined(init), ",");
      ByteLenConcat(Joined(init) + ",", ms[|ms| - 1].json);
      AsciiBytes(",");
    }
  }

  lemma VersionBytes(s: string)
    requires s == VERSION_FIELD
    ensures ByteLen(s) == 9
  {
    AsciiBytes(s);
  }

  lemma TypeBytes(s: string)
    requires s == TYPE_FIELD
    ensures ByteLen(s) == 21
  {
    AsciiBytes(s);
  }

  lemma MessagesBytes(s: string)
    requires s == MESSAGES_FIELD
    ensures ByteLen(s) == 12
  {
    AsciiBytes(s);
  }

  lemma TailBytes(s: string)
    requires s == TAIL
    ensures ByteLen(s) == 2
  {
    AsciiBytes(s);
  }

  lemma WrapperBytes(version: string, kind: string, messages: string, body: string, tail: string)
    requires ByteLen(version) == 9 && ByteLen(kind) == 21 && ByteLen(messages) == 12 && ByteLen(tail) == 2
    ensures ByteLen(version + kind + messages + body + tail) == 44 + ByteLen(body)
  {
    ByteLenConcat(version + kind + messages + body, tail);
    ByteLenConcat(version + kind + messages, body);
    ByteLenConcat(version + kind, messages);
    ByteLenConcat(version, kind);
  }

  /** A batch frame costs 44 bytes and a comma between messages. */
  lemma WrappedBytes(body: string)
    ensures ByteLen(Wrapped(body)) == 44 + ByteLen(body)
  {
    VersionBytes(VERSION_FIELD);
    TypeBytes(TYPE_FIELD);
    MessagesBytes(MESSAGES_FIELD);
    TailBytes(TAIL);
    WrapperBytes(VERSION_FIELD, TYPE_FIELD, MESSAGES_FIELD, body, TAIL);
  }

  /** A frame is at most 143 bytes over the message limit, or it is a single message as it was serialized. */
  lemma FrameBytes(g: seq<Msg>)
    requires FitsFrame(g)
    ensures |g| == 1 ==> FrameText(g) == g[0].json
    ensures |g| > 1 ==> ByteLen(FrameText(g)) == Bytes(g) + 44 + |g| - 1 <= BATCH_MAX_BYTES + 143
  {
    if |g| > 1 {
      JoinedBytes(g);
      WrappedBytes(Joined(g));
    }
  }

  // ---- The object ---------------------------------------------------------

  class MessageBatcher {
    var buffer: seq<Msg>
    var bufferBytes: nat
    var timer: bool

    ghost function View(): Batch reads this { Batch(buffer, bufferBytes, timer) }

    constructor ()
      ensures View() == EMPTY
    {
      buffer, bufferBytes, timer := [], 0, false;
    }

    method FlushNow() returns (groups: seq<seq<Msg>>)
      modifies this
      ensures Sent(View(), groups) == Flush(old(View()))
    {
      timer := false;
      groups := [];
      if |buffer| == 0 { return; }
      groups := [buffer];
      buffer, bufferBytes := [], 0;
    }

    method Enqueue(msg: Msg) returns (groups: seq<seq<Msg>>)
      requires Bounded(View())
      modifies this
      ensures Sent(View(), groups) == Add(old(View()), msg)
      ensures Bounded(View()) && AllFit(groups) && Flatten(groups) + buffer == old(buffer) + [msg]
    {
      AddIsFifo(View(), msg);
      groups := [];
      var bytes := Size(msg);
      if bytes > BATCH_MAX_BYTES {
        groups := FlushNow();
        groups := groups + [[msg]];
        return;
      }
      if bufferBytes + bytes > BATCH_MAX_BYTES { groups := FlushNow(); }
      buffer := buffer + [msg];
      bufferBytes := bufferBytes + bytes;
      if |buffer| >= BATCH_MAX_SIZE {
        var more := FlushNow();
        groups := groups + more;
      } else if !timer {
        timer := true;
      }
    }
  }
}
