/**
 Frames as text. A batch frame is put together from the JSON of its messages;
 a reader that only follows brackets and strings gets the same texts back, in
 order, so nothing is lost or joined up on the wire.
 */
module Framing {
  import opened Batching

  // ---- A reader of JSON text ----------------------------------------------

  /** How many brackets are open, and whether the reader is in a string or right behind a backslash. */
  datatype Place = Place(depth: int, inString: bool, escaped: bool)

  const TOP := Place(0, false, false)

  function Step(p: Place, c: char): Place {
    if p.inString then
      if p.escaped then p.(escaped := false)
      else if c == '\\' then p.(escaped := true)
      else if c == '\"' then p.(inString := false)
      else p
    else if c == '\"' then p.(inString := true)
    else if c == '{' || c == '[' then p.(depth := p.depth + 1)
    else if c == '}' || c == ']' then p.(depth := p.depth - 1)
    else p
  }

  /** Read from `p` on, the text closes whatever is open and has no comma outside: the rest of one value. */
  predicate OneValue(p: Place, s: string)
    decreases |s|
  {
    if s == "" then p == TOP else !(p == TOP && s[0] == ',') && OneValue(Step(p, s[0]), s[1..])
  }

  /** The parts of a text between its outer commas. */
  function Parts(p: Place, s: string): (r: seq<string>)
    ensures r != []
    decreases |s|
  {
    if s == "" then [""]
    else
      var rest := Parts(Step(p, s[0]), s[1..]);
      if p == TOP && s[0] == ',' then [""] + rest else [[s[0]] + rest[0]] + rest[1..]
  }

  lemma {:induction false} FirstPart(p: Place, s: string, rest: string)
    requires OneValue(p, s)
    ensures Parts(p, s) == [s] && Parts(p, s + "," + rest) == [s] + Parts(TOP, rest)
    decreases |s|
  {
    var all := s + "," + rest;
    if s == "" {
      assert all[1..] == rest;
    } else {
      FirstPart(Step(p, s[0]), s[1..], rest);
      assert all[1..] == s[1..] + "," + rest;
      assert [s[0]] + s[1..] == s;
    }
  }

  // ---- Reading a frame ----------------------------------------------------

  function Header(): string { VERSION_FIELD + TYPE_FIELD + MESSAGES_FIELD }

  /** The messages of a frame: a batch is unwrapped and split, anything else is one message. */
  function ReadFrame(text: string): seq<string> {
    var n, end := |Header()|, |text| - |TAIL|;
    if n <= end && Header() <= text then Parts(TOP, text[n..end]) else [text]
  }

  function Jsons(ms: seq<Msg>): seq<string> { seq(|ms|, i requires 0 <= i < |ms| => ms[i].json) }

  /** What `JSON.stringify` makes of a message: one value, and not itself a batch. */
  predicate Serialized(m: Msg) { OneValue(TOP, m.json) && !(Header() <= m.json) }

  lemma {:induction false} JoinedFromFront(ms: seq<Msg>)
    requires |ms| > 1
    ensures Joined(ms) == ms[0].json + "," + Joined(ms[1..])
  {
    var init, last := ms[..|ms| - 1], ms[|ms| - 1].json;
    assert ms[1..][..|ms| - 2] == init[1..];
    if |ms| > 2 {
      JoinedFromFront(init);
      assert ms[0].json + "," + Joined(init[1..]) + "," + last == ms[0].json + "," + (Joined(init[1..]) + "," + last);
    }
  }

  lemma {:induction false} JoinedParts(ms: seq<Msg>)
    requires ms != [] && forall i :: 0 <= i < |ms| ==> OneValue(TOP, ms[i].json)
    ensures Parts(TOP, Joined(ms)) == Jsons(ms)
  {
    if |ms| == 1 {
      FirstPart(TOP, ms[0].json, "");
    } else {
      JoinedFromFront(ms);
      JoinedParts(ms[1..]);
      FirstPart(TOP, ms[0].json, Joined(ms[1..]));
    }
  }

  lemma Unwrapped(body: string)
    ensures var text, n := Wrapped(body), |Header()|; var end := |text| - |TAIL|;
      n <= end && Header() <= text && text[n..end] == body
  {
    assert Wrapped(body) == Header() + body + TAIL;
  }

  /** A frame reads back as the messages of its group, whole and in order. */
  lemma FrameReadsBack(g: seq<Msg>)
    requires g != [] && forall i :: 0 <= i < |g| ==> Serialized(g[i])
    ensures ReadFrame(FrameText(g)) == Jsons(g)
  {
    if |g| > 1 {
      Unwrapped(Joined(g));
      JoinedParts(g);
    }
  }

  // ---- Whole runs ---------------------------------------------------------

  /** Everything that is read from the frames of the groups, in the order they were sent. */
  function ReadAll(groups: seq<seq<Msg>>): seq<string>
    requires forall i :: 0 <= i < |groups| ==> groups[i] != []
  {
    if groups == [] then []
    else ReadAll(groups[..|groups| - 1]) + ReadFrame(FrameText(groups[|groups| - 1]))
  }

  ghost predicate AllSerialized(ms: seq<Msg>) { forall i :: 0 <= i < |ms| ==> Serialized(ms[i]) }

  lemma JsonsConcat(a: seq<Msg>, b: seq<Msg>)
    ensures Jsons(a + b) == Jsons(a) + Jsons(b)
  {
  }

  lemma {:induction false} GroupsReadBack(groups: seq<seq<Msg>>)
    requires (forall i :: 0 <= i < |groups| ==> groups[i] != []) && AllSerialized(Flatten(groups))
    ensures ReadAll(groups) == Jsons(Flatten(groups))
  {
    if groups != [] {
      var before, last := groups[..|groups| - 1], groups[|groups| - 1];
      SerializedParts(Flatten(before), last);
      GroupsReadBack(before);
      FrameReadsBack(last);
      JsonsConcat(Flatten(before), last);
    }
  }

  lemma SerializedParts(a: seq<Msg>, b: seq<Msg>)
    requires AllSerialized(a + b)
    ensures AllSerialized(a) && AllSerialized(b)
  {
    forall i | 0 <= i < |a| ensures Serialized(a[i]) { assert (a + b)[i] == a[i]; }
    forall i | 0 <= i < |b| ensures Serialized(b[i]) { assert (a + b)[|a| + i] == b[i]; }
  }

  /**
   The wire is first in, first out: over every batcher run, the texts read from
   its frames, followed by those still buffered, are the texts of the messages
   added, in order.
   */
  lemma WireIsFifo(es: seq<Event>)
    requires AllSerialized(Added(es))
    ensures forall i :: 0 <= i < |Run(es).groups| ==> Run(es).groups[i] != []
    ensures ReadAll(Run(es).groups) + Jsons(Run(es).batch.buffer) == Jsons(Added(es))
  {
    RunIsFifo(es);
    forall i | 0 <= i < |Run(es).groups| ensures Run(es).groups[i] != [] { assert FitsFrame(Run(es).groups[i]); }
    SerializedParts(Flatten(Run(es).groups), Run(es).batch.buffer);
    GroupsReadBack(Run(es).groups);
    JsonsConcat(Flatten(Run(es).groups), Run(es).batch.buffer);
  }
}
