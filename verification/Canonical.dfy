/**
 The canonical string that requests are signed over: a version, then six
 fields, each announced by its length in UTF-8 bytes. A parser undoes it,
 whatever the fields contain.
 */
module Canonical {
  import opened Options
  import opened Utf8

  // ---- Decimal numbers ----------------------------------------------------

  const DIGITS := "0123456789"

  function Decimal(n: nat): (s: string)
    ensures s != "" && forall i :: 0 <= i < |s| ==> IsDigit(s[i])
  {
    if n < 10 then [DIGITS[n]] else Decimal(n / 10) + [DIGITS[n % 10]]
  }

  predicate IsDigit(c: char) { '0' <= c <= '9' }

  function DigitValue(c: char): nat
    requires IsDigit(c)
  {
    c as int - '0' as int
  }

  function Number(s: string): nat
    requires forall i :: 0 <= i < |s| ==> IsDigit(s[i])
  {
    if s == "" then 0 else 10 * Number(s[..|s| - 1]) + DigitValue(s[|s| - 1])
  }

  lemma {:induction false} DecimalRoundTrip(n: nat)
    ensures Number(Decimal(n)) == n
  {
    if n < 10 {
      assert Decimal(n)[..0] == "";
    } else {
      DecimalRoundTrip(n / 10);
      assert Decimal(n)[..|Decimal(n)| - 1] == Decimal(n / 10);
    }
  }

  /** `Number.prototype.toString` for integers. */
  function IntText(n: int): string { if n < 0 then "-" + Decimal(-n) else Decimal(n) }

  lemma SignShows(n: int)
    ensures IntText(n) != "" && (IntText(n)[0] == '-' <==> n < 0)
  {
    if n >= 0 { assert IsDigit(Decimal(n)[0]); }
  }

  lemma IntTextInjective(a: int, b: int)
    requires IntText(a) == IntText(b)
    ensures a == b
  {
    SignShows(a);
    SignShows(b);
    var m, n := if a < 0 then -a else a, if b < 0 then -b else b;
    DecimalRoundTrip(m);
    DecimalRoundTrip(n);
    if a < 0 {
      assert IntText(a)[1..] == Decimal(m) && IntText(b)[1..] == Decimal(n);
    }
  }

  // ---- Length-prefixed fields ---------------------------------------------

  function Field(f: string): string { Decimal(ByteLen(f)) + ":" + f }

  /** Each field preceded by a bar. */
  function Encode(fields: seq<string>): string {
    if fields == [] then "" else "|" + Field(fields[0]) + Encode(fields[1..])
  }

  /** The number of leading digits. */
  function DigitRun(s: string): (n: nat)
    ensures n <= |s| && (forall i :: 0 <= i < n ==> IsDigit(s[i])) && (n < |s| ==> !IsDigit(s[n]))
  {
    if s == "" || !IsDigit(s[0]) then 0 else 1 + DigitRun(s[1..])
  }

  /** The length of the prefix of `s` that takes up exactly `bytes` bytes, if there is one. */
  function TakeBytes(s: string, bytes: nat): Option<nat> {
    if bytes == 0 then Some(0)
    else if s == "" || Width(s[0]) > bytes then None
    else match TakeBytes(s[1..], bytes - Width(s[0]))
      case None => None
      case Some(n) => Some(n + 1)
  }

  lemma {:induction false} TakeBytesWithin(s: string, bytes: nat)
    ensures TakeBytes(s, bytes).Some? ==> TakeBytes(s, bytes).value <= |s|
  {
    if bytes != 0 && s != "" && Width(s[0]) <= bytes {
      TakeBytesWithin(s[1..], bytes - Width(s[0]));
    }
  }

  lemma {:induction false} TakeBytesFindsField(f: string, rest: string)
    ensures TakeBytes(f + rest, ByteLen(f)) == Some(|f|)
  {
    if f == "" {
      assert f + rest == rest;
    } else {
      assert (f + rest)[1..] == f[1..] + rest;
      TakeBytesFindsField(f[1..], rest);
    }
  }

  datatype Parsed = Malformed | Fields(fields: seq<string>)

  /** Reads fields until the text is used up. */
  function Parse(s: string): Parsed
    decreases |s|
  {
    if s == "" then Fields([])
    else if s[0] != '|' then Malformed
    else
      var n := DigitRun(s[1..]);
      var t := s[1..][n..];
      if n == 0 || t == "" || t[0] != ':' then Malformed
      else
        var taken := TakeBytes(t[1..], Number(s[1..][..n]));
        TakeBytesWithin(t[1..], Number(s[1..][..n]));
        if taken.None? then Malformed
        else match Parse(t[1..][taken.value..])
          case Malformed => Malformed
          case Fields(fs) => Fields([t[1..][..taken.value]] + fs)
  }

  lemma {:induction false} DigitRunStops(d: string, rest: string)
    requires forall i :: 0 <= i < |d| ==> IsDigit(d[i])
    requires rest != "" && !IsDigit(rest[0])
    ensures DigitRun(d + rest) == |d|
  {
    if d == "" {
      assert d + rest == rest;
    } else {
      assert (d + rest)[1..] == d[1..] + rest;
      DigitRunStops(d[1..], rest);
    }
  }

  lemma Cut(a: string, b: string)
    ensures (a + b)[..|a|] == a && (a + b)[|a|..] == b
  {
  }

  lemma ParseStep(s: string, n: nat, t: string, k: nat)
    requires s != "" && s[0] == '|' && 0 < n == DigitRun(s[1..]) && t == s[1..][n..]
    requires t != "" && t[0] == ':' && TakeBytes(t[1..], Number(s[1..][..n])) == Some(k) && k <= |t[1..]|
    requires Parse(t[1..][k..]).Fields?
    ensures Parse(s) == Fields([t[1..][..k]] + Parse(t[1..][k..]).fields)
  {
  }

  lemma ParseCut(d: string, f: string, rest: string)
    requires d != "" && (forall i :: 0 <= i < |d| ==> IsDigit(d[i]))
    requires TakeBytes(f + rest, Number(d)) == Some(|f|) && Parse(rest).Fields?
    ensures Parse("|" + (d + (":" + (f + rest)))) == Fields([f] + Parse(rest).fields)
  {
    var t := ":" + (f + rest);
    Cut("|", d + t);
    Cut(d, t);
    Cut(":", f + rest);
    Cut(f, rest);
    DigitRunStops(d, t);
    ParseStep("|" + (d + t), |d|, t, |f|);
  }

  lemma Regroup(a: string, b: string, c: string, d: string, e: string)
    ensures a + (b + c + d) + e == a + (b + (c + (d + e)))
  {
  }

  lemma ParseOneField(f: string, rest: string)
    requires Parse(rest).Fields?
    ensures Parse("|" + Field(f) + rest) == Fields([f] + Parse(rest).fields)
  {
    var d := Decimal(ByteLen(f));
    DecimalRoundTrip(ByteLen(f));
    TakeBytesFindsField(f, rest);
    ParseCut(d, f, rest);
    Regroup("|", d, ":", f, rest);
  }

  /** The parser undoes the encoding, for any fields at all. */
  lemma {:induction false} ParseUndoesEncode(fields: seq<string>)
    ensures Parse(Encode(fields)) == Fields(fields)
  {
    if fields != [] {
      ParseUndoesEncode(fields[1..]);
      ParseOneField(fields[0], Encode(fields[1..]));
      assert [fields[0]] + fields[1..] == fields;
    }
  }

  // ---- The canonical string -----------------------------------------------

  const CANONICAL_VERSION := "vv2"

  datatype Params = Params(verb: string, path: string, query: string, body: string, requestId: string, ts: int)

  /** `upper` and `sha` stand for the library's `toUpperCase` and SHA-256 in hex. */
  function FieldsOf(p: Params, upper: string -> string, sha: string -> string): seq<string> {
    [upper(p.verb), p.path, p.query, if p.body == "" then "" else sha(p.body), p.requestId, IntText(p.ts)]
  }

  function Build(p: Params, upper: string -> string, sha: string -> string): string {
    CANONICAL_VERSION + Encode(FieldsOf(p, upper, sha))
  }

  /**
   Injectivity: equal canonical strings come from equal upper-cased method,
   path, query, body hash, request id and timestamp, even if fields contain
   bars, colons or digits; with a collision-free hash the bodies are equal too.
   */
  lemma CanonicalIsInjective(p: Params, q: Params, upper: string -> string, sha: string -> string)
    requires Build(p, upper, sha) == Build(q, upper, sha)
    ensures FieldsOf(p, upper, sha) == FieldsOf(q, upper, sha)
    ensures upper(p.verb) == upper(q.verb) && p.path == q.path && p.query == q.query
    ensures p.requestId == q.requestId && p.ts == q.ts
    ensures (forall b, c :: sha(b) == sha(c) ==> b == c) && (forall b :: sha(b) != "") ==> p.body == q.body
  {
    var a, b := FieldsOf(p, upper, sha), FieldsOf(q, upper, sha);
    assert Build(p, upper, sha)[|CANONICAL_VERSION|..] == Encode(a);
    assert Build(q, upper, sha)[|CANONICAL_VERSION|..] == Encode(b);
    ParseUndoesEncode(a);
    ParseUndoesEncode(b);
    assert a[0] == b[0] && a[1] == b[1] && a[2] == b[2] && a[3] == b[3] && a[4] == b[4] && a[5] == b[5];
    IntTextInjective(p.ts, q.ts);
  }

  /** The previous format: fields joined with bars. */
  function PlainJoin(fields: seq<string>): string {
    if fields == [] then "" else if |fields| == 1 then fields[0] else fields[0] + "|" + PlainJoin(fields[1..])
  }

  lemma JoinThree(x: string, y: string, z: string, rest: seq<string>)
    requires rest != []
    ensures PlainJoin([x, y, z] + rest) == x + "|" + y + "|" + z + "|" + PlainJoin(rest)
  {
    var a := [x, y, z] + rest;
    assert a[1..] == [y, z] + rest;
    assert a[1..][1..] == [z] + rest;
    assert a[1..][1..][1..] == rest;
    assert PlainJoin(a[1..][1..]) == z + "|" + PlainJoin(rest);
    assert PlainJoin(a[1..]) == y + "|" + PlainJoin(a[1..][1..]);
  }

  /** It was ambiguous: a bar inside a field moves the boundary. */
  lemma PlainJoinIsAmbiguous(verb: string, rest: seq<string>)
    requires rest != []
    ensures PlainJoin([verb, "/x|q=1", ""] + rest) == PlainJoin([verb, "/x", "q=1|"] + rest)
    ensures [verb, "/x|q=1", ""] + rest != [verb, "/x", "q=1|"] + rest
  {
    var a, b := [verb, "/x|q=1", ""] + rest, [verb, "/x", "q=1|"] + rest;
    JoinThree(verb, "/x|q=1", "", rest);
    JoinThree(verb, "/x", "q=1|", rest);
    assert a[1] != b[1];
  }
}
