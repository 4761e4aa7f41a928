/**
 The keys of the agent's response cache: `url`, NUL, and a digest of the
 caller's credential headers. Two requests share a key only if they ask for
 the same URL with the same credentials.
 */
module CacheKeys {

  /** Header names are lower-cased before they get here. */
  type Headers = map<string, string>

  datatype Req = Req(path: string, query: string, headers: Headers)

  /** Library functions: the truncated SHA-256 in hex, `sort` on a set of names, and `toUpperCase`. */
  datatype Library = Library(sha: string -> string, sort: set<string> -> seq<string>, upper: string -> string)

  const NUL := '\U{0000}'

  ghost predicate Lists(a: seq<string>, s: set<string>) {
    && (forall x :: x in a <==> x in s)
    && (forall i, j :: 0 <= i < j < |a| ==> a[i] != a[j])
  }

  /** The digest has no collisions and is non-empty hex; sorting lists every name once. */
  ghost predicate Trusted(lib: Library) {
    && (forall a, b :: lib.sha(a) == lib.sha(b) ==> a == b)
    && (forall a :: lib.sha(a) != "" && NUL !in lib.sha(a))
    && (forall s :: Lists(lib.sort(s), s))
  }

  function Url(r: Req): string { if r.query != "" then r.path + "?" + r.query else r.path }

  // ---- What a URL says about path and query -------------------------------

  /** The longer path holds a "?" where the shorter one ends; what is behind it, and the longer's query, are the other's query. */
  predicate Shifted(longer: Req, shorter: Req) {
    var n := |shorter.path|;
    && n < |longer.path| && shorter.path == longer.path[..n] && longer.path[n] == '?' && shorter.query != ""
    && shorter.query == longer.path[n + 1..] + if longer.query == "" then "" else "?" + longer.query
  }

  /** The two requests ask for the same path and query, or their difference is where the first "?" is put. */
  predicate SameTarget(r: Req, r': Req) {
    (r.path == r'.path && r.query == r'.query) || Shifted(r, r') || Shifted(r', r)
  }

  lemma SameUrlLonger(r: Req, r': Req)
    requires |r'.path| < |r.path|
    ensures Url(r) == Url(r') <==> Shifted(r, r')
  {
    var u, u', n := Url(r), Url(r'), |r'.path|;
    assert u[..n] == r.path[..n] && u'[..n] == r'.path;
    assert u[n] == r.path[n] && u[n + 1..] == r.path[n + 1..] + if r.query == "" then "" else "?" + r.query;
    if r'.query != "" {
      assert u'[n] == '?' && u'[n + 1..] == r'.query;
      assert u == u[..n] + [u[n]] + u[n + 1..] && u' == u'[..n] + [u'[n]] + u'[n + 1..];
    }
  }

  /** Exactly which paths and queries give one URL; without "?" in their paths, only equal ones. */
  lemma SameUrlIff(r: Req, r': Req)
    ensures Url(r) == Url(r') <==> SameTarget(r, r')
    ensures '?' !in r.path && '?' !in r'.path ==> (SameTarget(r, r') <==> r.path == r'.path && r.query == r'.query)
  {
    if |r'.path| < |r.path| {
      SameUrlLonger(r, r');
    } else if |r.path| < |r'.path| {
      SameUrlLonger(r', r);
    } else {
      var u, u', n := Url(r), Url(r'), |r.path|;
      assert u[..n] == r.path && u'[..n] == r'.path;
      assert r.query != "" ==> u[n + 1..] == r.query;
      assert r'.query != "" ==> u'[n + 1..] == r'.query;
    }
  }

  /** The text begins the path, or is the path, "?" and a beginning of the query. */
  predicate Covers(p: string, r: Req) {
    var n := |r.path|;
    p <= r.path || (r.query != "" && n < |p| && p[..n] == r.path && p[n] == '?' && p[n + 1..] <= r.query)
  }

  lemma CoversIff(p: string, r: Req)
    ensures p <= Url(r) <==> Covers(p, r)
  {
    var u, n := Url(r), |r.path|;
    assert u[..n] == r.path;
    if |p| <= n {
      assert p <= u <==> p <= u[..n];
    } else if r.query != "" {
      assert u[n] == '?' && u[n + 1..] == r.query;
      assert p == p[..n] + [p[n]] + p[n + 1..] && u == u[..n] + [u[n]] + u[n + 1..];
      if p <= u { assert u[..|p|] == p && u[n + 1..][..|p| - n - 1] == p[n + 1..]; }
      if Covers(p, r) { assert u[n + 1..][..|p| - n - 1] == p[n + 1..]; }
    }
  }

  // ---- Credential headers -------------------------------------------------

  function Segments(s: string): (r: seq<string>)
    ensures r != []
  {
    if s == "" then [""]
    else
      var rest := Segments(s[1..]);
      if s[0] == '-' then [""] + rest else [[s[0]] + rest[0]] + rest[1..]
  }

  const CREDENTIAL_NAMES := {"authorization", "proxy-authorization", "cookie"}
  const CREDENTIAL_WORDS := {"auth", "token", "key", "secret", "session", "csrf", "xsrf", "api"}

  /** The three standard headers, or a word between hyphens that says "credential". */
  predicate IsCredential(name: string) {
    name in CREDENTIAL_NAMES
    || exists i :: 0 <= i < |Segments(name)| && Segments(name)[i] in CREDENTIAL_WORDS
  }

  /** The word stands in the name between hyphens or ends. */
  ghost predicate WordAt(name: string, i: nat, word: string) {
    && i + |word| <= |name| && name[i..i + |word|] == word
    && (i == 0 || name[i - 1] == '-') && (i + |word| == |name| || name[i + |word|] == '-')
  }

  lemma {:induction false} FirstWord(name: string, word: string)
    requires '-' !in word
    ensures Segments(name)[0] == word <==> WordAt(name, 0, word)
  {
    if name != "" && name[0] != '-' && word != "" {
      FirstWord(name[1..], word[1..]);
      assert word == [word[0]] + word[1..];
      assert WordAt(name, 0, word) <==> name[0] == word[0] && WordAt(name[1..], 0, word[1..]) by {
        assert |word| <= |name| ==> name[1..][..|word| - 1] == name[..|word|][1..];
      }
    }
  }

  lemma WordInTail(name: string, i: nat, word: string)
    requires name != "" && i > 0
    ensures WordAt(name, i, word) <==> (i == 1 ==> name[0] == '-') && WordAt(name[1..], i - 1, word)
  {
    if i + |word| <= |name| { assert name[i..i + |word|] == name[1..][i - 1..i - 1 + |word|]; }
  }

  lemma {:induction false} LaterWords(name: string, word: string)
    requires '-' !in word
    ensures word in Segments(name)[1..] <==> exists i: nat :: i > 0 && WordAt(name, i, word)
    decreases |name|
  {
    if name != "" {
      var rest := name[1..];
      LaterWords(rest, word);
      FirstWord(rest, word);
      assert Segments(name)[1..] == if name[0] == '-' then Segments(rest) else Segments(rest)[1..];
      assert Segments(rest) == [Segments(rest)[0]] + Segments(rest)[1..];
      forall i: nat | i > 0
        ensures WordAt(name, i, word) <==> (i == 1 ==> name[0] == '-') && WordAt(rest, i - 1, word)
      {
        WordInTail(name, i, word);
      }
      if i: nat :| i > 0 && WordAt(rest, i, word) { assert WordAt(name, i + 1, word); }
      if WordAt(rest, 0, word) && name[0] == '-' { assert WordAt(name, 1, word); }
    }
  }

  /** The pattern in its own terms: one of three names, or one of eight words between hyphens or ends. */
  lemma CredentialIff(name: string)
    ensures IsCredential(name) <==>
              || name in {"authorization", "proxy-authorization", "cookie"}
              || exists word, i: nat :: word in {"auth", "token", "key", "secret", "session", "csrf", "xsrf", "api"}
                                        && WordAt(name, i, word)
  {
    var words := {"auth", "token", "key", "secret", "session", "csrf", "xsrf", "api"};
    forall word | word in words ensures word in Segments(name) <==> exists i: nat :: WordAt(name, i, word) {
      assert '-' !in word;
      FirstWord(name, word);
      LaterWords(name, word);
      assert Segments(name) == [Segments(name)[0]] + Segments(name)[1..];
    }
    if IsCredential(name) && name !in CREDENTIAL_NAMES {
      var k :| 0 <= k < |Segments(name)| && Segments(name)[k] in words;
      assert Segments(name)[k] in Segments(name);
    }
    if word, i: nat :| word in words && WordAt(name, i, word) {
      assert word in Segments(name);
      var k :| 0 <= k < |Segments(name)| && Segments(name)[k] == word;
    }
  }

  function Credentials(h: Headers): Headers { map n | n in h && IsCredential(n) :: h[n] }

  /** What the transport guarantees of header text: no line breaks, and no `=` in a name. */
  ghost predicate Plain(h: Headers) {
    forall n :: n in h ==> '=' !in n && '\n' !in n && '\n' !in h[n]
  }

  // ---- The key ------------------------------------------------------------

  function Line(name: string, value: string): string { name + "=" + value }

  function Lines(names: seq<string>, h: Headers): seq<string>
    requires forall n :: n in names ==> n in h
  {
    if names == [] then [] else [Line(names[0], h[names[0]])] + Lines(names[1..], h)
  }

  function Join(lines: seq<string>): string {
    if lines == [] then "" else if |lines| == 1 then lines[0] else lines[0] + "\n" + Join(lines[1..])
  }

  /** What a cached response belongs to. */
  datatype Id = Id(url: string, credentials: Headers)

  function IdOf(r: Req): Id { Id(Url(r), Credentials(r.headers)) }

  /** The text that is hashed. */
  function Text(lib: Library, c: Headers): string
    requires Trusted(lib)
  {
    assert Lists(lib.sort(c.Keys), c.Keys);
    Join(Lines(lib.sort(c.Keys), c))
  }

  function Digest(lib: Library, c: Headers): string
    requires Trusted(lib)
  {
    if c == map[] then "" else lib.sha(Text(lib, c))
  }

  function Key(lib: Library, id: Id): string
    requires Trusted(lib)
  {
    id.url + [NUL] + Digest(lib, id.credentials)
  }

  // ---- Reading it back ----------------------------------------------------

  function SplitLines(s: string): (r: seq<string>)
    ensures r != []
  {
    if s == "" then [""]
    else
      var rest := SplitLines(s[1..]);
      if s[0] == '\n' then [""] + rest else [[s[0]] + rest[0]] + rest[1..]
  }

  lemma {:induction false} SplitOne(line: string, rest: string)
    requires '\n' !in line
    ensures SplitLines(line) == [line]
    ensures SplitLines(line + "\n" + rest) == [line] + SplitLines(rest)
  {
    var s := line + "\n" + rest;
    if line == "" {
      assert s[1..] == rest;
    } else {
      SplitOne(line[1..], rest);
      assert s[1..] == line[1..] + "\n" + rest;
      assert [line[0]] + line[1..] == line;
    }
  }

  lemma {:induction false} JoinRoundTrip(lines: seq<string>)
    requires lines != [] && forall i :: 0 <= i < |lines| ==> '\n' !in lines[i]
    ensures SplitLines(Join(lines)) == lines
  {
    if |lines| == 1 {
      SplitOne(lines[0], "");
    } else {
      JoinRoundTrip(lines[1..]);
      SplitOne(lines[0], Join(lines[1..]));
      assert [lines[0]] + lines[1..] == lines;
    }
  }

  /** A part that lacks the separator is found again before its first occurrence. */
  lemma SplitAtFirst(c: char, n: string, v: string, n': string, v': string)
    requires c !in n && c !in n' && n + [c] + v == n' + [c] + v'
    ensures n == n' && v == v'
  {
    var s, s' := n + [c] + v, n' + [c] + v';
    assert s[|n|] == c && s'[|n'|] == c;
    assert forall i :: 0 <= i < |n| ==> s[i] == n[i] != c;
    assert forall i :: 0 <= i < |n'| ==> s'[i] == n'[i] != c;
    assert s[..|n|] == n && s'[..|n'|] == n';
    assert s[|n| + 1..] == v && s'[|n'| + 1..] == v';
  }

  /** And after its last, if it is the other part that lacks it. */
  lemma SplitAtLast(c: char, u: string, d: string, u': string, d': string)
    requires c !in d && c !in d' && u + [c] + d == u' + [c] + d'
    ensures u == u' && d == d'
  {
    var s, s' := u + [c] + d, u' + [c] + d';
    assert s[|u|] == c && s'[|u'|] == c;
    assert forall i :: |u| < i < |s| ==> s[i] == d[i - |u| - 1] != c;
    assert forall i :: |u'| < i < |s'| ==> s'[i] == d'[i - |u'| - 1] != c;
    assert s[..|u|] == u && s'[..|u'|] == u';
    assert s[|u| + 1..] == d && s'[|u'| + 1..] == d';
  }

  lemma {:induction false} LinesAt(names: seq<string>, h: Headers)
    requires forall n :: n in names ==> n in h
    ensures |Lines(names, h)| == |names|
    ensures forall i :: 0 <= i < |names| ==> Lines(names, h)[i] == Line(names[i], h[names[i]])
  {
    if names != [] { LinesAt(names[1..], h); }
  }

  lemma PlainLines(names: seq<string>, h: Headers)
    requires Plain(h) && forall n :: n in names ==> n in h
    ensures forall i :: 0 <= i < |Lines(names, h)| ==> '\n' !in Lines(names, h)[i]
  {
    LinesAt(names, h);
    forall i | 0 <= i < |names| ensures '\n' !in Lines(names, h)[i] {
      assert names[i] in h;
    }
  }

  /** Equal lines, in whatever order the names come, mean equal headers. */
  lemma LinesDetermine(names: seq<string>, h: Headers, names': seq<string>, h': Headers)
    requires Plain(h) && Plain(h') && Lists(names, h.Keys) && Lists(names', h'.Keys)
    requires Lines(names, h) == Lines(names', h')
    ensures h == h'
  {
    LinesAt(names, h);
    LinesAt(names', h');
    forall i | 0 <= i < |names| ensures names[i] == names'[i] && h[names[i]] == h'[names'[i]] {
      assert names[i] in h && names'[i] in h';
      SplitAtFirst('=', names[i], h[names[i]], names'[i], h'[names'[i]]);
    }
    assert names == names';
    assert h.Keys == h'.Keys;
  }

  lemma DigestDetermines(lib: Library, c: Headers, c': Headers)
    requires Trusted(lib) && Plain(c) && Plain(c') && Digest(lib, c) == Digest(lib, c')
    ensures c == c'
  {
    var a, a' := lib.sort(c.Keys), lib.sort(c'.Keys);
    assert Lists(a, c.Keys) && Lists(a', c'.Keys);
    if c != map[] && c' != map[] {
      var n :| n in c;
      var n' :| n' in c';
      assert n in a && n' in a';
      LinesAt(a, c);
      LinesAt(a', c');
      PlainLines(a, c);
      PlainLines(a', c');
      JoinRoundTrip(Lines(a, c));
      JoinRoundTrip(Lines(a', c'));
      LinesDetermine(a, c, a', c');
    }
  }

  lemma KeyInjective(lib: Library, id: Id, id': Id)
    requires Trusted(lib) && Plain(id.credentials) && Plain(id'.credentials) && Key(lib, id) == Key(lib, id')
    ensures id == id'
  {
    SplitAtLast(NUL, id.url, Digest(lib, id.credentials), id'.url, Digest(lib, id'.credentials));
    DigestDetermines(lib, id.credentials, id'.credentials);
  }

  /** The same credential headers, with the same values. */
  ghost predicate SameCaller(h: Headers, h': Headers) {
    && (forall n :: IsCredential(n) ==> (n in h <==> n in h'))
    && (forall n :: IsCredential(n) && n in h && n in h' ==> h[n] == h'[n])
  }

  /** A path, a query and credential headers stand behind one `Id`. */
  lemma SameIdIff(r: Req, r': Req)
    ensures IdOf(r) == IdOf(r') <==> SameTarget(r, r') && SameCaller(r.headers, r'.headers)
  {
    SameUrlIff(r, r');
    SameCredentials(r.headers, r'.headers);
  }

  /**
   Partitioning: two requests share a key exactly if they have the same path,
   query and credential headers, up to where a "?" in a path is put.
   */
  lemma KeyDetermines(lib: Library, r: Req, r': Req)
    requires Trusted(lib) && Plain(r.headers) && Plain(r'.headers)
    ensures Key(lib, IdOf(r)) == Key(lib, IdOf(r')) <==> SameTarget(r, r') && SameCaller(r.headers, r'.headers)
    ensures '?' !in r.path && '?' !in r'.path ==>
              (Key(lib, IdOf(r)) == Key(lib, IdOf(r')) <==>
                 r.path == r'.path && r.query == r'.query && SameCaller(r.headers, r'.headers))
  {
    SameIdIff(r, r');
    SameUrlIff(r, r');
    if Key(lib, IdOf(r)) == Key(lib, IdOf(r')) { KeyInjective(lib, IdOf(r), IdOf(r')); }
  }

  lemma SameCredentials(h: Headers, h': Headers)
    ensures Credentials(h) == Credentials(h') <==> SameCaller(h, h')
  {
    var c, c' := Credentials(h), Credentials(h');
    assert forall n :: n in c <==> n in h && IsCredential(n);
    assert forall n :: n in c' <==> n in h' && IsCredential(n);
    assert forall n :: n in c ==> c[n] == h[n];
    assert forall n :: n in c' ==> c'[n] == h'[n];
  }

  // ---- When two callers share a key ---------------------------------------

  lemma {:induction false} SplitJoin(s: string)
    ensures Join(SplitLines(s)) == s
    ensures forall i :: 0 <= i < |SplitLines(s)| ==> '\n' !in SplitLines(s)[i]
  {
    if s != "" {
      SplitJoin(s[1..]);
      var rest := SplitLines(s[1..]);
      assert s == [s[0]] + s[1..];
      if s[0] == '\n' {
        assert ([""] + rest)[1..] == rest;
      } else {
        var lines := [[s[0]] + rest[0]] + rest[1..];
        assert lines[1..] == rest[1..];
      }
    }
  }

  /** The text of a line before its first `=`. */
  function NameOf(line: string): (n: string)
    ensures '=' !in n && n <= line && ('=' in line ==> n + "=" <= line)
  {
    if line == "" || line[0] == '=' then "" else [line[0]] + NameOf(line[1..])
  }

  function ValueOf(line: string): string
    requires '=' in line
  {
    line[|NameOf(line)| + 1..]
  }

  lemma LineOfParts(line: string)
    requires '=' in line
    ensures Line(NameOf(line), ValueOf(line)) == line
  {
  }

  lemma PartsOfLine(n: string, v: string)
    requires '=' !in n
    ensures '=' in Line(n, v) && NameOf(Line(n, v)) == n && ValueOf(Line(n, v)) == v
  {
    assert Line(n, v)[|n|] == '=';
    LineOfParts(Line(n, v));
    SplitAtFirst('=', n, v, NameOf(Line(n, v)), ValueOf(Line(n, v)));
  }

  function Names(lines: seq<string>): seq<string> { seq(|lines|, i requires 0 <= i < |lines| => NameOf(lines[i])) }

  ghost predicate DistinctNames(lines: seq<string>) {
    forall i, j :: 0 <= i < j < |lines| ==> NameOf(lines[i]) != NameOf(lines[j])
  }

  ghost function Parsed(lines: seq<string>): Headers
    requires (forall i :: 0 <= i < |lines| ==> '=' in lines[i]) && DistinctNames(lines)
  {
    map i | 0 <= i < |lines| :: NameOf(lines[i]) := ValueOf(lines[i])
  }

  /** The lines are those of some credential headers, sorted as the cache sorts them. */
  ghost predicate ReadsAsCredentials(lib: Library, lines: seq<string>) {
    && (forall i :: 0 <= i < |lines| ==> '=' in lines[i] && IsCredential(NameOf(lines[i])))
    && DistinctNames(lines)
    && lib.sort(Parsed(lines).Keys) == Names(lines)
  }

  lemma ParsedAt(lines: seq<string>, i: nat)
    requires (forall i :: 0 <= i < |lines| ==> '=' in lines[i]) && DistinctNames(lines) && i < |lines|
    ensures NameOf(lines[i]) in Parsed(lines) && Parsed(lines)[NameOf(lines[i])] == ValueOf(lines[i])
  {
  }

  lemma ParsedLine(lines: seq<string>, i: nat)
    requires (forall i :: 0 <= i < |lines| ==> '=' in lines[i]) && DistinctNames(lines) && i < |lines|
    ensures NameOf(lines[i]) in Parsed(lines) && Line(NameOf(lines[i]), Parsed(lines)[NameOf(lines[i])]) == lines[i]
  {
    ParsedAt(lines, i);
    LineOfParts(lines[i]);
  }

  lemma ParsedIsPlain(lib: Library, lines: seq<string>)
    requires ReadsAsCredentials(lib, lines) && forall i :: 0 <= i < |lines| ==> '\n' !in lines[i]
    ensures Plain(Parsed(lines)) && Credentials(Parsed(lines)) == Parsed(lines)
  {
    var c := Parsed(lines);
    forall n | n in c ensures '=' !in n && '\n' !in n && '\n' !in c[n] && IsCredential(n) {
      var i :| 0 <= i < |lines| && n == NameOf(lines[i]);
      ParsedAt(lines, i);
    }
  }

  lemma ParsedText(lib: Library, lines: seq<string>)
    requires Trusted(lib) && ReadsAsCredentials(lib, lines)
    ensures Text(lib, Parsed(lines)) == Join(lines)
  {
    var c := Parsed(lines);
    var names := Names(lines);
    assert Lists(lib.sort(c.Keys), c.Keys);
    LinesAt(names, c);
    forall i | 0 <= i < |lines| ensures Lines(names, c)[i] == lines[i] {
      ParsedLine(lines, i);
    }
    assert Lines(names, c) == lines;
  }

  /** The lines of plain credential headers read as those headers. */
  lemma LinesRead(lib: Library, c: Headers, names: seq<string>)
    requires Lists(names, c.Keys) && names == lib.sort(c.Keys) && Plain(c) && Credentials(c) == c
    ensures ReadsAsCredentials(lib, Lines(names, c))
  {
    var lines := Lines(names, c);
    LinesAt(names, c);
    forall i | 0 <= i < |lines| ensures '=' in lines[i] && NameOf(lines[i]) == names[i] && IsCredential(names[i]) {
      assert names[i] in c && names[i] in Credentials(c);
      PartsOfLine(names[i], c[names[i]]);
    }
    assert Names(lines) == names;
    ParsedKeys(lines, c.Keys);
  }

  lemma PlainReads(lib: Library, c: Headers)
    requires Trusted(lib) && Plain(c) && c != map[] && Credentials(c) == c
    ensures ReadsAsCredentials(lib, SplitLines(Text(lib, c)))
  {
    var names := lib.sort(c.Keys);
    assert Lists(names, c.Keys);
    LinesRead(lib, c, names);
    PlainLines(names, c);
    LinesAt(names, c);
    var n :| n in c;
    assert n in names;
    JoinRoundTrip(Lines(names, c));
  }

  lemma ParsedKeys(lines: seq<string>, keys: set<string>)
    requires (forall i :: 0 <= i < |lines| ==> '=' in lines[i]) && DistinctNames(lines)
    requires forall n :: n in Names(lines) <==> n in keys
    ensures Parsed(lines).Keys == keys
  {
    forall n | n in keys ensures n in Parsed(lines) {
      var i :| 0 <= i < |Names(lines)| && Names(lines)[i] == n;
      ParsedAt(lines, i);
    }
    forall n | n in Parsed(lines) ensures n in keys {
      var i :| 0 <= i < |lines| && NameOf(lines[i]) == n;
      assert Names(lines)[i] == n;
    }
  }

  /** A request with plain headers and another URL or other credentials, but the same key. */
  ghost predicate Twin(lib: Library, r: Req, r': Req)
    requires Trusted(lib)
  {
    Plain(r'.headers) && IdOf(r') != IdOf(r) && Key(lib, IdOf(r')) == Key(lib, IdOf(r))
  }

  lemma TwinReads(lib: Library, r: Req, r': Req)
    requires Trusted(lib) && Twin(lib, r, r')
    ensures !Plain(Credentials(r.headers))
    ensures ReadsAsCredentials(lib, SplitLines(Text(lib, Credentials(r.headers))))
  {
    var c, c' := Credentials(r.headers), Credentials(r'.headers);
    SplitAtLast(NUL, Url(r), Digest(lib, c), Url(r'), Digest(lib, c'));
    if Plain(c) { DigestDetermines(lib, c, c'); }
    assert Credentials(c') == c';
    PlainReads(lib, c');
  }

  /**
   When a request can pose as a caller with plain headers: it has the key of
   some different request of plain headers if and only if its own credentials
   are not plain and their text, cut at its line breaks, reads as credentials.
   */
  lemma SharedKeyIff(lib: Library, r: Req)
    requires Trusted(lib)
    ensures (exists r' :: Twin(lib, r, r')) <==>
              !Plain(Credentials(r.headers))
              && ReadsAsCredentials(lib, SplitLines(Text(lib, Credentials(r.headers))))
  {
    var c := Credentials(r.headers);
    var lines := SplitLines(Text(lib, c));
    if exists r' :: Twin(lib, r, r') {
      var r' :| Twin(lib, r, r');
      TwinReads(lib, r, r');
    }
    if !Plain(c) && ReadsAsCredentials(lib, lines) {
      var r' := Req(r.path, r.query, Parsed(lines));
      SplitJoin(Text(lib, c));
      ParsedIsPlain(lib, lines);
      ParsedText(lib, lines);
      ParsedAt(lines, 0);
      assert Twin(lib, r, r');
    }
  }

  // ---- Sorting a few names ------------------------------------------------

  lemma FirstTwoSame(a: seq<string>, n: string)
    requires forall i :: 0 <= i < |a| ==> a[i] == n
    ensures |a| > 1 ==> a[0] == a[1]
  {
  }

  lemma FirstTwoDiffer(a: seq<string>)
    requires forall i, j :: 0 <= i < j < |a| ==> a[i] != a[j]
    ensures |a| > 1 ==> a[0] != a[1]
  {
  }

  lemma SortOne(lib: Library, n: string)
    requires Trusted(lib)
    ensures lib.sort({n}) == [n]
  {
    var a := lib.sort({n});
    assert Lists(a, {n});
    assert n in a;
    forall i | 0 <= i < |a| ensures a[i] == n { assert a[i] in a; }
    FirstTwoSame(a, n);
    FirstTwoDiffer(a);
  }

  // ---- Requests of any kind -----------------------------------------------

  ghost predicate SameKey(lib: Library, r: Req, r': Req)
    requires Trusted(lib)
  {
    IdOf(r') != IdOf(r) && Key(lib, IdOf(r')) == Key(lib, IdOf(r))
  }

  /** Sorting goes by comparing two names at a time. */
  ghost predicate Precedes(lib: Library, n: string, m: string) { lib.sort({n, m}) == [n, m] }

  ghost predicate SortsByComparing(lib: Library) {
    forall s, i, j :: 0 <= i < j < |lib.sort(s)| ==> Precedes(lib, lib.sort(s)[i], lib.sort(s)[j])
  }

  ghost predicate FirstTwoInOrder(lib: Library, s: set<string>) {
    var a := lib.sort(s); |a| >= 2 ==> Precedes(lib, a[0], a[1])
  }

  /** Some `=` other than the one at `k` ends a credential's name. */
  ghost predicate OtherName(text: string, k: nat) {
    exists p :: 0 <= p < |text| && p != k && text[p] == '=' && IsCredential(text[..p])
  }

  /** The text reads as two credentials, with a line break at `q` between them and names that end at `p` and `t`. */
  ghost predicate TwoAt(lib: Library, text: string, p: nat, q: nat, t: nat) {
    && p < q < t < |text| && text[p] == '=' && text[q] == '\n' && text[t] == '='
    && IsCredential(text[..p]) && IsCredential(text[q + 1..t]) && text[..p] != text[q + 1..t]
    && Precedes(lib, text[..p], text[q + 1..t])
  }

  ghost predicate ReadsAsTwo(lib: Library, text: string) { exists p: nat, q: nat, t: nat :: TwoAt(lib, text, p, q, t) }

  /** A request with the same URL and other credentials of the same text has the same key. */
  lemma SameTextSameKey(lib: Library, r: Req, c: Headers)
    requires Trusted(lib) && Credentials(c) == c && c != Credentials(r.headers)
    requires c != map[] && Credentials(r.headers) != map[] && Text(lib, c) == Text(lib, Credentials(r.headers))
    ensures SameKey(lib, r, Req(r.path, r.query, c))
  {
  }

  lemma OneText(lib: Library, n: string, v: string)
    requires Trusted(lib)
    ensures Text(lib, map[n := v]) == Line(n, v)
    ensures IsCredential(n) ==> Credentials(map[n := v]) == map[n := v]
  {
    assert map[n := v].Keys == {n};
    SortOne(lib, n);
    OneLine(n, v);
  }

  lemma TwoText(lib: Library, n: string, v: string, m: string, w: string)
    requires Trusted(lib) && n != m && Precedes(lib, n, m)
    ensures Text(lib, map[n := v, m := w]) == Line(n, v + "\n" + Line(m, w))
    ensures IsCredential(n) && IsCredential(m) ==> Credentials(map[n := v, m := w]) == map[n := v, m := w]
  {
    assert map[n := v, m := w].Keys == {n, m};
    TwoLines(n, v, m, w);
  }

  /** The text of two or more credentials begins with two lines, and what follows the first is a text of its own. */
  lemma LongText(lib: Library, c: Headers) returns (a: seq<string>, rest: string)
    requires Trusted(lib) && |c| >= 2
    ensures a == lib.sort(c.Keys) && |a| >= 2 && a[0] in c && a[1] in c && a[0] != a[1]
    ensures Text(lib, c) == Line(a[0], c[a[0]] + "\n" + rest) && Line(a[1], c[a[1]]) <= rest
  {
    a := lib.sort(c.Keys);
    assert Lists(a, c.Keys);
    AtLeastTwo(a, c.Keys);
    assert a[0] in a && a[1] in a;
    LinesAt(a, c);
    rest := JoinRest(Lines(a, c), a[0], c[a[0]]);
  }

  lemma JoinRest(lines: seq<string>, n: string, v: string) returns (rest: string)
    requires |lines| >= 2 && lines[0] == Line(n, v)
    ensures Join(lines) == Line(n, v + "\n" + rest) && lines[1] <= rest
  {
    rest := Join(lines[1..]);
  }

  lemma AtLeastTwo(a: seq<string>, s: set<string>)
    requires Lists(a, s) && |s| >= 2
    ensures |a| >= 2
  {
    var x :| x in s;
    assert |s - {x}| >= 1;
    var y :| y in s - {x};
    var i :| 0 <= i < |a| && a[i] == x;
    var j :| 0 <= j < |a| && a[j] == y;
  }

  /** Two or more credentials always share their key: with the first, the other lines put behind its value. */
  lemma SeveralShare(lib: Library, r: Req)
    requires Trusted(lib) && |Credentials(r.headers)| >= 2
    ensures exists r' :: SameKey(lib, r, r')
  {
    var c := Credentials(r.headers);
    var a, rest := LongText(lib, c);
    var v := c[a[0]] + "\n" + rest;
    OneText(lib, a[0], v);
    assert a[1] in c && a[1] !in map[a[0] := v];
    SameTextSameKey(lib, r, map[a[0] := v]);
  }

  lemma OtherReadingShares(lib: Library, r: Req, n: string, v: string)
    requires Trusted(lib) && Credentials(r.headers) == map[n := v]
    ensures OtherName(Line(n, v), |n|) || ReadsAsTwo(lib, Line(n, v)) ==> exists r' :: SameKey(lib, r, r')
  {
    var text := Line(n, v);
    OneText(lib, n, v);
    if OtherName(text, |n|) {
      var p :| 0 <= p < |text| && p != |n| && text[p] == '=' && IsCredential(text[..p]);
      OneReadingShares(lib, r, n, v, p);
    }
    if ReadsAsTwo(lib, text) {
      var c := TwoReading(lib, text, n, v);
      SameTextSameKey(lib, r, c);
    }
  }

  lemma OneReadingShares(lib: Library, r: Req, n: string, v: string, p: nat)
    requires Trusted(lib) && Credentials(r.headers) == map[n := v] && p < |Line(n, v)| && p != |n|
    requires Line(n, v)[p] == '=' && IsCredential(Line(n, v)[..p])
    ensures exists r' :: SameKey(lib, r, r')
  {
    var n', v' := Line(n, v)[..p], Line(n, v)[p + 1..];
    assert Line(n, v) == Line(n', v');
    OneText(lib, n, v);
    OneText(lib, n', v');
    assert n' in map[n' := v'] && n' !in map[n := v];
    SameTextSameKey(lib, r, map[n' := v']);
  }

  lemma TwoReading(lib: Library, text: string, n: string, v: string) returns (c: Headers)
    requires Trusted(lib) && ReadsAsTwo(lib, text)
    ensures c != map[] && c != map[n := v] && Credentials(c) == c && Text(lib, c) == text
  {
    var p: nat, q: nat, t: nat :| TwoAt(lib, text, p, q, t);
    Reassemble(text, p, q, t);
    TwoText(lib, text[..p], text[p + 1..q], text[q + 1..t], text[t + 1..]);
    c := map[text[..p] := text[p + 1..q], text[q + 1..t] := text[t + 1..]];
    assert text[..p] in c && text[q + 1..t] in c;
    assert !(text[..p] in map[n := v] && text[q + 1..t] in map[n := v]);
  }

  lemma Reassemble(text: string, p: nat, q: nat, t: nat)
    requires p < q < t < |text| && text[p] == '=' && text[q] == '\n' && text[t] == '='
    ensures text == Line(text[..p], text[p + 1..q] + "\n" + Line(text[q + 1..t], text[t + 1..]))
  {
  }

  lemma SharedHasOtherReading(lib: Library, r: Req, r': Req, n: string, v: string)
    requires Trusted(lib) && SortsByComparing(lib) && SameKey(lib, r, r') && Credentials(r.headers) == map[n := v]
    ensures OtherName(Line(n, v), |n|) || ReadsAsTwo(lib, Line(n, v))
  {
    var c, c' := map[n := v], Credentials(r'.headers);
    SplitAtLast(NUL, Url(r), Digest(lib, c), Url(r'), Digest(lib, c'));
    OneText(lib, n, v);
    assert c' != map[] && Text(lib, c') == Line(n, v);
    if |c'| >= 2 {
      assert FirstTwoInOrder(lib, c'.Keys);
      TwoFromLong(lib, r', n, v);
    } else {
      OneFromShort(lib, r', n, v);
    }
  }

  lemma OneFromShort(lib: Library, r': Req, n: string, v: string)
    requires Trusted(lib) && Credentials(r'.headers) != map[n := v]
    requires |Credentials(r'.headers)| == 1 && Text(lib, Credentials(r'.headers)) == Line(n, v)
    ensures OtherName(Line(n, v), |n|)
  {
    var c' := Credentials(r'.headers);
    var n' := Only(c');
    var v' := c'[n'];
    OneText(lib, n', v');
    var text := Line(n, v);
    assert text == Line(n', v') && text[|n'|] == '=' && text[..|n'|] == n';
    SameLengthLine(n, v, n', v');
  }

  lemma SameLengthLine(n: string, v: string, n': string, v': string)
    requires Line(n, v) == Line(n', v')
    ensures |n| == |n'| ==> n == n' && v == v'
  {
    assert Line(n, v)[..|n|] == n && Line(n', v')[..|n'|] == n';
    assert Line(n, v)[|n| + 1..] == v && Line(n', v')[|n'| + 1..] == v';
  }

  lemma Only(c: Headers) returns (n: string)
    requires |c| == 1
    ensures n in c && c == map[n := c[n]]
  {
    n :| n in c;
    assert |c.Keys - {n}| == 0;
    assert c.Keys == {n};
  }

  lemma TwoFromLong(lib: Library, r': Req, n: string, v: string)
    requires Trusted(lib) && FirstTwoInOrder(lib, Credentials(r'.headers).Keys)
    requires |Credentials(r'.headers)| >= 2 && Text(lib, Credentials(r'.headers)) == Line(n, v)
    ensures ReadsAsTwo(lib, Line(n, v))
  {
    var c' := Credentials(r'.headers);
    var a, rest := LongText(lib, c');
    var text := Line(n, v);
    var p := |a[0]|;
    var q := p + 1 + |c'[a[0]]|;
    var t := q + 1 + |a[1]|;
    CutTwo(text, a[0], c'[a[0]], a[1], c'[a[1]], rest);
    NamesAreCredentials(r'.headers, a[0]);
    NamesAreCredentials(r'.headers, a[1]);
    TwoFound(lib, text, p, q, t, a[0], a[1]);
  }

  /** Where names, values and the line break are in a text of two lines or more. */
  lemma CutTwo(text: string, n: string, v: string, m: string, w: string, rest: string)
    requires text == Line(n, v + "\n" + rest) && Line(m, w) <= rest
    ensures var p := |n|; var q := p + 1 + |v|; var t := q + 1 + |m|;
      && t < |text| && text[p] == '=' && text[q] == '\n' && text[t] == '='
      && text[..p] == n && text[q + 1..t] == m
  {
    var q := |n| + 1 + |v|;
    assert text == n + "=" + v + "\n" + rest;
    assert text[q + 1..] == rest;
    assert rest[|m|] == Line(m, w)[|m|] == '=';
    assert rest[..|m|] == Line(m, w)[..|m|] == m;
    assert text[q + 1..q + 1 + |m|] == rest[..|m|];
  }

  lemma NamesAreCredentials(h: Headers, n: string)
    requires n in Credentials(h)
    ensures IsCredential(n)
  {
  }

  lemma TwoFound(lib: Library, text: string, p: nat, q: nat, t: nat, n: string, m: string)
    requires p < q < t < |text| && text[p] == '=' && text[q] == '\n' && text[t] == '='
    requires text[..p] == n && text[q + 1..t] == m && n != m
    requires IsCredential(n) && IsCredential(m) && Precedes(lib, n, m)
    ensures ReadsAsTwo(lib, text)
  {
    assert TwoAt(lib, text, p, q, t);
  }

  /**
   Which requests share their key with any other request, plain or not: all
   with two or more credentials, none without, and one with a single
   credential exactly if its line has another `=` that ends a credential's
   name, or reads as two credentials.
   */
  lemma AnySharedKeyIff(lib: Library, r: Req)
    requires Trusted(lib) && SortsByComparing(lib)
    ensures (exists r' :: SameKey(lib, r, r')) <==>
              || |Credentials(r.headers)| >= 2
              || (exists n, v :: Credentials(r.headers) == map[n := v]
                    && (OtherName(Line(n, v), |n|) || ReadsAsTwo(lib, Line(n, v))))
  {
    var c := Credentials(r.headers);
    if |c| >= 2 {
      SeveralShare(lib, r);
    } else if |c| == 1 {
      var n := Only(c);
      var v := c[n];
      OtherReadingShares(lib, r, n, v);
      if exists r' :: SameKey(lib, r, r') {
        var r' :| SameKey(lib, r, r');
        SharedHasOtherReading(lib, r, r', n, v);
      }
      SingleIsUnique(c, n, v);
    } else {
      NoneShares(lib, r);
    }
  }

  lemma SingleIsUnique(c: Headers, n: string, v: string)
    requires c == map[n := v]
    ensures forall n', v' :: c == map[n' := v'] ==> n' == n && v' == v
  {
    forall n', v' | c == map[n' := v'] ensures n' == n && v' == v {
      assert n' in map[n' := v'] && map[n' := v'][n'] == v';
    }
  }

  lemma NoneShares(lib: Library, r: Req)
    requires Trusted(lib) && |Credentials(r.headers)| == 0
    ensures forall r' :: !SameKey(lib, r, r')
    ensures forall n, v :: Credentials(r.headers) != map[n := v]
  {
    forall r' ensures !SameKey(lib, r, r') { EmptyAlone(lib, r, r'); }
    forall n: string, v: string ensures Credentials(r.headers) != map[n := v] { assert n in map[n := v]; }
  }

  lemma EmptyAlone(lib: Library, r: Req, r': Req)
    requires Trusted(lib) && Credentials(r.headers) == map[]
    ensures Key(lib, IdOf(r')) == Key(lib, IdOf(r)) ==> IdOf(r') == IdOf(r)
  {
    if Key(lib, IdOf(r')) == Key(lib, IdOf(r)) {
      SplitAtLast(NUL, Url(r'), Digest(lib, Credentials(r'.headers)), Url(r), Digest(lib, map[]));
    }
  }

  // ---- Two such callers ---------------------------------------------------

  /** A line break in the first credential's value: it has the key of two credentials. */
  lemma LineBreakCollides(lib: Library, path: string, query: string, n: string, m: string, v: string, w: string)
    requires Trusted(lib) && n != m && IsCredential(n) && IsCredential(m) && lib.sort({n, m}) == [n, m]
    ensures var r, r' := Req(path, query, map[n := v + "\n" + Line(m, w)]), Req(path, query, map[n := v, m := w]);
      Key(lib, IdOf(r)) == Key(lib, IdOf(r')) && IdOf(r) != IdOf(r')
  {
    var h, h' := map[n := v + "\n" + Line(m, w)], map[n := v, m := w];
    assert Credentials(h) == h && Credentials(h') == h' && h.Keys == {n} && h'.Keys == {n, m};
    SortOne(lib, n);
    OneLine(n, v + "\n" + Line(m, w));
    TwoLines(n, v, m, w);
    assert m in h' && m !in h;
  }

  lemma OneLine(n: string, v: string)
    ensures Join(Lines([n], map[n := v])) == Line(n, v)
  {
    LinesAt([n], map[n := v]);
  }

  lemma TwoLines(n: string, v: string, m: string, w: string)
    requires n != m
    ensures Join(Lines([n, m], map[n := v, m := w])) == Line(n, v + "\n" + Line(m, w))
  {
    var two := Lines([n, m], map[n := v, m := w]);
    LinesAt([n, m], map[n := v, m := w]);
    assert two == [Line(n, v), Line(m, w)] && two[1..] == [Line(m, w)];
  }

  /** For instance `authorization` and `cookie`: whatever the values, some request without the second has their key. */
  lemma AuthorizationAndCookie(lib: Library, path: string, query: string, v: string, w: string)
    requires Trusted(lib) && lib.sort({"authorization", "cookie"}) == ["authorization", "cookie"]
    ensures var r := Req(path, query, map["authorization" := v + "\n" + Line("cookie", w)]);
            var r' := Req(path, query, map["authorization" := v, "cookie" := w]);
      Key(lib, IdOf(r)) == Key(lib, IdOf(r')) && IdOf(r) != IdOf(r')
  {
    assert "authorization" != "cookie" by { assert "authorization"[0] != "cookie"[0]; }
    LineBreakCollides(lib, path, query, "authorization", "cookie", v, w);
  }

  lemma KeyHeader(u: string)
    ensures IsCredential("key-" + u)
  {
    var s := "key-" + u;
    assert s[1..][1..][1..][1..] == u;
    assert Segments(s[1..][1..][1..]) == [""] + Segments(u);
    assert Segments(s[1..][1..])[0] == "y";
    assert Segments(s[1..])[0] == "ey";
    assert Segments(s)[0] == "key";
  }

  /** An `=` in a name: the boundary between name and value moves. */
  lemma EqualsSignCollides(lib: Library, path: string, query: string, x: string, u: string, v: string)
    requires Trusted(lib)
    ensures var r := Req(path, query, map["key-" + (x + "=" + u) := v]);
            var r' := Req(path, query, map["key-" + x := u + "=" + v]);
      Key(lib, IdOf(r)) == Key(lib, IdOf(r')) && IdOf(r) != IdOf(r')
  {
    var n, n' := "key-" + (x + "=" + u), "key-" + x;
    KeyHeader(x + "=" + u);
    KeyHeader(x);
    var h, h' := map[n := v], map[n' := u + "=" + v];
    assert Credentials(h) == h && Credentials(h') == h' && h.Keys == {n} && h'.Keys == {n'};
    SortOne(lib, n);
    SortOne(lib, n');
    OneLine(n, v);
    OneLine(n', u + "=" + v);
    assert Line(n, v) == Line(n', u + "=" + v);
    assert |n| > |n'|;
    assert n in h && n !in h';
  }

  /** A prefix without NUL matches a key exactly when it matches its URL. */
  lemma PrefixOfKey(lib: Library, id: Id, p: string)
    requires Trusted(lib)
    ensures p <= id.url ==> p <= Key(lib, id)
    ensures NUL !in p && p <= Key(lib, id) ==> p <= id.url
  {
    var k := Key(lib, id);
    assert id.url <= k;
    assert k[|id.url|] == NUL;
    assert NUL !in p ==> forall i :: 0 <= i < |p| ==> p[i] != NUL;
  }
}
