/**
 Account slugs and tunnel host names. A tunnel's host is
 `<slug>--<label>.<domain>`; the hub splits it at the first `--`, so a slug
 must not contain one. Names enter `Slugify` lower-cased and NFD-normalised.
 */
module Slugs {
  import opened Options

  const SLUG_MAX_LENGTH := 32
  const SLUG_SUFFIX_LENGTH := 8
  const SUFFIX_ALPHABET := "abcdefghijklmnopqrstuvwxyz0123456789"

  predicate IsAlnum(c: char) { 'a' <= c <= 'z' || '0' <= c <= '9' }

  /** The characters that `\s` matches. */
  predicate IsSpace(c: char) {
    var n := c as int;
    || 0x09 <= n <= 0x0D || n == 0x20 || n == 0xA0 || n == 0x1680 || 0x2000 <= n <= 0x200A
    || n == 0x2028 || n == 0x2029 || n == 0x202F || n == 0x205F || n == 0x3000 || n == 0xFEFF
  }

  predicate IsSlugChar(c: char) { IsAlnum(c) || c == '-' }

  /** `replace(/[^a-z0-9\s-]/g, "")` */
  function Keep(s: string): string {
    if s == "" then ""
    else (if IsSlugChar(s[0]) || IsSpace(s[0]) then [s[0]] else "") + Keep(s[1..])
  }

  function TrimStart(s: string): string {
    if s != "" && IsSpace(s[0]) then TrimStart(s[1..]) else s
  }

  function TrimEnd(s: string): string {
    if s != "" && IsSpace(s[|s| - 1]) then TrimEnd(s[..|s| - 1]) else s
  }

  /** `replace(/[\s_]+/g, "-")`; underscores are gone by then. */
  function DashSpaces(s: string): string {
    if s == "" then ""
    else if IsSpace(s[0]) then
      (if |s| > 1 && IsSpace(s[1]) then "" else "-") + DashSpaces(s[1..])
    else [s[0]] + DashSpaces(s[1..])
  }

  /** `replace(/-+/g, "-")` */
  function Collapse(s: string): string {
    if s == "" then ""
    else if |s| > 1 && s[0] == '-' && s[1] == '-' then Collapse(s[1..])
    else [s[0]] + Collapse(s[1..])
  }

  function StripStart(s: string): string {
    if s != "" && s[0] == '-' then StripStart(s[1..]) else s
  }

  function StripEnd(s: string): (r: string)
    ensures r <= s && (r != "" ==> r[|r| - 1] != '-')
  {
    if s != "" && s[|s| - 1] == '-' then StripEnd(s[..|s| - 1]) else s
  }

  function First(s: string, n: nat): string { if |s| <= n then s else s[..n] }

  /** The pipeline before the length limit. */
  function Hyphenate(s: string): string {
    StripEnd(StripStart(Collapse(DashSpaces(TrimEnd(TrimStart(Keep(s)))))))
  }

  function Slugify(s: string): string { First(Hyphenate(s), SLUG_MAX_LENGTH) }

  predicate IsValidSlug(s: string) {
    && 1 <= |s| <= SLUG_MAX_LENGTH
    && IsAlnum(s[0]) && IsAlnum(s[|s| - 1])
    && forall i :: 0 <= i < |s| ==> IsSlugChar(s[i])
  }

  // ---- What the pipeline yields -------------------------------------------

  ghost predicate AllSlugChars(s: string) { forall i :: 0 <= i < |s| ==> IsSlugChar(s[i]) }

  ghost predicate Kept(s: string) { forall i :: 0 <= i < |s| ==> IsSlugChar(s[i]) || IsSpace(s[i]) }

  predicate DoubleAt(s: string, i: nat) { i + 1 < |s| && s[i] == '-' && s[i + 1] == '-' }

  ghost predicate NoDouble(s: string) { forall i: nat :: !DoubleAt(s, i) }

  lemma {:induction false} KeepKeeps(s: string)
    ensures Kept(Keep(s))
  {
    if s != "" { KeepKeeps(s[1..]); }
  }

  lemma {:induction false} TrimKept(s: string)
    requires Kept(s)
    ensures Kept(TrimStart(s)) && Kept(TrimEnd(s))
    decreases |s|
  {
    if s != "" {
      TrimKept(s[1..]);
      TrimKept(s[..|s| - 1]);
    }
  }

  lemma {:induction false} DashSpacesClean(s: string)
    requires Kept(s)
    ensures AllSlugChars(DashSpaces(s))
  {
    if s != "" { DashSpacesClean(s[1..]); }
  }

  lemma {:induction false} CollapseOk(s: string)
    requires AllSlugChars(s)
    ensures AllSlugChars(Collapse(s)) && NoDouble(Collapse(s))
    ensures (s == "" <==> Collapse(s) == "") && (s != "" ==> Collapse(s)[0] == s[0])
  {
    if s != "" {
      CollapseOk(s[1..]);
      var r := Collapse(s[1..]);
      if !(|s| > 1 && s[0] == '-' && s[1] == '-') {
        forall i: nat ensures !DoubleAt(Collapse(s), i) {
          if i > 0 { assert !DoubleAt(r, i - 1); }
        }
      }
    }
  }

  lemma {:induction false} StripStartOk(s: string)
    requires AllSlugChars(s) && NoDouble(s)
    ensures var r := StripStart(s); AllSlugChars(r) && NoDouble(r) && (r != "" ==> r[0] != '-')
  {
    if s != "" && s[0] == '-' {
      forall i: nat ensures !DoubleAt(s[1..], i) { assert !DoubleAt(s, i + 1); }
      StripStartOk(s[1..]);
    }
  }

  /** A prefix of a string without double hyphens has none either. */
  lemma PrefixOk(s: string, p: string)
    requires p <= s && AllSlugChars(s) && NoDouble(s)
    ensures AllSlugChars(p) && NoDouble(p)
  {
    forall i: nat ensures !DoubleAt(p, i) { assert !DoubleAt(s, i); }
  }

  /** Whatever the name, only slug characters, no double hyphen and no leading or trailing one. */
  lemma HyphenateOk(s: string)
    ensures var h := Hyphenate(s);
      && AllSlugChars(h) && NoDouble(h) && (h != "" ==> h[0] != '-' && h[|h| - 1] != '-')
  {
    KeepKeeps(s);
    TrimKept(Keep(s));
    TrimKept(TrimStart(Keep(s)));
    var t := TrimEnd(TrimStart(Keep(s)));
    DashSpacesClean(t);
    CollapseOk(DashSpaces(t));
    StripStartOk(Collapse(DashSpaces(t)));
    var u := StripStart(Collapse(DashSpaces(t)));
    PrefixOk(u, StripEnd(u));
  }

  /**
   `Slugify` yields a valid slug exactly when something is left of the name
   and the length limit does not cut right behind a hyphen.
   */
  lemma SlugifyValidIff(s: string)
    ensures IsValidSlug(Slugify(s)) <==>
              Hyphenate(s) != "" && (|Hyphenate(s)| > SLUG_MAX_LENGTH ==> Hyphenate(s)[SLUG_MAX_LENGTH - 1] != '-')
  {
    HyphenateOk(s);
    var h := Hyphenate(s);
    PrefixOk(h, Slugify(s));
  }

  // ---- A name that is a slug already is not changed ------------------------

  lemma {:induction false} CleanIsFixed(s: string)
    requires AllSlugChars(s)
    ensures Keep(s) == s && DashSpaces(s) == s && TrimStart(s) == s && TrimEnd(s) == s
  {
    if s != "" { CleanIsFixed(s[1..]); }
  }

  lemma {:induction false} CollapseIsFixed(s: string)
    requires NoDouble(s)
    ensures Collapse(s) == s
  {
    if s != "" {
      forall i: nat ensures !DoubleAt(s[1..], i) { assert !DoubleAt(s, i + 1); }
      assert !DoubleAt(s, 0);
      CollapseIsFixed(s[1..]);
    }
  }

  /** Idempotence of the pipeline. */
  lemma HyphenateIsIdempotent(s: string)
    ensures Hyphenate(Hyphenate(s)) == Hyphenate(s)
  {
    HyphenateOk(s);
    CleanEndsFixed(Hyphenate(s));
  }

  lemma CleanEndsFixed(h: string)
    requires AllSlugChars(h) && NoDouble(h) && (h != "" ==> h[0] != '-' && h[|h| - 1] != '-')
    ensures Hyphenate(h) == h
  {
    CleanIsFixed(h);
    CollapseIsFixed(h);
  }

  /** The cut in action: a slug-shaped name whose 32nd character is a hyphen yields an invalid slug. */
  lemma TrailingHyphen(s: string)
    requires AllSlugChars(s) && NoDouble(s) && |s| > SLUG_MAX_LENGTH
    requires s[0] != '-' && s[|s| - 1] != '-' && s[SLUG_MAX_LENGTH - 1] == '-'
    ensures !IsValidSlug(Slugify(s)) && Slugify(s) == s[..SLUG_MAX_LENGTH]
  {
    CleanIsFixed(s);
    CollapseIsFixed(s);
  }

  // ---- Account slugs ------------------------------------------------------

  function Prefix(name: string): string {
    var p := StripEnd(First(Slugify(name), SLUG_MAX_LENGTH - 1 - SLUG_SUFFIX_LENGTH));
    if p == "" then "workspace" else p
  }

  lemma PrefixIsSlugLike(name: string)
    ensures var p := Prefix(name);
      && 1 <= |p| <= SLUG_MAX_LENGTH - 1 - SLUG_SUFFIX_LENGTH
      && AllSlugChars(p) && NoDouble(p) && IsAlnum(p[0]) && IsAlnum(p[|p| - 1])
  {
    HyphenateOk(name);
    var h := Hyphenate(name);
    var f := First(Slugify(name), SLUG_MAX_LENGTH - 1 - SLUG_SUFFIX_LENGTH);
    assert StripEnd(f) <= h;
    PrefixOk(h, StripEnd(f));
  }

  /** Joining two parts with one hyphen. */
  lemma JoinOk(p: string, q: string)
    requires AllSlugChars(p) && NoDouble(p) && p != "" && IsAlnum(p[|p| - 1])
    requires q != "" && forall i :: 0 <= i < |q| ==> IsAlnum(q[i])
    ensures AllSlugChars(p + "-" + q) && NoDouble(p + "-" + q)
  {
    var s := p + "-" + q;
    forall i: nat ensures !DoubleAt(s, i) {
      if i + 1 < |p| { assert !DoubleAt(p, i); }
    }
  }

  /** The slug of a new account, for any name and any random draws: valid, and free of double hyphens. */
  method GenerateAccountSlug(name: string, draws: seq<nat>) returns (slug: string)
    requires |draws| == SLUG_SUFFIX_LENGTH && forall i :: 0 <= i < |draws| ==> draws[i] < |SUFFIX_ALPHABET|
    ensures IsValidSlug(slug) && NoDouble(slug)
    ensures |slug| == |Prefix(name)| + 1 + SLUG_SUFFIX_LENGTH && Prefix(name) + "-" <= slug
    ensures forall i :: 0 <= i < |draws| ==> slug[|Prefix(name)| + 1 + i] == SUFFIX_ALPHABET[draws[i]]
  {
    var prefix := Prefix(name);
    PrefixIsSlugLike(name);
    var suffix := "";
    for i := 0 to SLUG_SUFFIX_LENGTH
      invariant |suffix| == i
      invariant forall j :: 0 <= j < i ==> suffix[j] == SUFFIX_ALPHABET[draws[j]]
      invariant forall j :: 0 <= j < i ==> IsAlnum(suffix[j])
    {
      AlphabetIsAlnum(SUFFIX_ALPHABET, draws[i]);
      suffix := suffix + [SUFFIX_ALPHABET[draws[i]]];
    }
    JoinOk(prefix, suffix);
    slug := prefix + "-" + suffix;
  }

  lemma AlphabetIsAlnum(alphabet: string, i: nat)
    requires alphabet == SUFFIX_ALPHABET && i < |alphabet|
    ensures IsAlnum(alphabet[i])
  {
    var letters, digits := "abcdefghijklmnopqrstuvwxyz", "0123456789";
    assert alphabet == letters + digits;
  }

  // ---- Host names ---------------------------------------------------------

  /** `indexOf('--')`: the first position, or the length if there is none. */
  function IndexOfDouble(s: string): (n: nat)
    ensures n <= |s| && (n < |s| ==> DoubleAt(s, n)) && forall i: nat :: i < n ==> !DoubleAt(s, i)
  {
    if s == "" then 0
    else if DoubleAt(s, 0) then 0
    else
      var n := IndexOfDouble(s[1..]);
      assert forall i: nat :: i > 0 ==> (DoubleAt(s, i) <==> DoubleAt(s[1..], i - 1));
      n + 1
  }

  datatype Host = Host(slug: string, name: string)

  function ParseSubdomain(s: string): Option<Host> {
    var n := IndexOfDouble(s);
    if n == |s| || n == 0 || n + 2 == |s| then None else Some(Host(s[..n], s[n + 2..]))
  }

  function Subdomain(slug: string, name: string): string { slug + "--" + name }

  lemma SplitsAtSlug(slug: string, name: string)
    requires slug != "" && slug[|slug| - 1] != '-'
    ensures IndexOfDouble(Subdomain(slug, name)) == |slug| <==> NoDouble(slug)
    ensures IndexOfDouble(Subdomain(slug, name)) <= |slug|
  {
    var s := Subdomain(slug, name);
    assert DoubleAt(s, |slug|);
    forall i: nat | i < |slug| ensures DoubleAt(s, i) <==> DoubleAt(slug, i) {}
    var n := IndexOfDouble(s);
    if n < |slug| {
      assert DoubleAt(slug, n);
    } else {
      forall i: nat ensures !DoubleAt(slug, i) {
        if i < |slug| { assert !DoubleAt(s, i); }
      }
    }
  }

  /** A valid slug and a label are read back from the host name exactly when the slug has no double hyphen. */
  lemma HostRoundTripIff(slug: string, name: string)
    requires IsValidSlug(slug) && name != ""
    ensures ParseSubdomain(Subdomain(slug, name)) == Some(Host(slug, name)) <==> NoDouble(slug)
  {
    SplitsAtSlug(slug, name);
    var s := Subdomain(slug, name);
    assert s[..|slug|] == slug && s[|slug| + 2..] == name;
  }

  const KEY_PREFIX := "tunnel:sub:"

  function RegistryKey(slug: string, name: string): string { KEY_PREFIX + slug + "--" + name }

  /** Distinct tunnels have distinct registry keys, whatever their labels. */
  lemma KeysAreDistinct(slug: string, name: string, slug': string, name': string)
    requires IsValidSlug(slug) && NoDouble(slug) && IsValidSlug(slug') && NoDouble(slug')
    requires RegistryKey(slug, name) == RegistryKey(slug', name')
    ensures slug == slug' && name == name'
  {
    var k, k' := RegistryKey(slug, name), RegistryKey(slug', name');
    assert k[|KEY_PREFIX|..] == Subdomain(slug, name);
    assert k'[|KEY_PREFIX|..] == Subdomain(slug', name');
    SplitsAtSlug(slug, name);
    SplitsAtSlug(slug', name');
    var s := Subdomain(slug, name);
    assert s[..|slug|] == slug && s[|slug| + 2..] == name;
    assert Subdomain(slug', name')[..|slug'|] == slug' && Subdomain(slug', name')[|slug'| + 2..] == name';
  }

  lemma EqualHosts(slug: string, name: string, slug': string, name': string)
    ensures RegistryKey(slug, name) == RegistryKey(slug', name') <==> Subdomain(slug, name) == Subdomain(slug', name')
  {
    assert RegistryKey(slug, name) == KEY_PREFIX + Subdomain(slug, name);
    assert RegistryKey(slug', name') == KEY_PREFIX + Subdomain(slug', name');
    assert (KEY_PREFIX + Subdomain(slug, name))[|KEY_PREFIX|..] == Subdomain(slug, name);
    assert (KEY_PREFIX + Subdomain(slug', name'))[|KEY_PREFIX|..] == Subdomain(slug', name');
  }

  /** The longer of two slugs with a common host name begins with the shorter and a double hyphen. */
  lemma LongerBegins(slug: string, name: string, slug': string, name': string)
    requires IsValidSlug(slug) && IsValidSlug(slug') && slug != slug' && |slug| <= |slug'|
    requires Subdomain(slug, name) == Subdomain(slug', name')
    ensures slug + "--" <= slug'
  {
    var s, s' := Subdomain(slug, name), Subdomain(slug', name');
    assert s[..|slug|] == slug && s'[..|slug'|] == slug';
    assert s[|slug|] == '-' && s[|slug| + 1] == '-';
    assert s'[|slug'| - 1] == slug'[|slug'| - 1] != '-';
    assert s[..|slug| + 2] == slug + "--";
  }

  lemma BeginningCollides(slug: string, slug': string, name: string)
    requires slug + "--" <= slug'
    ensures RegistryKey(slug', name) == RegistryKey(slug, slug'[|slug| + 2..] + "--" + name)
  {
    assert slug' == slug + "--" + slug'[|slug| + 2..];
    EqualHosts(slug', name, slug, slug'[|slug| + 2..] + "--" + name);
  }

  ghost predicate ShareKey(slug: string, slug': string) {
    exists name, name' :: name != "" && name' != "" && RegistryKey(slug, name) == RegistryKey(slug', name')
  }

  /** Two valid slugs can come to share a registry key if and only if one begins with the other and a double hyphen. */
  lemma ShareKeyIff(slug: string, slug': string)
    requires IsValidSlug(slug) && IsValidSlug(slug') && slug != slug'
    ensures ShareKey(slug, slug') <==> slug + "--" <= slug' || slug' + "--" <= slug
  {
    if ShareKey(slug, slug') {
      var name, name' :| name != "" && name' != "" && RegistryKey(slug, name) == RegistryKey(slug', name');
      EqualHosts(slug, name, slug', name');
      if |slug| <= |slug'| { LongerBegins(slug, name, slug', name'); } else { LongerBegins(slug', name', slug, name); }
    }
    if slug + "--" <= slug' { BeginningCollides(slug, slug', "x"); }
    if slug' + "--" <= slug { BeginningCollides(slug', slug, "x"); }
  }

  /** The part of a valid slug before its first double hyphen is a valid slug. */
  lemma BeginningIsValid(slug: string)
    requires IsValidSlug(slug) && !NoDouble(slug)
    ensures var a := slug[..IndexOfDouble(slug)]; IsValidSlug(a) && a + "--" <= slug
  {
    var i: nat :| DoubleAt(slug, i);
    var n := IndexOfDouble(slug);
    assert n <= i;
    assert n > 0 ==> !DoubleAt(slug, n - 1);
    assert slug[..n + 2] == slug[..n] + "--";
  }

  /** So a valid slug can share a key with a shorter one if and only if it holds a double hyphen. */
  lemma DoubleHyphenCollidesIff(slug: string)
    requires IsValidSlug(slug)
    ensures !NoDouble(slug) <==> exists a :: IsValidSlug(a) && |a| < |slug| && ShareKey(a, slug)
  {
    if !NoDouble(slug) {
      BeginningIsValid(slug);
      ShareKeyIff(slug[..IndexOfDouble(slug)], slug);
    }
    if exists a :: IsValidSlug(a) && |a| < |slug| && ShareKey(a, slug) {
      var a :| IsValidSlug(a) && |a| < |slug| && ShareKey(a, slug);
      ShareKeyIff(a, slug);
      assert slug[..|a| + 2] == a + "--";
      assert DoubleAt(slug, |a|);
    }
  }
}
