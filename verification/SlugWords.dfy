/**
 What becomes of the words of a name. Spaces and hyphens separate words, other
 signs vanish without separating; the slug is the words joined by one hyphen.
 */
module SlugWords {
  import opened Slugs

  predicate Separates(c: char) { IsSpace(c) || c == '-' }

  /** What stands between the separators, empty parts included. */
  function Parts(s: string): (r: seq<string>)
    ensures r != []
  {
    if s == "" then [""]
    else
      var rest := Parts(s[1..]);
      if Separates(s[0]) then [""] + rest
      else if IsAlnum(s[0]) then [[s[0]] + rest[0]] + rest[1..]
      else rest
  }

  function NonEmpty(parts: seq<string>): seq<string> {
    if parts == [] then [] else (if parts[0] == "" then [] else [parts[0]]) + NonEmpty(parts[1..])
  }

  function Words(s: string): seq<string> { NonEmpty(Parts(s)) }

  function Hyphenated(words: seq<string>): string {
    if words == [] then "" else if |words| == 1 then words[0] else words[0] + "-" + Hyphenated(words[1..])
  }

  // ---- Every step of the pipeline keeps the words -------------------------

  /** The same words, and the same beginning of a first word. */
  ghost predicate SameWords(s: string, t: string) { Words(s) == Words(t) && Parts(s)[0] == Parts(t)[0] }

  lemma FirstOrNone(parts: seq<string>)
    requires parts != []
    ensures NonEmpty(parts) == (if parts[0] == "" then [] else [parts[0]]) + NonEmpty(parts[1..])
  {
  }

  /** A slug character or space in front. */
  lemma Prepend(c: char, s: string, t: string)
    requires (IsSlugChar(c) || IsSpace(c)) && SameWords(s, t)
    ensures SameWords([c] + s, [c] + t)
  {
    assert ([c] + s)[1..] == s && ([c] + t)[1..] == t;
    FirstOrNone(Parts(s));
    FirstOrNone(Parts(t));
    if Separates(c) {
      assert ([""] + Parts(s))[1..] == Parts(s) && ([""] + Parts(t))[1..] == Parts(t);
    } else {
      var p, q := Parts(s), Parts(t);
      var n := if p[0] == "" then 0 else 1;
      assert NonEmpty(p[1..]) == NonEmpty(p)[n..] == NonEmpty(q)[n..] == NonEmpty(q[1..]);
      assert ([[c] + p[0]] + p[1..])[1..] == p[1..] && ([[c] + q[0]] + q[1..])[1..] == q[1..];
    }
  }

  /** Separators in front do not matter for the words, whichever they are. */
  lemma Separated(c: char, s: string)
    requires Separates(c)
    ensures Words([c] + s) == Words(s) && Parts([c] + s)[0] == ""
  {
    assert ([c] + s)[1..] == s;
    assert ([""] + Parts(s))[1..] == Parts(s);
  }

  lemma {:induction false} KeepWords(s: string)
    ensures Parts(Keep(s)) == Parts(s)
  {
    if s != "" {
      KeepWords(s[1..]);
      assert ([s[0]] + Keep(s[1..]))[1..] == Keep(s[1..]) && "" + Keep(s[1..]) == Keep(s[1..]);
    }
  }

  lemma {:induction false} TrimStartWords(s: string)
    ensures Words(TrimStart(s)) == Words(s)
  {
    if s != "" && IsSpace(s[0]) {
      TrimStartWords(s[1..]);
      Separated(s[0], s[1..]);
      assert [s[0]] + s[1..] == s;
    }
  }

  lemma {:induction false} SeparatorBehind(s: string, c: char)
    requires Separates(c)
    ensures Parts(s + [c]) == Parts(s) + [""]
  {
    if s == "" {
      assert (s + [c])[1..] == "";
    } else {
      SeparatorBehind(s[1..], c);
      assert (s + [c])[1..] == s[1..] + [c];
    }
  }

  lemma {:induction false} NonEmptyBehind(parts: seq<string>)
    ensures NonEmpty(parts + [""]) == NonEmpty(parts)
  {
    if parts == [] {
      assert parts + [""] == [""] && [""][1..] == [];
    } else {
      NonEmptyBehind(parts[1..]);
      assert (parts + [""])[1..] == parts[1..] + [""];
    }
  }

  lemma DroppedBehind(s: string)
    requires s != "" && Separates(s[|s| - 1])
    ensures Words(s[..|s| - 1]) == Words(s)
  {
    var n := |s| - 1;
    assert s == s[..n] + [s[n]];
    SeparatorBehind(s[..n], s[n]);
    NonEmptyBehind(Parts(s[..n]));
  }

  lemma {:induction false} TrimEndWords(s: string)
    ensures Words(TrimEnd(s)) == Words(s)
    decreases |s|
  {
    if s != "" && IsSpace(s[|s| - 1]) {
      DroppedBehind(s);
      TrimEndWords(s[..|s| - 1]);
    }
  }

  lemma {:induction false} DashSpacesWords(s: string)
    requires Kept(s)
    ensures SameWords(DashSpaces(s), s)
  {
    if s != "" {
      var t := s[1..];
      DashSpacesWords(t);
      assert s == [s[0]] + t;
      if IsSpace(s[0]) {
        Separated(s[0], t);
        if |s| > 1 && IsSpace(s[1]) {
          Separated(t[0], t[1..]);
          assert t == [t[0]] + t[1..] && "" + DashSpaces(t) == DashSpaces(t);
        } else {
          Separated('-', DashSpaces(t));
        }
      } else {
        Prepend(s[0], DashSpaces(t), t);
      }
    }
  }

  lemma {:induction false} CollapseWords(s: string)
    requires AllSlugChars(s)
    ensures SameWords(Collapse(s), s)
  {
    if s != "" {
      var t := s[1..];
      CollapseWords(t);
      assert s == [s[0]] + t;
      if |s| > 1 && s[0] == '-' && s[1] == '-' {
        Separated('-', t);
        Separated('-', t[1..]);
        assert t == ['-'] + t[1..];
      } else {
        Prepend(s[0], Collapse(t), t);
      }
    }
  }

  lemma {:induction false} StripStartWords(s: string)
    ensures Words(StripStart(s)) == Words(s)
  {
    if s != "" && s[0] == '-' {
      StripStartWords(s[1..]);
      Separated('-', s[1..]);
      assert s == ['-'] + s[1..];
    }
  }

  lemma {:induction false} StripEndWords(s: string)
    ensures Words(StripEnd(s)) == Words(s)
    decreases |s|
  {
    if s != "" && s[|s| - 1] == '-' {
      DroppedBehind(s);
      StripEndWords(s[..|s| - 1]);
    }
  }

  lemma HyphenateWords(s: string)
    ensures Words(Hyphenate(s)) == Words(s)
  {
    var k := Keep(s);
    KeepWords(s);
    KeepKeeps(s);
    TrimStartWords(k);
    TrimEndWords(TrimStart(k));
    TrimKept(k);
    TrimKept(TrimStart(k));
    var t := TrimEnd(TrimStart(k));
    DashSpacesWords(t);
    DashSpacesClean(t);
    CollapseWords(DashSpaces(t));
    StripStartWords(Collapse(DashSpaces(t)));
    StripEndWords(StripStart(Collapse(DashSpaces(t))));
  }

  // ---- A clean slug is its words ------------------------------------------

  /** Only words with single hyphens between them. */
  ghost predicate Clean(h: string) { AllSlugChars(h) && NoDouble(h) && (h != "" ==> h[|h| - 1] != '-') }

  /** From the middle of a slug on: the rest of a word, then the other words. */
  ghost predicate RestAndWords(h: string) {
    var p := Parts(h);
    && (forall i :: 1 <= i < |p| ==> p[i] != "")
    && h == if |p| == 1 then p[0] else p[0] + "-" + Hyphenated(p[1..])
  }

  lemma HyphenInFront(t: string)
    requires t != "" && IsAlnum(t[0]) && RestAndWords(t)
    ensures RestAndWords("-" + t)
  {
    NotEmptyFirst(t);
    assert ("-" + t)[1..] == t;
    assert Parts("-" + t) == [""] + Parts(t) && ([""] + Parts(t))[1..] == Parts(t);
    assert Hyphenated(Parts(t)) == t;
    assert "" + "-" + t == "-" + t;
  }

  lemma SignInFront(c: char, t: string)
    requires IsAlnum(c) && RestAndWords(t)
    ensures RestAndWords([c] + t)
  {
    var p := Parts(t);
    assert ([c] + t)[1..] == t;
    assert Parts([c] + t) == [[c] + p[0]] + p[1..] && ([[c] + p[0]] + p[1..])[1..] == p[1..];
    assert |p| > 1 ==> [c] + (p[0] + "-" + Hyphenated(p[1..])) == [c] + p[0] + "-" + Hyphenated(p[1..]);
  }

  lemma {:induction false} CleanRest(h: string)
    requires Clean(h)
    ensures RestAndWords(h)
  {
    if h != "" {
      var t := h[1..];
      assert h == [h[0]] + t;
      forall i: nat ensures !DoubleAt(t, i) { assert !DoubleAt(h, i + 1); }
      CleanRest(t);
      if h[0] == '-' {
        assert !DoubleAt(h, 0);
        assert t != "" && IsSlugChar(t[0]);
        HyphenInFront(t);
      } else {
        SignInFront(h[0], t);
      }
    }
  }

  lemma NotEmptyFirst(t: string)
    requires t != "" && IsAlnum(t[0])
    ensures Parts(t)[0] != ""
  {
  }

  lemma {:induction false} AllNonEmpty(parts: seq<string>)
    requires forall i :: 0 <= i < |parts| ==> parts[i] != ""
    ensures NonEmpty(parts) == parts
  {
    if parts != [] { AllNonEmpty(parts[1..]); }
  }

  lemma CleanIsWords(h: string)
    requires Clean(h) && (h != "" ==> h[0] != '-')
    ensures h == Hyphenated(Words(h))
  {
    CleanRest(h);
    var p := Parts(h);
    if h != "" {
      NotEmptyFirst(h);
      AllNonEmpty(p);
    } else {
      assert NonEmpty([""]) == [] + NonEmpty([]) == [] by { assert [""][1..] == []; }
    }
  }

  /**
   The pipeline before the cut, in terms of the name: its words, that is the
   letters and digits between spaces and hyphens, each kept whole and in order,
   joined by one hyphen.
   */
  lemma HyphenateJoinsWords(s: string)
    ensures Hyphenate(s) == Hyphenated(Words(s))
  {
    HyphenateWords(s);
    HyphenateOk(s);
    CleanIsWords(Hyphenate(s));
  }

  /** And the slug is the first 32 characters of that. */
  lemma SlugifyJoinsWords(s: string)
    ensures var h := Hyphenated(Words(s)); Slugify(s) == if |h| <= 32 then h else h[..32]
  {
    HyphenateJoinsWords(s);
  }

  lemma StripOne(s: string)
    requires NoDouble(s)
    ensures StripEnd(s) == if s != "" && s[|s| - 1] == '-' then s[..|s| - 1] else s
  {
    if s != "" && s[|s| - 1] == '-' && |s| > 1 { assert !DoubleAt(s, |s| - 2); }
  }

  /**
   The readable part of an account slug: the first 23 characters of the joined
   words, less a hyphen at their end, or "workspace" if the name has no words.
   */
  lemma PrefixFromWords(name: string)
    ensures var h := Hyphenated(Words(name));
      Prefix(name) ==
        if Words(name) == [] then "workspace"
        else if |h| <= 23 then h
        else if h[22] == '-' then h[..22] else h[..23]
  {
    HyphenateJoinsWords(name);
    HyphenateOk(name);
    var h := Hyphenate(name);
    var f := First(Slugify(name), 23);
    assert f == if |h| <= 23 then h else h[..23];
    PrefixOk(h, f);
    StripOne(f);
    HyphenateWords(name);
    if h != "" {
      NotEmptyFirst(h);
      FirstOrNone(Parts(h));
    } else {
      assert NonEmpty([""]) == [] by { assert [""][1..] == []; }
    }
  }
}
