/** Which sources are never mirrored. */
module Exclusions {
  import opened Text

  const HUB := "docker.io"
  const HUB_ALIAS := "index.docker.io"

  function WithoutScheme(s: string): string {
    TrimPrefix(TrimPrefix(s, "https://"), "http://")
  }

  function NormalizeRegistryPrefix(val: string): string {
    var trimmed := TrimSpace(val);
    if trimmed == "" then ""
    else
      HubNamed(TrimSuffix(WithoutScheme(Lower(trimmed)), "/"))
  }

  function HubNamed(s: string): string {
    if s == HUB_ALIAS || HUB_ALIAS + "/" <= s then HUB + s[|HUB_ALIAS|..] else s
  }

  function NormalizeImageReference(val: string): string {
    var trimmed := TrimSpace(val);
    if trimmed == "" then "" else Qualified(WithoutAlias(WithoutScheme(Lower(trimmed))))
  }

  function WithoutAlias(s: string): string {
    if HUB_ALIAS + "/" <= s then HUB + "/" + s[|HUB_ALIAS| + 1..] else s
  }

  /** References without a registry host belong to Docker Hub. */
  function Qualified(t: string): string {
    var k := IndexOf(t, '/');
    if k == |t| then HUB + "/library/" + t
    else if '.' !in t[..k] && ':' !in t[..k] then HUB + "/" + t
    else t
  }

  predicate HasBoundaryPrefix(s: string, prefix: string) {
    prefix != "" && prefix <= s &&
    (|s| == |prefix| || s[|prefix|] == '/' || s[|prefix|] == ':' || s[|prefix|] == '@')
  }

  lemma BoundaryMeaning(s: string, x: string)
    ensures HasBoundaryPrefix(s, x) <==> x != "" && (s == x || x + "/" <= s || x + ":" <= s || x + "@" <= s)
  {
    if |x| < |s| && x <= s { assert x + [s[|x|]] <= s; }
  }

  /** The configured prefixes after normalisation, blanks dropped, in configuration order. */
  function Normalized(provided: seq<string>): seq<string> {
    if provided == [] then []
    else
      var n := NormalizeRegistryPrefix(provided[0]);
      (if n == "" then [] else [n]) + Normalized(provided[1..])
  }

  /** The list the pusher keeps. */
  function ExcludedRegistries(provided: seq<string>): seq<string> { Sort(Normalized(provided)) }

  lemma {:induction false} NormalizedElements(provided: seq<string>, y: string)
    ensures y in Normalized(provided) <==>
            y != "" && exists i :: 0 <= i < |provided| && NormalizeRegistryPrefix(provided[i]) == y
  {
    if provided != [] {
      NormalizedElements(provided[1..], y);
      if i :| 0 <= i < |provided| && NormalizeRegistryPrefix(provided[i]) == y {
        if i > 0 { assert provided[1..][i - 1] == provided[i]; }
      }
      if y in Normalized(provided[1..]) {
        var i :| 0 <= i < |provided[1..]| && NormalizeRegistryPrefix(provided[1..][i]) == y;
        assert provided[i + 1] == provided[1..][i];
      }
    }
  }

  lemma {:induction false} NormalizedAppend(a: seq<string>, v: string, y: string)
    ensures y in Normalized(a + [v]) <==> y in Normalized(a) || (y != "" && y == NormalizeRegistryPrefix(v))
  {
    var n := NormalizeRegistryPrefix(v);
    if a == [] {
      assert a + [v] == [v];
      assert Normalized([v]) == if n == "" then [] else [n];
    } else {
      assert (a + [v])[1..] == a[1..] + [v];
      NormalizedAppend(a[1..], v, y);
    }
  }

  method UniquePrefixes(provided: seq<string>) returns (unique: set<string>)
    ensures forall y :: y in unique <==> y in Normalized(provided)
  {
    unique := {};
    for i := 0 to |provided|
      invariant forall y :: y in unique <==> y in Normalized(provided[..i])
    {
      forall y { NormalizedAppend(provided[..i], provided[i], y); }
      assert provided[..i + 1] == provided[..i] + [provided[i]];
      var n := NormalizeRegistryPrefix(provided[i]);
      if n != "" { unique := unique + {n}; }
    }
    assert provided[..|provided|] == provided;
  }

  /** Collected in a set, read back in any order, then sorted. */
  method NormalizeExcludedRegistries(provided: seq<string>) returns (out: seq<string>)
    ensures out == ExcludedRegistries(provided)
  {
    var unique := UniquePrefixes(provided);
    out := Elements(unique);
    SortSorted(out);
    SortSorted(Normalized(provided));
    SortedUnique(Sort(out), Sort(Normalized(provided)));
    out := Sort(out);
  }

  function FirstBoundary(prefixes: seq<string>, s: string): Option<string> {
    if prefixes == [] then None
    else if HasBoundaryPrefix(s, prefixes[0]) then Some(prefixes[0])
    else FirstBoundary(prefixes[1..], s)
  }

  function MatchExcluded(excluded: seq<string>, src: string): Option<string> {
    var s := NormalizeImageReference(src);
    if excluded == [] || s == "" then None else FirstBoundary(excluded, s)
  }

  /** The scan reports the first non-empty prefix that is the normalised source itself or is
      continued in it by one of three separators. */
  method MatchExcludedRegistry(excluded: seq<string>, src: string) returns (r: Option<string>)
    ensures r == MatchExcluded(excluded, src)
    ensures var s := NormalizeImageReference(src);
            r.Some? ==>
              && s != "" && r.value != ""
              && (s == r.value || r.value + "/" <= s || r.value + ":" <= s || r.value + "@" <= s)
              && exists i :: 0 <= i < |excluded| && excluded[i] == r.value && forall j :: 0 <= j < i ==>
                   excluded[j] == "" ||
                   !(s == excluded[j] || excluded[j] + "/" <= s || excluded[j] + ":" <= s || excluded[j] + "@" <= s)
    ensures var s := NormalizeImageReference(src);
            r.None? && s != "" ==>
              forall x :: x in excluded && x != "" ==> !(s == x || x + "/" <= s || x + ":" <= s || x + "@" <= s)
  {
    if |excluded| == 0 { return None; }
    var normalized := NormalizeImageReference(src);
    if normalized == "" { return None; }
    for i := 0 to |excluded|
      invariant FirstBoundary(excluded[i..], normalized) == FirstBoundary(excluded, normalized)
      invariant forall j :: 0 <= j < i ==> !HasBoundaryPrefix(normalized, excluded[j])
    {
      BoundaryMeaning(normalized, excluded[i]);
      assert excluded[i..][1..] == excluded[i + 1..];
      if HasBoundaryPrefix(normalized, excluded[i]) {
        forall j | 0 <= j < i { BoundaryMeaning(normalized, excluded[j]); }
        return Some(excluded[i]);
      }
    }
    forall x | x in excluded { BoundaryMeaning(normalized, x); }
    return None;
  }

  lemma {:induction false} FirstBoundaryIsLeast(prefixes: seq<string>, s: string)
    requires StrictlySorted(prefixes)
    ensures FirstBoundary(prefixes, s).None? <==> forall y :: y in prefixes ==> !HasBoundaryPrefix(s, y)
    ensures FirstBoundary(prefixes, s).Some? ==>
              var r := FirstBoundary(prefixes, s).value;
              && r in prefixes && HasBoundaryPrefix(s, r)
              && forall y :: y in prefixes && HasBoundaryPrefix(s, y) ==> r == y || Less(r, y)
  {
    if prefixes != [] && !HasBoundaryPrefix(s, prefixes[0]) {
      FirstBoundaryIsLeast(prefixes[1..], s);
    }
  }

  /** Two prefixes of one string are comparable, so the one that sorts first is the shorter. */
  lemma SortedFirstIsShorter(s: string, a: string, b: string)
    requires a <= s && b <= s && Less(a, b)
    ensures a < b
  {
    if b <= a {
      if a == b { LessIrreflexive(a); } else {
        PrefixLess(b, a);
        LessTransitive(a, b, a);
        LessIrreflexive(a);
      }
      assert false;
    }
    assert a == s[..|a|] && b == s[..|b|];
  }

  lemma LeastBoundary(provided: seq<string>, s: string)
    ensures var r := FirstBoundary(ExcludedRegistries(provided), s);
            && (r.Some? <==>
                  exists i :: 0 <= i < |provided| && HasBoundaryPrefix(s, NormalizeRegistryPrefix(provided[i])))
            && (r.Some? ==>
                  && (exists i :: 0 <= i < |provided| && NormalizeRegistryPrefix(provided[i]) == r.value)
                  && HasBoundaryPrefix(s, r.value)
                  && forall i :: 0 <= i < |provided| && HasBoundaryPrefix(s, NormalizeRegistryPrefix(provided[i])) ==>
                       r.value <= NormalizeRegistryPrefix(provided[i]))
  {
    var kept := ExcludedRegistries(provided);
    var r := FirstBoundary(kept, s);
    SortSorted(Normalized(provided));
    FirstBoundaryIsLeast(kept, s);
    forall i | 0 <= i < |provided| && HasBoundaryPrefix(s, NormalizeRegistryPrefix(provided[i]))
      ensures r.Some? && r.value <= NormalizeRegistryPrefix(provided[i])
    {
      var y := NormalizeRegistryPrefix(provided[i]);
      NormalizedElements(provided, y);
      if r.value != y { SortedFirstIsShorter(s, r.value, y); }
    }
    if r.Some? { NormalizedElements(provided, r.value); }
  }

  /** A source is excluded exactly when some configured prefix, normalised, is the normalised
      source itself or is continued in it by a slash, a colon or an at sign; the reported prefix
      is the shortest such one. */
  lemma ExclusionMeaning(provided: seq<string>, src: string)
    ensures var s := NormalizeImageReference(src);
            var r := MatchExcluded(ExcludedRegistries(provided), src);
            && (r.Some? <==>
                  && s != ""
                  && exists i :: 0 <= i < |provided| &&
                       var x := NormalizeRegistryPrefix(provided[i]);
                       x != "" && (s == x || x + "/" <= s || x + ":" <= s || x + "@" <= s))
            && (r.Some? ==>
                  && (exists i :: 0 <= i < |provided| && NormalizeRegistryPrefix(provided[i]) == r.value)
                  && r.value != ""
                  && (s == r.value || r.value + "/" <= s || r.value + ":" <= s || r.value + "@" <= s)
                  && forall i :: 0 <= i < |provided| ==>
                       var x := NormalizeRegistryPrefix(provided[i]);
                       x != "" && (s == x || x + "/" <= s || x + ":" <= s || x + "@" <= s) ==> r.value <= x)
  {
    var s := NormalizeImageReference(src);
    var kept := ExcludedRegistries(provided);
    var r := MatchExcluded(kept, src);
    assert kept == [] ==> FirstBoundary(kept, s).None?;
    LeastBoundary(provided, s);
    forall i | 0 <= i < |provided| { BoundaryMeaning(s, NormalizeRegistryPrefix(provided[i])); }
    if r.Some? { BoundaryMeaning(s, r.value); }
  }

  /** The order and the repetition of configured prefixes do not matter. */
  lemma ConfigurationOrderIrrelevant(a: seq<string>, b: seq<string>)
    requires forall y :: y in a <==> y in b
    ensures ExcludedRegistries(a) == ExcludedRegistries(b)
  {
    SortSorted(Normalized(a));
    SortSorted(Normalized(b));
    forall y ensures y in Normalized(a) <==> y in Normalized(b) {
      NormalizedElements(a, y);
      NormalizedElements(b, y);
      if y in Normalized(a) {
        var i :| 0 <= i < |a| && NormalizeRegistryPrefix(a[i]) == y;
        assert a[i] in b;
      }
      if y in Normalized(b) {
        var i :| 0 <= i < |b| && NormalizeRegistryPrefix(b[i]) == y;
        assert b[i] in a;
      }
    }
    SortedUnique(ExcludedRegistries(a), ExcludedRegistries(b));
  }

  // ---- Docker Hub aliases ----

  lemma PrependedStaysTrimmed(p: string, n: string)
    requires n != "" && Tight(n, IsSpace) && p != "" && !IsSpace(p[0])
    ensures TrimSpace(p + n) == p + n
  {
    var s := p + n;
    assert s[0] == p[0] && s[|s| - 1] == n[|n| - 1];
    TrimTight(s, IsSpace);
  }

  lemma PrefixShares(p: string, s: string, i: nat)
    requires i < |p|
    ensures p <= s ==> p[i] in s && s[0] == p[0]
  {
    if p <= s { assert s[i] == p[i]; }
  }

  lemma NoScheme(s: string)
    requires |s| > 6 ==> s[0] != 'h' || '/' !in s
    ensures WithoutScheme(s) == s
  {
    PrefixShares("https://", s, 6);
    PrefixShares("http://", s, 5);
  }

  lemma QualifiedBare(m: string)
    requires '/' !in m
    ensures Qualified(m) == HUB + "/library/" + m
  {
  }

  lemma QualifiedPath(h: string, rest: string)
    requires '/' !in h && '.' !in h && ':' !in h
    ensures Qualified(h + "/" + rest) == HUB + "/" + (h + "/" + rest)
  {
    SlashFirst(h, rest);
    assert (h + "/" + rest)[..|h|] == h;
  }

  lemma QualifiedHost(h: string, rest: string)
    requires '/' !in h && ('.' in h || ':' in h)
    ensures Qualified(h + "/" + rest) == h + "/" + rest
  {
    SlashFirst(h, rest);
    assert (h + "/" + rest)[..|h|] == h;
  }

  lemma NoAlias(s: string)
    requires s == "" || s[0] != 'i' || '/' !in s
    ensures WithoutAlias(s) == s
  {
    PrefixShares(HUB_ALIAS + "/", s, 15);
  }

  lemma AliasReplaced(m: string)
    ensures WithoutAlias("index.docker.io/library/" + m) == "docker.io/library/" + m
  {
    var s := "index.docker.io/library/" + m;
    assert HUB_ALIAS + "/" <= s;
    assert s[16..] == "library/" + m;
  }

  /** A single name belongs to the library of Docker Hub. */
  lemma BareReference(n: string)
    requires n != "" && Tight(n, IsSpace) && '/' !in n
    ensures NormalizeImageReference(n) == HUB + "/library/" + Lower(n)
  {
    TrimTight(n, IsSpace);
    var m := Lower(n);
    assert '/' !in m;
    NoScheme(m);
    NoAlias(m);
    QualifiedBare(m);
  }

  /** A prefixed name keeps its prefix through trimming, case folding and scheme removal. */
  lemma PrefixedReference(p: string, n: string)
    requires n != "" && Tight(n, IsSpace) && p != "" && !IsSpace(p[0]) && Lower(p) == p && p[0] != 'h'
    ensures NormalizeImageReference(p + n) == Qualified(WithoutAlias(p + Lower(n)))
  {
    PrependedStaysTrimmed(p, n);
    LowerConcat(p, n);
    assert (p + Lower(n))[0] == p[0];
    NoScheme(p + Lower(n));
  }

  lemma LibraryReference(n: string)
    requires n != "" && Tight(n, IsSpace)
    ensures NormalizeImageReference("library/" + n) == HUB + "/library/" + Lower(n)
  {
    var m := Lower(n);
    PrefixedReference("library/", n);
    assert ("library/" + m)[0] == 'l';
    NoAlias("library/" + m);
    QualifiedLibrary(m);
  }

  lemma QualifiedLibrary(m: string)
    ensures Qualified("library/" + m) == HUB + "/library/" + m
  {
    assert "library/" + m == "library" + "/" + m;
    QualifiedPath("library", m);
    assert HUB + "/" + ("library/" + m) == HUB + "/library/" + m;
  }

  lemma HubReference(n: string)
    requires n != "" && Tight(n, IsSpace)
    ensures NormalizeImageReference("docker.io/library/" + n) == HUB + "/library/" + Lower(n)
  {
    var m := Lower(n);
    PrefixedReference("docker.io/library/", n);
    assert ("docker.io/library/" + m)[0] == 'd';
    NoAlias("docker.io/library/" + m);
    QualifiedHubLibrary(m);
  }

  lemma QualifiedHubLibrary(m: string)
    ensures Qualified("docker.io/library/" + m) == HUB + "/library/" + m
  {
    assert "docker.io"[6] == '.';
    assert "docker.io/library/" + m == "docker.io" + "/" + ("library/" + m);
    QualifiedHost("docker.io", "library/" + m);
  }

  lemma HubAliasReference(n: string)
    requires n != "" && Tight(n, IsSpace)
    ensures NormalizeImageReference("index.docker.io/library/" + n) == HUB + "/library/" + Lower(n)
  {
    PrefixedReference("index.docker.io/library/", n);
    AliasReplaced(Lower(n));
    QualifiedHubLibrary(Lower(n));
  }

  /** The four spellings of a Docker Hub library image are excluded together, whatever is
      configured, and with the same reported prefix. */
  lemma HubAliasesAgree(excluded: seq<string>, n: string)
    requires n != "" && TrimSpace(n) == n && '/' !in n
    ensures var r := MatchExcluded(excluded, n);
            && MatchExcluded(excluded, "library/" + n) == r
            && MatchExcluded(excluded, "docker.io/library/" + n) == r
            && MatchExcluded(excluded, "index.docker.io/library/" + n) == r
  {
    var a, b := TrimSlice(n, IsSpace);
    assert Tight(n, IsSpace);
    BareReference(n);
    LibraryReference(n);
    HubReference(n);
    HubAliasReference(n);
  }

  lemma HubUserForm(u: string, r: string)
    requires '/' !in u && '.' !in u && ':' !in u
    ensures Qualified(WithoutAlias(WithoutScheme(u + "/" + r))) == HUB + "/" + (u + "/" + r)
  {
    PlainNoScheme(u, r);
    HostWithoutAlias(u, r);
    assert HUB_ALIAS[5] == '.';
    QualifiedPath(u, r);
  }

  lemma PlainNoScheme(u: string, r: string)
    requires '/' !in u && ':' !in u
    ensures WithoutScheme(u + "/" + r) == u + "/" + r
  {
    var s := u + "/" + r;
    assert "https:" + "/" + "/" == "https://" && "http:" + "/" + "/" == "http://";
    assert "https:"[5] == ':' && "http:"[4] == ':';
    if "https://" <= s { FirstSlashDecides("https:", "/", u, r); }
    if "http://" <= s { FirstSlashDecides("http:", "/", u, r); }
  }

  /** A path whose first component is no host belongs to Docker Hub. */
  lemma HubUserReference(u: string, r: string)
    requires '/' !in u && '.' !in u && ':' !in u && u != "" && Tight(u, IsSpace)
    requires r == "" || !IsSpace(r[|r| - 1])
    ensures NormalizeImageReference(u + "/" + r) == "docker.io/" + (Lower(u) + "/" + Lower(r))
  {
    SlashJoinLowered(u, r);
    LowerPlain(u);
    HubUserForm(Lower(u), Lower(r));
    assert HUB + "/" == "docker.io/";
  }

  lemma LowerPlain(u: string)
    requires '/' !in u && '.' !in u && ':' !in u
    ensures '/' !in Lower(u) && '.' !in Lower(u) && ':' !in Lower(u)
  {
  }

  // ---- What a configured host covers ----

  /** The name of a registry host has a dot or a port, no slash, and is no scheme. */
  predicate HostName(h: string) {
    '/' !in h && ('.' in h || ':' in h) && h != "http:" && h != "https:"
  }

  /** A registry host in any case, without blanks around it. */
  predicate IsHost(h: string) { HostName(Lower(h)) && Tight(h, IsSpace) }

  function Canonical(h: string): string { if h == HUB_ALIAS then HUB else h }

  lemma TrimSuffixSlash(s: string)
    ensures TrimSuffix(s + "/", "/") == s
    ensures (s == "" || s[|s| - 1] != '/') ==> TrimSuffix(s, "/") == s
  {
    var t := s + "/";
    assert t[|t| - 1..] == "/";
    assert s != "" ==> s[|s| - 1..] == [s[|s| - 1]];
  }

  lemma SchemeDropped(p: string)
    requires !("https://" <= p) && !("http://" <= p)
    ensures WithoutScheme(p) == p && WithoutScheme("https://" + p) == p && WithoutScheme("http://" + p) == p
  {
    assert ("https://" + p)[8..] == p && ("http://" + p)[7..] == p;
    assert ("http://" + p)[4] == ':' && "https://"[4] == 's';
  }

  lemma NoSchemeBeforeSlash(p: string)
    requires !("https://" <= p + "/") && !("http://" <= p + "/")
    ensures WithoutScheme(p) == p && WithoutScheme("https://" + p) == p && WithoutScheme("http://" + p) == p
    ensures var q := p + "/";
            WithoutScheme(q) == q && WithoutScheme("https://" + q) == q && WithoutScheme("http://" + q) == q
  {
    assert p <= p + "/";
    SchemeDropped(p);
    SchemeDropped(p + "/");
  }

  lemma SpelledPrefix(l: string, p: string)
    requires p != "" && p[|p| - 1] != '/' && !("https://" <= p + "/") && !("http://" <= p + "/")
    requires || l == p || l == "https://" + p || l == "http://" + p
             || l == p + "/" || l == "https://" + (p + "/") || l == "http://" + (p + "/")
    ensures TrimSuffix(WithoutScheme(l), "/") == p
  {
    NoSchemeBeforeSlash(p);
    TrimSuffixSlash(p);
  }

  lemma HubPrefix(p: string)
    ensures HubNamed(p) ==
            if p == "index.docker.io" then "docker.io"
            else if "index.docker.io/" <= p then "docker.io/" + p[16..]
            else p
  {
    assert HUB_ALIAS + "/" == "index.docker.io/";
    if HUB_ALIAS + "/" <= p { assert p[15..] == "/" + p[16..]; }
  }

  /** A prefix may be written in any case, with blanks around it, with a scheme, and with one
      slash at its end; the other name of Docker Hub stands for the first. */
  lemma PrefixSpellings(v: string, p: string)
    requires p != "" && p[|p| - 1] != '/' && !("https://" <= p + "/") && !("http://" <= p + "/")
    requires var l := Lower(TrimSpace(v));
             || l == p || l == "https://" + p || l == "http://" + p
             || l == p + "/" || l == "https://" + (p + "/") || l == "http://" + (p + "/")
    ensures NormalizeRegistryPrefix(v) ==
            if p == "index.docker.io" then "docker.io"
            else if "index.docker.io/" <= p then "docker.io/" + p[16..]
            else p
  {
    SpelledPrefix(Lower(TrimSpace(v)), p);
    assert TrimSpace(v) != "";
    HubPrefix(p);
  }

  lemma FirstSlashDecides(a: string, b: string, c: string, d: string)
    requires '/' !in a && '/' !in c && a + "/" + b <= c + "/" + d
    ensures a == c
  {
    SlashFirst(a, b);
    SlashFirst(c, d);
    assert (a + "/" + b)[|a|] == (c + "/" + d)[|a|];
    assert |c| <= |a|;
    assert (c + "/" + d)[|c|] == '/';
    assert a == (c + "/" + d)[..|a|] == c;
  }

  lemma HostNoScheme(h: string, rest: string)
    requires HostName(h)
    ensures WithoutScheme(h + "/" + rest) == h + "/" + rest
  {
    var s := h + "/" + rest;
    if "https://" <= s {
      assert "https:" + "/" + "/" == "https://";
      FirstSlashDecides("https:", "/", h, rest);
    }
    if "http://" <= s {
      assert "http:" + "/" + "/" == "http://";
      FirstSlashDecides("http:", "/", h, rest);
    }
  }

  lemma HostWithoutAlias(h: string, rest: string)
    requires '/' !in h
    ensures WithoutAlias(h + "/" + rest) == Canonical(h) + "/" + rest
  {
    var s := h + "/" + rest;
    assert HUB_ALIAS + "/" + "" == HUB_ALIAS + "/";
    if HUB_ALIAS + "/" <= s { FirstSlashDecides(HUB_ALIAS, "", h, rest); }
    if h == HUB_ALIAS { assert s[|HUB_ALIAS| + 1..] == rest; }
  }

  lemma SlashJoinLowered(h: string, rest: string)
    requires h != "" && Tight(h, IsSpace) && (rest == "" || !IsSpace(rest[|rest| - 1]))
    ensures TrimSpace(h + "/" + rest) == h + "/" + rest && Lower(h + "/" + rest) == Lower(h) + "/" + Lower(rest)
  {
    var s := h + "/" + rest;
    assert s[0] == h[0] && s[|s| - 1] == if rest == "" then '/' else rest[|rest| - 1];
    TrimTight(s, IsSpace);
    LowerConcat(h, "/" + rest);
    LowerConcat("/", rest);
  }

  lemma HostReference(h: string, rest: string)
    requires IsHost(h) && (rest == "" || !IsSpace(rest[|rest| - 1]))
    ensures NormalizeImageReference(h + "/" + rest) == Canonical(Lower(h)) + "/" + Lower(rest)
  {
    SlashJoinLowered(h, rest);
    HostForm(Lower(h), Lower(rest));
  }

  lemma HostForm(l: string, r: string)
    requires HostName(l)
    ensures Qualified(WithoutAlias(WithoutScheme(l + "/" + r))) == Canonical(l) + "/" + r
  {
    HostNoScheme(l, r);
    HostWithoutAlias(l, r);
    assert HUB[6] == '.';
    QualifiedHost(Canonical(l), r);
  }

  lemma HostPrefix(h: string)
    requires IsHost(h)
    ensures NormalizeRegistryPrefix(h) == Canonical(Lower(h)) && Lower(h) != ""
  {
    var l := Lower(h);
    TrimTight(h, IsSpace);
    HostNoScheme(l, "");
    assert l + "/" + "" == l + "/";
    PrefixSpellings(h, l);
    PrefixShares(HUB_ALIAS + "/", l, 15);
  }

  /** A configured host excludes everything under it, however the two are capitalised and under
      either name of Docker Hub. */
  lemma HostExcludes(provided: seq<string>, g: string, h: string, rest: string)
    requires IsHost(g) && IsHost(h) && Canonical(Lower(g)) == Canonical(Lower(h)) && g in provided
    requires rest == "" || !IsSpace(rest[|rest| - 1])
    ensures MatchExcluded(ExcludedRegistries(provided), h + "/" + rest).Some?
  {
    var x := Canonical(Lower(h));
    HostPrefix(g);
    HostReference(h, rest);
    ExclusionMeaning(provided, h + "/" + rest);
    assert x + "/" <= x + "/" + Lower(rest);
    var i :| 0 <= i < |provided| && provided[i] == g;
    assert NormalizeRegistryPrefix(provided[i]) == x;
  }

  lemma NoBoundaryInside(l: string, m: string, r: string)
    requires l != "" && m != "" && m[0] != '/' && m[0] != ':' && m[0] != '@'
    ensures !HasBoundaryPrefix(Canonical(l + m) + "/" + r, Canonical(l))
  {
    var p, s := Canonical(l), Canonical(l + m) + "/" + r;
    assert l + m == HUB_ALIAS ==> l[0] == (l + m)[0] == 'i';
    assert s[0] == if l + m == HUB_ALIAS then 'd' else l[0];
    assert l + m != HUB_ALIAS ==> s[|l|] == m[0];
  }

  lemma OtherPrefix(h: string, src: string)
    requires !HasBoundaryPrefix(NormalizeImageReference(src), NormalizeRegistryPrefix(h))
    ensures MatchExcluded(ExcludedRegistries([h]), src).None?
  {
    ExclusionMeaning([h], src);
    BoundaryMeaning(NormalizeImageReference(src), NormalizeRegistryPrefix(h));
  }

  lemma LongerHost(h: string, host: string, x: string, rest: string)
    requires IsHost(h) && IsHost(host) && host == h + x && x != "" && x[0] != '/' && x[0] != ':' && x[0] != '@'
    requires rest == "" || !IsSpace(rest[|rest| - 1])
    ensures MatchExcluded(ExcludedRegistries([h]), host + "/" + rest).None?
  {
    LowerConcat(h, x);
    NoBoundaryInside(Lower(h), Lower(x), Lower(rest));
    HostPrefix(h);
    HostReference(host, rest);
    OtherPrefix(h, host + "/" + rest);
  }

  /** A host whose name merely starts with the configured one is not excluded by it. */
  lemma LongerHostKept(h: string, x: string, rest: string)
    requires IsHost(h) && IsHost(h + x) && x != "" && x[0] != ':' && x[0] != '@'
    requires rest == "" || !IsSpace(rest[|rest| - 1])
    ensures MatchExcluded(ExcludedRegistries([h]), h + x + "/" + rest).None?
  {
    assert Lower(h + x)[|h|] == LowerChar(x[0]);
    LongerHost(h, h + x, x, rest);
  }
}
