/** Platform specifications, selection from an image index, and the architecture label. */
module Platforms {
  import opened Text
  import opened Selection
  import opened Registry

  datatype Spec = Spec(arch: string, os: string)

  function Key(p: Spec): string {
    Lower(TrimSpace(p.os)) + "/" + Lower(TrimSpace(p.arch))
  }

  predicate Matches(p: Spec, d: Descriptor) {
    && d.platform.Some?
    && TrimSpace(d.platform.value.arch) != "" && TrimSpace(d.platform.value.os) != ""
    && (TrimSpace(p.arch) != "" ==> EqualFold(TrimSpace(p.arch), TrimSpace(d.platform.value.arch)))
    && (TrimSpace(p.os) != "" ==> EqualFold(TrimSpace(p.os), TrimSpace(d.platform.value.os)))
  }

  predicate Known(s: string) { TrimSpace(s) != "" && !EqualFold(TrimSpace(s), "unknown") }

  predicate Runnable(d: Descriptor) {
    && !(d.reference.Some? && EqualFold(TrimSpace(d.reference.value), "attestation-manifest"))
    && d.platform.Some? && Known(d.platform.value.arch) && Known(d.platform.value.os)
  }

  /** An entry is runnable when it names an architecture and an operating system, neither of them
      unknown, and is not marked as an attestation. */
  lemma RunnableMeaning(d: Descriptor)
    ensures Runnable(d) <==>
            && d.platform.Some?
            && TrimSpace(d.platform.value.arch) != "" && Lower(TrimSpace(d.platform.value.arch)) != "unknown"
            && TrimSpace(d.platform.value.os) != "" && Lower(TrimSpace(d.platform.value.os)) != "unknown"
            && (d.reference.Some? ==> Lower(TrimSpace(d.reference.value)) != "attestation-manifest")
  {
    LowerWords();
  }

  lemma LowerWords()
    ensures Lower("unknown") == "unknown" && Lower("attestation-manifest") == "attestation-manifest"
  {
  }

  /** A spec needs an architecture; the operating system defaults to linux. */
  function SpecOf(os: string, arch: string): Option<Spec> {
    if arch == "" then None else Some(Spec(arch, if os == "" then "linux" else os))
  }

  function ParseSpec(value: string): Option<Spec> {
    var s := TrimSpace(value);
    var k := IndexOf(s, '/');
    if k < |s| then SpecOf(TrimSpace(s[..k]), TrimSpace(s[k + 1..])) else SpecOf("linux", s)
  }

  function FromPlatform(p: Option<Platform>): Option<Spec> {
    if p.None? || TrimSpace(p.value.arch) == "" then None
    else
      var os := TrimSpace(p.value.os);
      Some(Spec(TrimSpace(p.value.arch), if os == "" then "linux" else os))
  }

  function ToPlatform(p: Spec): Option<Platform> {
    var os := TrimSpace(p.os);
    if TrimSpace(p.arch) == "" then None
    else Some(Platform(TrimSpace(p.arch), if os == "" then "linux" else os))
  }

  lemma SliceBesideSlash(a: string, b: string) returns (i: nat, j: nat)
    ensures i <= |a| && j <= |b| && TrimSpace(a + "/" + b) == a[i..] + "/" + b[..j]
    ensures forall c :: c in a[..i] || c in b[j..] ==> IsSpace(c)
  {
    var s := a + "/" + b;
    var k;
    i, k := TrimSlice(s, IsSpace);
    assert s[|a|] == '/' && !IsSpace('/');
    j := k - |a| - 1;
    assert s[i..k] == a[i..] + "/" + b[..j];
    assert forall x :: 0 <= x < i ==> s[x] == a[x];
    assert forall x :: j <= x < |b| ==> s[|a| + 1 + x] == b[x];
  }

  lemma TrimBesideSlash(a: string, b: string) returns (i: nat, j: nat)
    ensures i <= |a| && j <= |b| && TrimSpace(a + "/" + b) == a[i..] + "/" + b[..j]
    ensures TrimSpace(a[i..]) == TrimSpace(a) && TrimSpace(b[..j]) == TrimSpace(b)
  {
    i, j := SliceBesideSlash(a, b);
    TrimTail(a, i, IsSpace);
    TrimHead(b, j, IsSpace);
  }

  /** The operating system comes before the slash and the architecture behind it; each is
      trimmed, an architecture is needed, and the operating system is linux unless given.  A
      configured platform and a node with that platform give the same spec. */
  lemma SpecMeaning(os: string, arch: string)
    requires '/' !in os
    ensures var spec := if TrimSpace(arch) == "" then None
                        else Some(Spec(TrimSpace(arch), if TrimSpace(os) == "" then "linux" else TrimSpace(os)));
            ParseSpec(os + "/" + arch) == spec && FromPlatform(Some(Platform(arch, os))) == spec
  {
    var i, j := TrimBesideSlash(os, arch);
    ParseTrimmed(os + "/" + arch, os[i..], arch[..j]);
  }

  lemma ParseTrimmed(v: string, os: string, arch: string)
    requires '/' !in os && TrimSpace(v) == os + "/" + arch
    ensures ParseSpec(v) == SpecOf(TrimSpace(os), TrimSpace(arch))
  {
    SlashFirst(os, arch);
    var s := os + "/" + arch;
    assert s[..|os|] == os && s[|os| + 1..] == arch;
  }

  /** A single word is an architecture of linux. */
  lemma BareSpecMeaning(arch: string)
    requires '/' !in arch
    ensures ParseSpec(arch) == if TrimSpace(arch) == "" then None else Some(Spec(TrimSpace(arch), "linux"))
  {
    var a, b := TrimSlice(arch, IsSpace);
  }

  /** Specs with both fields set are platforms under another name. */
  lemma SpecRoundTrip(p: Spec)
    requires TrimSpace(p.arch) == p.arch != "" && TrimSpace(p.os) == p.os != ""
    ensures ToPlatform(p) == Some(Platform(p.arch, p.os)) && FromPlatform(ToPlatform(p)) == Some(p)
  {
  }

  // ---- The lists of wanted platforms ----

  function ParseAll(values: seq<string>): seq<Spec> {
    if values == [] then []
    else match ParseSpec(values[0])
      case None => ParseAll(values[1..])
      case Some(p) => [p] + ParseAll(values[1..])
  }

  function MirrorPlatforms(values: seq<string>): seq<Spec> { Fresh(ParseAll(values), Key, {}) }

  function DesiredPlatforms(meta: Option<Platform>, mirror: seq<Spec>): seq<Spec> {
    Fresh((match FromPlatform(meta) case None => [] case Some(p) => [p]) + mirror, Key, {})
  }

  lemma ParseAllStep(values: seq<string>, i: nat)
    requires i < |values|
    ensures match ParseSpec(values[i])
            case None => ParseAll(values[i..]) == ParseAll(values[i + 1..])
            case Some(p) => ParseAll(values[i..]) == [p] + ParseAll(values[i + 1..])
  {
    assert values[i..][1..] == values[i + 1..];
  }

  method ParseMirrorPlatforms(values: seq<string>) returns (parsed: seq<Spec>)
    ensures parsed == MirrorPlatforms(values)
  {
    var seen: set<string> := {};
    parsed := [];
    assert values[0..] == values;
    for i := 0 to |values|
      invariant parsed + Fresh(ParseAll(values[i..]), Key, seen) == MirrorPlatforms(values)
    {
      ParseAllStep(values, i);
      var spec := ParseSpec(values[i]);
      if spec.Some? {
        FreshStep(parsed, ParseAll(values[i..]), Key, seen);
        assert ParseAll(values[i..])[1..] == ParseAll(values[i + 1..]);
        var key := Key(spec.value);
        if key !in seen {
          parsed, seen := parsed + [spec.value], seen + {key};
        }
      }
    }
  }

  lemma {:induction false} ParseAllPicks(values: seq<string>)
    ensures ParseAll(values) == Picked(values, ParseSpec)
  {
    if values != [] {
      ParseAllPicks(values[1..]);
      PickedFront(values, ParseSpec);
    }
  }

  /** The node's platform comes first, every configured one is there up to case and blanks, and
      no other is. */
  lemma DesiredMeaning(meta: Option<Platform>, mirror: seq<Spec>)
    ensures var d := DesiredPlatforms(meta, mirror);
            && (FromPlatform(meta).Some? ==> d != [] && d[0] == FromPlatform(meta).value)
            && (forall p :: p in mirror ==> exists q :: q in d && Key(q) == Key(p))
            && (forall q :: q in d ==> q in mirror || FromPlatform(meta) == Some(q))
  {
    FreshAfter(FromPlatform(meta), mirror, Key);
  }

  /** The configured specs are those that values parse to, every one there up to case and blanks. */
  lemma MirrorPlatformsMeaning(values: seq<string>)
    ensures forall q :: q in MirrorPlatforms(values) ==> exists v :: v in values && ParseSpec(v) == Some(q)
    ensures forall v :: v in values && ParseSpec(v).Some? ==>
              exists q :: q in MirrorPlatforms(values) && Key(q) == Key(ParseSpec(v).value)
  {
    ParseAllPicks(values);
    FreshPicked(values, ParseSpec, Key);
  }

  /** The list before the loop over the configured specs. */
  lemma DesiredHead(meta: Option<Platform>, mirror: seq<Spec>)
    ensures match FromPlatform(meta)
            case None => DesiredPlatforms(meta, mirror) == Fresh(mirror, Key, {})
            case Some(p) => DesiredPlatforms(meta, mirror) == [p] + Fresh(mirror, Key, {Key(p)})
  {
    match FromPlatform(meta)
    case None =>
      var none: seq<Spec> := [];
      assert none + mirror == mirror;
    case Some(p) =>
      FreshStep([], [p] + mirror, Key, {});
      assert ([p] + mirror)[1..] == mirror && {} + {Key(p)} == {Key(p)};
  }

  lemma DesiredStep(desired: seq<Spec>, mirror: seq<Spec>, seen: set<string>, i: nat)
    requires i < |mirror|
    ensures desired + Fresh(mirror[i..], Key, seen) ==
            if Key(mirror[i]) in seen then desired + Fresh(mirror[i + 1..], Key, seen)
            else desired + [mirror[i]] + Fresh(mirror[i + 1..], Key, seen + {Key(mirror[i])})
  {
    FreshStep(desired, mirror[i..], Key, seen);
    assert mirror[i..][1..] == mirror[i + 1..];
  }

  method CollectDesired(meta: Option<Platform>, mirror: seq<Spec>) returns (desired: seq<Spec>)
    ensures desired == DesiredPlatforms(meta, mirror)
  {
    var seen: set<string> := {};
    desired := [];
    DesiredHead(meta, mirror);
    var spec := FromPlatform(meta);
    if spec.Some? { desired, seen := [spec.value], {Key(spec.value)}; }
    assert mirror[0..] == mirror;
    for i := 0 to |mirror|
      invariant desired + Fresh(mirror[i..], Key, seen) == DesiredPlatforms(meta, mirror)
    {
      DesiredStep(desired, mirror, seen, i);
      var key := Key(mirror[i]);
      if key !in seen {
        desired, seen := desired + [mirror[i]], seen + {key};
      }
    }
  }

  /** Every field is set and no two case-folded keys agree. */
  ghost predicate Distinguishable(specs: seq<Spec>) {
    && (forall i :: 0 <= i < |specs| ==> TrimSpace(specs[i].arch) != "" && TrimSpace(specs[i].os) != "")
    && (forall i, j :: 0 <= i < j < |specs| ==> Key(specs[i]) != Key(specs[j]))
  }

  lemma TrimTwice(s: string)
    ensures TrimSpace(TrimSpace(s)) == TrimSpace(s)
  {
    var a, b := TrimSlice(s, IsSpace);
    TrimTight(TrimSpace(s), IsSpace);
  }

  lemma SpecOfFields(os: string, arch: string)
    requires TrimSpace(os) == os && TrimSpace(arch) == arch
    ensures var p := SpecOf(os, arch); p.Some? ==> TrimSpace(p.value.arch) != "" && TrimSpace(p.value.os) != ""
  {
    TrimTight("linux", IsSpace);
  }

  lemma ParseSpecFields(value: string)
    ensures var p := ParseSpec(value); p.Some? ==> TrimSpace(p.value.arch) != "" && TrimSpace(p.value.os) != ""
  {
    var s := TrimSpace(value);
    var k := IndexOf(s, '/');
    if k < |s| {
      TrimTwice(s[..k]);
      TrimTwice(s[k + 1..]);
      SpecOfFields(TrimSpace(s[..k]), TrimSpace(s[k + 1..]));
    } else {
      TrimTwice(value);
      TrimTight("linux", IsSpace);
      SpecOfFields("linux", s);
    }
  }

  lemma {:induction false} ParseAllFields(values: seq<string>)
    ensures forall p :: p in ParseAll(values) ==> TrimSpace(p.arch) != "" && TrimSpace(p.os) != ""
  {
    if values != [] {
      ParseSpecFields(values[0]);
      ParseAllFields(values[1..]);
    }
  }

  lemma FreshKeys(specs: seq<Spec>)
    ensures forall p :: p in Fresh(specs, Key, {}) ==> p in specs
    ensures forall i, j :: 0 <= i < j < |Fresh(specs, Key, {})| ==>
            Key(Fresh(specs, Key, {})[i]) != Key(Fresh(specs, Key, {})[j])
  {
    var idx := FreshMeaning(specs, Key, {});
    var r := Fresh(specs, Key, {});
    forall i, j | 0 <= i < j < |r| ensures Key(r[i]) != Key(r[j]) {
      assert idx[j] in idx && FirstOfKey(specs, Key, {}, idx[j]);
    }
  }

  /** Parsing and collecting leave only specs that can be told apart. */
  lemma DesiredDistinguishable(meta: Option<Platform>, values: seq<string>)
    ensures Distinguishable(DesiredPlatforms(meta, MirrorPlatforms(values)))
  {
    var mirror := MirrorPlatforms(values);
    var head := match FromPlatform(meta) case None => [] case Some(p) => [p];
    ParseAllFields(values);
    FreshKeys(ParseAll(values));
    FreshKeys(head + mirror);
    if meta.Some? {
      TrimTwice(meta.value.arch);
      TrimTwice(meta.value.os);
    }
    TrimTight("linux", IsSpace);
    var d := DesiredPlatforms(meta, mirror);
    forall i | 0 <= i < |d| ensures TrimSpace(d[i].arch) != "" && TrimSpace(d[i].os) != "" {
      assert d[i] in d && d[i] in head + mirror;
    }
  }

  // ---- Selection ----

  predicate Candidate(p: Spec, d: Descriptor) { Runnable(d) && Matches(p, d) }

  predicate Offered(ms: seq<Descriptor>, p: Spec) { Has(ms, p, Candidate) }

  function FirstCandidate(ms: seq<Descriptor>, p: Spec): nat { FirstFor(ms, p, Candidate) }

  /** Specs that can be told apart never select the same entry of an index. */
  lemma SelectionsDiffer(ms: seq<Descriptor>, specs: seq<Spec>, i: nat, j: nat)
    requires Distinguishable(specs) && i < |specs| && j < |specs| && i != j
    requires Offered(ms, specs[i]) && Offered(ms, specs[j])
    ensures FirstCandidate(ms, specs[i]) != FirstCandidate(ms, specs[j])
  {
    assert Key(specs[i]) != Key(specs[j]);
  }

  lemma KeptDistinguishable(ms: seq<Descriptor>, specs: seq<Spec>)
    requires Distinguishable(specs)
    ensures Distinguishable(Kept(ms, specs, Candidate, true))
  {
    KeptKeys(ms, specs, Candidate, true, Key);
    KeptHas(ms, specs, Candidate, true);
    var r := Kept(ms, specs, Candidate, true);
    forall i | 0 <= i < |r| ensures TrimSpace(r[i].arch) != "" && TrimSpace(r[i].os) != "" {
      assert r[i] in r && r[i] in specs;
    }
  }

  function PlatformKey(d: Descriptor): string
    requires d.platform.Some?
  {
    Key(Spec(d.platform.value.arch, d.platform.value.os))
  }

  /** For a fully set spec, matching means naming the same platform up to case and blanks. */
  lemma MatchIsKeyEquality(p: Spec, d: Descriptor)
    requires TrimSpace(p.arch) != "" && TrimSpace(p.os) != "" && Runnable(d)
    ensures Matches(p, d) ==> PlatformKey(d) == Key(p)
    ensures PlatformKey(d) == Key(p) && '/' !in TrimSpace(p.os) && '/' !in TrimSpace(d.platform.value.os) ==>
            Matches(p, d)
  {
    if PlatformKey(d) == Key(p) && '/' !in TrimSpace(p.os) && '/' !in TrimSpace(d.platform.value.os) {
      LowerKeepsSlash(TrimSpace(p.os));
      LowerKeepsSlash(TrimSpace(d.platform.value.os));
      SplitAtSlash(Lower(TrimSpace(p.os)), Lower(TrimSpace(p.arch)), Lower(TrimSpace(d.platform.value.os)),
          Lower(TrimSpace(d.platform.value.arch)));
    }
  }

  lemma LowerKeepsSlash(s: string)
    ensures '/' in Lower(s) <==> '/' in s
  {
    if i :| 0 <= i < |s| && s[i] == '/' { assert Lower(s)[i] == '/'; }
    if i :| 0 <= i < |s| && Lower(s)[i] == '/' { assert s[i] == '/'; }
  }

  lemma SplitAtSlash(a: string, b: string, c: string, d: string)
    requires '/' !in a && '/' !in c && a + "/" + b == c + "/" + d
    ensures a == c && b == d
  {
    var s := a + "/" + b;
    SlashFirst(a, b);
    SlashFirst(c, d);
    assert a == s[..|a|] == c;
    assert b == s[|a| + 1..] == d;
  }

  /** The chosen entries of specs that can be told apart name the platforms of the specs and
      stand at pairwise different places of the index. */
  lemma ChosenEntries(ms: seq<Descriptor>, specs: seq<Spec>)
    requires Distinguishable(specs) && forall i :: 0 <= i < |specs| ==>
             Offered(ms, specs[i]) && FirstCandidate(ms, specs[i]) < |ms|
    ensures forall i :: 0 <= i < |specs| ==>
            Runnable(ms[FirstCandidate(ms, specs[i])]) && PlatformKey(ms[FirstCandidate(ms, specs[i])]) == Key(specs[i])
    ensures forall i, j :: 0 <= i < j < |specs| ==> FirstCandidate(ms, specs[i]) != FirstCandidate(ms, specs[j])
  {
    forall i | 0 <= i < |specs|
      ensures Runnable(ms[FirstCandidate(ms, specs[i])])
              && PlatformKey(ms[FirstCandidate(ms, specs[i])]) == Key(specs[i])
    {
      MatchIsKeyEquality(specs[i], ms[FirstCandidate(ms, specs[i])]);
    }
    forall i, j | 0 <= i < j < |specs| ensures FirstCandidate(ms, specs[i]) != FirstCandidate(ms, specs[j]) {
      SelectionsDiffer(ms, specs, i, j);
    }
  }

  lemma EntriesNamePlatforms(ms: seq<Descriptor>, desired: seq<Spec>)
    requires Distinguishable(desired)
    ensures var matched, entries := Kept(ms, desired, Candidate, true), Firsts(ms, desired, Candidate);
            && |entries| == |matched|
            && (forall i :: 0 <= i < |matched| ==> Runnable(entries[i]) && PlatformKey(entries[i]) == Key(matched[i]))
            && (forall i, j :: 0 <= i < j < |matched| ==>
                  FirstCandidate(ms, matched[i]) != FirstCandidate(ms, matched[j]))
  {
    FirstsAreFirst(ms, desired, Candidate);
    KeptDistinguishable(ms, desired);
    ChosenEntries(ms, Kept(ms, desired, Candidate, true));
  }

  /** Filtering an index: matched and missing partition the desired specs in order, the entries
      are the first runnable matches of the matched specs, and for specs that can be told apart
      they name the same platforms and stand at pairwise different places of the index. */
  lemma IndexFiltering(ms: seq<Descriptor>, desired: seq<Spec>)
    ensures var matched, missing := Kept(ms, desired, Candidate, true), Kept(ms, desired, Candidate, false);
            var entries := Firsts(ms, desired, Candidate);
            && Shuffle(matched, missing, desired)
            && (forall p :: p in matched ==> Offered(ms, p)) && (forall p :: p in missing ==> !Offered(ms, p))
            && |entries| == |matched|
            && (forall i :: 0 <= i < |matched| ==>
                  Offered(ms, matched[i]) && entries[i] == ms[FirstCandidate(ms, matched[i])] && Runnable(entries[i]))
            && (Distinguishable(desired) ==> forall i :: 0 <= i < |matched| ==>
                  PlatformKey(entries[i]) == Key(matched[i]))
            && (Distinguishable(desired) ==> forall i, j :: 0 <= i < j < |matched| ==>
                  FirstCandidate(ms, matched[i]) != FirstCandidate(ms, matched[j]))
  {
    KeptShuffle(ms, desired, Candidate);
    OfferedOnes(ms, desired);
    EntriesAreFirst(ms, desired);
    if Distinguishable(desired) { EntriesNamePlatforms(ms, desired); }
  }

  lemma OfferedOnes(ms: seq<Descriptor>, desired: seq<Spec>)
    ensures forall p :: p in Kept(ms, desired, Candidate, true) ==> Offered(ms, p)
    ensures forall p :: p in Kept(ms, desired, Candidate, false) ==> !Offered(ms, p)
  {
    KeptHas(ms, desired, Candidate, true);
    KeptHas(ms, desired, Candidate, false);
  }

  lemma EntriesAreFirst(ms: seq<Descriptor>, desired: seq<Spec>)
    ensures var matched, entries := Kept(ms, desired, Candidate, true), Firsts(ms, desired, Candidate);
            && |entries| == |matched|
            && forall i :: 0 <= i < |matched| ==>
                 Offered(ms, matched[i]) && entries[i] == ms[FirstCandidate(ms, matched[i])] && Runnable(entries[i])
  {
    FirstsAreFirst(ms, desired, Candidate);
  }

  method FilterIndexByPlatforms<T>(ms: seq<Descriptor>, desired: seq<Spec>, load: Descriptor -> Option<T>)
      returns (r: Option<Filtered<Spec, Descriptor, T>>)
    ensures r == FilterList(ms, desired, Candidate, load)
  {
    r := FilterInOrder(ms, desired, Candidate, load);
  }

  /** The first runnable entry for the platform, else the first runnable entry. */
  function SelectEntry(ms: seq<Descriptor>, platform: Option<Platform>): Option<Descriptor> {
    var p := if platform.None? then None else Some(Spec(platform.value.arch, platform.value.os));
    Preferred(ms, Runnable, p, Candidate)
  }

  /** The entry at `k` is the first runnable one for the platform, or, if there is none for it or
      no platform is given, the first runnable one. */
  ghost predicate IsSelected(ms: seq<Descriptor>, platform: Option<Platform>, k: nat)
    requires k < |ms|
  {
    && Runnable(ms[k])
    && if platform.Some? && exists i :: 0 <= i < |ms| && Runnable(ms[i]) && NamesPlatform(ms[i], platform.value)
       then NamesPlatform(ms[k], platform.value)
            && forall j :: 0 <= j < k ==> !(Runnable(ms[j]) && NamesPlatform(ms[j], platform.value))
       else forall j :: 0 <= j < k ==> !Runnable(ms[j])
  }

  /** A blank field of the wanted platform is no restriction. */
  predicate NamesPlatform(d: Descriptor, p: Platform)
    requires d.platform.Some?
  {
    && (TrimSpace(p.arch) != "" ==> Lower(TrimSpace(d.platform.value.arch)) == Lower(TrimSpace(p.arch)))
    && (TrimSpace(p.os) != "" ==> Lower(TrimSpace(d.platform.value.os)) == Lower(TrimSpace(p.os)))
  }

  lemma CandidateMeaning(d: Descriptor, p: Platform)
    ensures Candidate(Spec(p.arch, p.os), d) <==> Runnable(d) && NamesPlatform(d, p)
  {
  }

  lemma ChoiceIsSelected(ms: seq<Descriptor>, platform: Option<Platform>, k: nat)
    requires k < |ms|
    requires var p := if platform.None? then None else Some(Spec(platform.value.arch, platform.value.os));
             FirstChoice(ms, Runnable, p, Candidate, k)
    ensures IsSelected(ms, platform, k)
  {
    if platform.Some? {
      forall i | 0 <= i < |ms| { CandidateMeaning(ms[i], platform.value); }
    }
  }

  lemma SelectMeaning(ms: seq<Descriptor>, platform: Option<Platform>)
    ensures var r := SelectEntry(ms, platform);
            && (r.None? <==> forall i :: 0 <= i < |ms| ==> !Runnable(ms[i]))
            && (r.Some? ==> exists k :: 0 <= k < |ms| && ms[k] == r.value && IsSelected(ms, platform, k))
  {
    var p := if platform.None? then None else Some(Spec(platform.value.arch, platform.value.os));
    PreferredMeaning(ms, Runnable, p, Candidate);
    var r := SelectEntry(ms, platform);
    if r.Some? {
      var k :| 0 <= k < |ms| && ms[k] == r.value && FirstChoice(ms, Runnable, p, Candidate, k);
      ChoiceIsSelected(ms, platform, k);
    }
  }

  /** As the program selects: collect the runnable entries, then scan them. */
  method SelectImageDescriptor(ms: seq<Descriptor>, platform: Option<Platform>) returns (r: Option<Descriptor>)
    ensures r == SelectEntry(ms, platform)
    ensures r.None? <==> forall i :: 0 <= i < |ms| ==> !Runnable(ms[i])
    ensures r.Some? ==> exists k :: 0 <= k < |ms| && ms[k] == r.value && IsSelected(ms, platform, k)
    ensures r.Some? ==>
              && r.value.platform.Some?
              && TrimSpace(r.value.platform.value.arch) != ""
              && Lower(TrimSpace(r.value.platform.value.arch)) != "unknown"
              && TrimSpace(r.value.platform.value.os) != ""
              && Lower(TrimSpace(r.value.platform.value.os)) != "unknown"
              && (r.value.reference.Some? ==> Lower(TrimSpace(r.value.reference.value)) != "attestation-manifest")
  {
    SelectMeaning(ms, platform);
    var p := if platform.Some? then Some(Spec(platform.value.arch, platform.value.os)) else None;
    r := PreferInOrder(ms, Runnable, p, Matches, Candidate);
    if r.Some? { RunnableMeaning(r.value); }
  }

  // ---- The architecture label ----

  /** The architectures an index names, unknown ones left out, in index order. */
  function Archs(ms: seq<Descriptor>): seq<string> {
    if ms == [] then []
    else
      var rest := Archs(ms[1..]);
      if ms[0].platform.Some? && Known(ms[0].platform.value.arch)
      then [TrimSpace(ms[0].platform.value.arch)] + rest
      else rest
  }

  function IndexLabel(ms: seq<Descriptor>): string {
    if Archs(ms) == [] then "multiarch" else Join(Sort(Archs(ms)), "-")
  }

  /** Exactly the trimmed architectures that entries name, except blank and unknown ones. */
  lemma {:induction false} ArchsElements(ms: seq<Descriptor>, y: string)
    ensures y in Archs(ms) <==>
            && y != "" && Lower(y) != "unknown"
            && exists m :: m in ms && m.platform.Some? && TrimSpace(m.platform.value.arch) == y
  {
    LowerWords();
    if ms != [] {
      ArchsElements(ms[1..], y);
      assert forall m :: m in ms <==> m == ms[0] || m in ms[1..];
    }
  }

  lemma SameEmptiness(a: seq<string>, b: seq<string>)
    requires forall y :: y in a <==> y in b
    ensures a == [] <==> b == []
  {
    if a != [] { assert a[0] in b; }
    if b != [] { assert b[0] in a; }
  }

  lemma EmptyElements(a: seq<string>, s: set<string>)
    requires forall y :: y in a <==> y in s
    ensures a == [] <==> s == {}
  {
    if a != [] { assert a[0] in s; }
  }

  /** The label depends only on the set of known architectures, so neither the order nor the
      repetition of index entries changes it. */
  lemma LabelOrderFree(a: seq<Descriptor>, b: seq<Descriptor>)
    requires forall y :: y in Archs(a) <==> y in Archs(b)
    ensures IndexLabel(a) == IndexLabel(b)
  {
    SortSorted(Archs(a));
    SortSorted(Archs(b));
    SortedUnique(Sort(Archs(a)), Sort(Archs(b)));
    SameEmptiness(Archs(a), Archs(b));
  }

  lemma SameEntriesSameArchs(a: seq<Descriptor>, b: seq<Descriptor>, y: string)
    requires forall m :: m in a <==> m in b
    ensures y in Archs(a) <==> y in Archs(b)
  {
    ArchsElements(a, y);
    ArchsElements(b, y);
  }

  /** The label is the sorted list of the architectures joined by dashes. */
  lemma LabelMeaning(ms: seq<Descriptor>, names: seq<string>)
    requires StrictlySorted(names)
    requires forall y :: y in names <==>
               && y != "" && Lower(y) != "unknown"
               && exists m :: m in ms && m.platform.Some? && TrimSpace(m.platform.value.arch) == y
    ensures IndexLabel(ms) == if names == [] then "multiarch" else Join(names, "-")
  {
    forall y { ArchsElements(ms, y); }
    SortSorted(Archs(ms));
    SortedUnique(Sort(Archs(ms)), names);
    SameEmptiness(Archs(ms), names);
  }

  lemma LabelNames(ms: seq<Descriptor>)
    ensures exists names ::
              && StrictlySorted(names)
              && (forall y :: y in names <==>
                    && y != "" && Lower(y) != "unknown"
                    && exists m :: m in ms && m.platform.Some? && TrimSpace(m.platform.value.arch) == y)
              && IndexLabel(ms) == if names == [] then "multiarch" else Join(names, "-")
  {
    forall y { ArchsElements(ms, y); }
    SortSorted(Archs(ms));
    LabelMeaning(ms, Sort(Archs(ms)));
  }

  method CollectArchs(ms: seq<Descriptor>) returns (seen: set<string>)
    ensures forall y :: y in seen <==> y in Archs(ms)
  {
    seen := {};
    assert ms[0..] == ms;
    for i := 0 to |ms|
      invariant forall y :: y in Archs(ms) <==> y in seen || y in Archs(ms[i..])
    {
      assert ms[i..][1..] == ms[i + 1..];
      if ms[i].platform.Some? {
        var a := TrimSpace(ms[i].platform.value.arch);
        if a != "" && !EqualFold(a, "unknown") { seen := seen + {a}; }
      }
    }
  }

  method ResolveIndexArchitecture(ms: seq<Descriptor>) returns (arch: string)
    ensures arch == IndexLabel(ms)
    ensures exists names ::
              && StrictlySorted(names)
              && (forall y :: y in names <==>
                    && y != "" && Lower(y) != "unknown"
                    && exists m :: m in ms && m.platform.Some? && TrimSpace(m.platform.value.arch) == y)
              && arch == if names == [] then "multiarch" else Join(names, "-")
  {
    LabelNames(ms);
    var seen := CollectArchs(ms);
    var vals := Elements(seen);
    SameEmptiness(vals, Archs(ms));
    EmptyElements(vals, seen);
    if seen == {} { return "multiarch"; }
    SortSorted(vals);
    SortSorted(Archs(ms));
    SortedUnique(Sort(vals), Sort(Archs(ms)));
    return Join(Sort(vals), "-");
  }
}
