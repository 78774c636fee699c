/** How far the order of the entries of a source index decides where a call goes. */
module OrderFree {
  import opened Text
  import opened Refs
  import opened Registry
  import opened Selection
  import opened Platforms
  import opened RepoNames
  import opened Mirroring
  import opened MirrorFacts
  import opened Degraded

  /** The same entries, in any order and any number. */
  ghost predicate Rearranged(a: seq<Descriptor>, b: seq<Descriptor>) { forall m :: m in a <==> m in b }

  /** Where a call goes when its source answers with the index `ms`, if it gets that far. */
  function Destination(
      cfg: Config, env: Env, content: Content, ms: seq<Descriptor>, pullRepo: string, target: Store,
      s: Source, meta: Metadata, t: Ref): Option<Ref> {
    var got := Pull(cfg, env, content, Found(Index(ms)), pullRepo, target, t.repo, meta);
    var m := Process(cfg.lib, false, false, got, s, t, RepoFor(cfg, s, meta), FinalRepoOf(cfg, env, s, meta));
    if m.Carry? then Some(m.final) else None
  }

  /** The target of a payload, by its architecture. */
  function TargetOf(cfg: Config, env: Env, s: Source, meta: Metadata, root: Object): Option<Ref> {
    BuildTarget(cfg.lib, s, FinalRepo(cfg, env, s, meta, Payload(root, [])))
  }

  lemma ProcessTarget(lib: Library, got: Pulled, s: Source, t: Ref, repo: string, final: Payload -> string)
    requires BuildTarget(lib, s, repo) == Some(t)
    ensures var m := Process(lib, false, false, got, s, t, repo, final);
            (if m.Carry? then Some(m.final) else None) ==
            if got.Got? then BuildTarget(lib, s, final(got.payload)) else None
  {
  }

  lemma RootDecides(cfg: Config, env: Env, s: Source, meta: Metadata, p: Payload)
    ensures FinalRepo(cfg, env, s, meta, p) == FinalRepo(cfg, env, s, meta, Payload(p.root, []))
  {
    assert ArchOf(env, p) == ArchOf(env, Payload(p.root, []));
  }

  lemma CarriedTarget(cfg: Config, env: Env, got: Pulled, s: Source, meta: Metadata, t: Ref)
    requires BuildTarget(cfg.lib, s, RepoFor(cfg, s, meta)) == Some(t)
    ensures var m := Process(cfg.lib, false, false, got, s, t, RepoFor(cfg, s, meta), FinalRepoOf(cfg, env, s, meta));
            (if m.Carry? then Some(m.final) else None) ==
            if got.Got? then TargetOf(cfg, env, s, meta, got.payload.root) else None
  {
    ProcessTarget(cfg.lib, got, s, t, RepoFor(cfg, s, meta), FinalRepoOf(cfg, env, s, meta));
    if got.Got? { RootDecides(cfg, env, s, meta, got.payload); }
  }

  /** A call that carries something on, from a source that answers with an index, goes there. */
  lemma MiddleDestination(
      cfg: Config, env: Env, source: Store, target: Store, s: Source, meta: Metadata, t: Ref, ms: seq<Descriptor>)
    requires Get(source, PullRef(cfg, s, meta)) == Found(Index(ms))
    ensures var m := MiddleOf(cfg, env, source, target, s, meta, t);
            m.Carry? ==>
              Destination(cfg, env, source.content, ms, PullRef(cfg, s, meta).repo, target, s, meta, t) == Some(m.final)
  {
  }

  // ---- Pulls of a whole index ----

  predicate PullsSubset(cfg: Config, meta: Metadata) { cfg.pullByDigest && |Desired(cfg, meta)| > 1 }

  predicate PullsWhole(cfg: Config, meta: Metadata) {
    !PullsSubset(cfg, meta) && (!cfg.pullByDigest || Primary(cfg, meta).None?)
  }

  predicate PullsOne(cfg: Config, meta: Metadata) { !PullsSubset(cfg, meta) && !PullsWhole(cfg, meta) }

  /** The final target depends on an index only through the set of architectures it names. */
  lemma TargetFollowsArchs(cfg: Config, env: Env, s: Source, meta: Metadata, a: seq<Descriptor>, b: seq<Descriptor>)
    requires forall y :: y in Archs(a) <==> y in Archs(b)
    ensures TargetOf(cfg, env, s, meta, Index(a)) == TargetOf(cfg, env, s, meta, Index(b))
  {
    LabelOrderFree(a, b);
    assert ArchOf(env, Payload(Index(a), [])) == ArchOf(env, Payload(Index(b), []));
  }

  lemma TargetOfRearranged(cfg: Config, env: Env, s: Source, meta: Metadata, a: seq<Descriptor>, b: seq<Descriptor>)
    requires Rearranged(a, b)
    ensures TargetOf(cfg, env, s, meta, Index(a)) == TargetOf(cfg, env, s, meta, Index(b))
  {
    forall y ensures y in Archs(a) <==> y in Archs(b) { SameEntriesSameArchs(a, b, y); }
    TargetFollowsArchs(cfg, env, s, meta, a, b);
  }

  lemma WholeGot(
      cfg: Config, env: Env, content: Content, ms: seq<Descriptor>, pullRepo: string, target: Store, targetRepo: string,
      meta: Metadata)
    requires PullsWhole(cfg, meta)
    ensures Pull(cfg, env, content, Found(Index(ms)), pullRepo, target, targetRepo, meta) ==
            if env.getFails then PullFailed(Describe)
            else if cfg.dryPull then DryPulled
            else if env.indexFails then PullFailed(LoadIndex)
            else Got(WholeIndex(content, pullRepo, ms))
  {
  }

  /** A call that mirrors a whole index goes to the same place for every order and every
      repetition of the entries. */
  lemma OrderFreeTarget(
      cfg: Config, env: Env, content: Content, a: seq<Descriptor>, b: seq<Descriptor>, pullRepo: string, target: Store,
      s: Source, meta: Metadata, t: Ref)
    requires PullsWhole(cfg, meta) && Rearranged(a, b)
    requires BuildTarget(cfg.lib, s, RepoFor(cfg, s, meta)) == Some(t)
    ensures Destination(cfg, env, content, a, pullRepo, target, s, meta, t) ==
            Destination(cfg, env, content, b, pullRepo, target, s, meta, t)
  {
    WholeGot(cfg, env, content, a, pullRepo, target, t.repo, meta);
    WholeGot(cfg, env, content, b, pullRepo, target, t.repo, meta);
    CarriedTarget(cfg, env, Pull(cfg, env, content, Found(Index(a)), pullRepo, target, t.repo, meta), s, meta, t);
    CarriedTarget(cfg, env, Pull(cfg, env, content, Found(Index(b)), pullRepo, target, t.repo, meta), s, meta, t);
    TargetOfRearranged(cfg, env, s, meta, a, b);
  }

  // ---- Pulls that select one entry ----

  ghost predicate Offers(ms: seq<Descriptor>, p: Spec) { exists d :: d in ms && Candidate(p, d) }

  lemma OfferedMeans(ms: seq<Descriptor>, p: Spec)
    ensures Has(ms, p, Candidate) <==> Offers(ms, p)
  {
    if Has(ms, p, Candidate) { assert ms[FirstFor(ms, p, Candidate)] in ms; }
    if d :| d in ms && Candidate(p, d) {
      var i :| 0 <= i < |ms| && ms[i] == d;
    }
  }

  /** The entries that some order of the index makes the program select: the candidates for the
      platform, or all runnable ones if there is none. */
  ghost predicate Selectable(ms: seq<Descriptor>, platform: Platform, d: Descriptor) {
    var p := Spec(platform.arch, platform.os);
    d in ms && Runnable(d) && (Offers(ms, p) ==> Candidate(p, d))
  }

  lemma FrontSelected(ms: seq<Descriptor>, platform: Platform, d: Descriptor)
    requires Selectable(ms, platform, d)
    ensures Rearranged(ms, [d] + ms) && SelectEntry([d] + ms, Some(platform)) == Some(d)
  {
    var p := Spec(platform.arch, platform.os);
    var ms' := [d] + ms;
    assert forall m :: m in ms' <==> m == d || m in ms;
    assert ms'[0] == d;
    OfferedMeans(ms', p);
  }

  /** An entry is selectable exactly when some order of the index makes the program select it. */
  lemma SelectionReaches(ms: seq<Descriptor>, platform: Platform, d: Descriptor)
    ensures Selectable(ms, platform, d) <==>
            exists ms' :: Rearranged(ms, ms') && SelectEntry(ms', Some(platform)) == Some(d)
  {
    if Selectable(ms, platform, d) { FrontSelected(ms, platform, d); }
    forall ms' | Rearranged(ms, ms') && SelectEntry(ms', Some(platform)) == Some(d)
      ensures Selectable(ms, platform, d)
    {
      SelectedIsSelectable(ms, ms', platform, d);
    }
  }

  lemma SelectedIsSelectable(ms: seq<Descriptor>, ms': seq<Descriptor>, platform: Platform, d: Descriptor)
    requires Rearranged(ms, ms') && SelectEntry(ms', Some(platform)) == Some(d)
    ensures Selectable(ms, platform, d)
  {
    SelectEntryMember(ms', Some(platform));
    OfferedMeans(ms', Spec(platform.arch, platform.os));
  }

  lemma SelectsSome(ms: seq<Descriptor>, platform: Platform)
    ensures SelectEntry(ms, Some(platform)).None? <==> forall d :: d in ms ==> !Runnable(d)
  {
    OfferedMeans(ms, Spec(platform.arch, platform.os));
    var u := FirstIndex(ms, Runnable);
    if u < |ms| {
      assert ms[u] in ms;
    } else {
      forall d | d in ms ensures !Runnable(d) {
        var i :| 0 <= i < |ms| && ms[i] == d;
      }
    }
  }

  /** The target that the child under entry `d` leads to. */
  function ChildTarget(
      cfg: Config, env: Env, content: Content, pullRepo: string, s: Source, meta: Metadata,
      d: Descriptor): Option<Ref> {
    var x := ReadEntry(content, pullRepo, d.digest);
    if x.Some? && x.value.Image? && !env.entryLoadFails(d.digest) then TargetOf(cfg, env, s, meta, x.value) else None
  }

  /** The library cannot resolve an image from the index, so the program selects an entry itself. */
  predicate FallsBack(cfg: Config, env: Env, content: Content, ms: seq<Descriptor>, pullRepo: string, meta: Metadata) {
    && PullsOne(cfg, meta) && !env.getFails && !env.indexFails && !env.manifestFails && !cfg.dryPull
    && ResolvedImage(cfg.lib, env, content, pullRepo, ms, Requested(cfg, meta)).None?
  }

  /** It does so for every order of the entries: because resolving fails, because no entry is for
      the requested platform, or because that child is not there. */
  ghost predicate SelectsItself(
      cfg: Config, env: Env, content: Content, ms: seq<Descriptor>, pullRepo: string, meta: Metadata) {
    PullsOne(cfg, meta) && forall ms' :: Rearranged(ms, ms') ==> FallsBack(cfg, env, content, ms', pullRepo, meta)
  }

  lemma OneDestination(
      cfg: Config, env: Env, content: Content, ms: seq<Descriptor>, pullRepo: string, target: Store,
      s: Source, meta: Metadata, t: Ref)
    requires FallsBack(cfg, env, content, ms, pullRepo, meta)
    requires BuildTarget(cfg.lib, s, RepoFor(cfg, s, meta)) == Some(t)
    ensures Destination(cfg, env, content, ms, pullRepo, target, s, meta, t) ==
            match SelectEntry(ms, Primary(cfg, meta))
            case None => None
            case Some(d) => ChildTarget(cfg, env, content, pullRepo, s, meta, d)
  {
    var got := Pull(cfg, env, content, Found(Index(ms)), pullRepo, target, t.repo, meta);
    assert got == PullOneImage(cfg.lib, env, content, pullRepo, ms, Requested(cfg, meta), Primary(cfg, meta));
    CarriedTarget(cfg, env, got, s, meta, t);
  }

  /** Every rearrangement of the index leads the call to the same place. */
  ghost predicate OrderFreeAt(
      cfg: Config, env: Env, content: Content, ms: seq<Descriptor>, pullRepo: string, target: Store,
      s: Source, meta: Metadata, t: Ref) {
    forall ms' :: Rearranged(ms, ms') ==>
      Destination(cfg, env, content, ms', pullRepo, target, s, meta, t) ==
      Destination(cfg, env, content, ms, pullRepo, target, s, meta, t)
  }

  ghost predicate SelectableAgree(
      cfg: Config, env: Env, content: Content, ms: seq<Descriptor>, pullRepo: string, s: Source, meta: Metadata)
    requires Primary(cfg, meta).Some?
  {
    forall d, e :: Selectable(ms, Primary(cfg, meta).value, d) && Selectable(ms, Primary(cfg, meta).value, e) ==>
      ChildTarget(cfg, env, content, pullRepo, s, meta, d) == ChildTarget(cfg, env, content, pullRepo, s, meta, e)
  }

  lemma AtRearranged(
      cfg: Config, env: Env, content: Content, ms: seq<Descriptor>, ms': seq<Descriptor>, pullRepo: string,
      target: Store, s: Source, meta: Metadata, t: Ref)
    requires OrderFreeAt(cfg, env, content, ms, pullRepo, target, s, meta, t) && Rearranged(ms, ms')
    ensures Destination(cfg, env, content, ms', pullRepo, target, s, meta, t) ==
            Destination(cfg, env, content, ms, pullRepo, target, s, meta, t)
  {
  }

  lemma FrontAgrees(
      cfg: Config, env: Env, content: Content, ms: seq<Descriptor>, pullRepo: string, target: Store,
      s: Source, meta: Metadata, t: Ref, d: Descriptor)
    requires SelectsItself(cfg, env, content, ms, pullRepo, meta)
    requires BuildTarget(cfg.lib, s, RepoFor(cfg, s, meta)) == Some(t)
    requires OrderFreeAt(cfg, env, content, ms, pullRepo, target, s, meta, t)
    requires Selectable(ms, Primary(cfg, meta).value, d)
    ensures ChildTarget(cfg, env, content, pullRepo, s, meta, d) ==
            Destination(cfg, env, content, ms, pullRepo, target, s, meta, t)
  {
    FrontDestination(cfg, env, content, ms, pullRepo, target, s, meta, t, d);
    AtRearranged(cfg, env, content, ms, [d] + ms, pullRepo, target, s, meta, t);
  }

  lemma OrderFreeAgrees(
      cfg: Config, env: Env, content: Content, ms: seq<Descriptor>, pullRepo: string, target: Store,
      s: Source, meta: Metadata, t: Ref)
    requires SelectsItself(cfg, env, content, ms, pullRepo, meta)
    requires BuildTarget(cfg.lib, s, RepoFor(cfg, s, meta)) == Some(t)
    requires OrderFreeAt(cfg, env, content, ms, pullRepo, target, s, meta, t)
    ensures SelectableAgree(cfg, env, content, ms, pullRepo, s, meta)
  {
    var platform := Primary(cfg, meta).value;
    forall d, e | Selectable(ms, platform, d) && Selectable(ms, platform, e)
      ensures ChildTarget(cfg, env, content, pullRepo, s, meta, d) ==
              ChildTarget(cfg, env, content, pullRepo, s, meta, e)
    {
      FrontAgrees(cfg, env, content, ms, pullRepo, target, s, meta, t, d);
      FrontAgrees(cfg, env, content, ms, pullRepo, target, s, meta, t, e);
    }
  }

  lemma AgreeingOrderFree(
      cfg: Config, env: Env, content: Content, ms: seq<Descriptor>, pullRepo: string, target: Store,
      s: Source, meta: Metadata, t: Ref)
    requires SelectsItself(cfg, env, content, ms, pullRepo, meta)
    requires BuildTarget(cfg.lib, s, RepoFor(cfg, s, meta)) == Some(t)
    requires SelectableAgree(cfg, env, content, ms, pullRepo, s, meta)
    ensures OrderFreeAt(cfg, env, content, ms, pullRepo, target, s, meta, t)
  {
    forall ms' | Rearranged(ms, ms')
      ensures Destination(cfg, env, content, ms', pullRepo, target, s, meta, t) ==
              Destination(cfg, env, content, ms, pullRepo, target, s, meta, t)
    {
      AgreeingDestination(cfg, env, content, ms, ms', pullRepo, target, s, meta, t);
    }
  }

  /** A call that selects one entry goes to the same place for every order of the entries if and
      only if all selectable entries lead there. */
  lemma SelectedTargetExact(
      cfg: Config, env: Env, content: Content, ms: seq<Descriptor>, pullRepo: string, target: Store,
      s: Source, meta: Metadata, t: Ref)
    requires SelectsItself(cfg, env, content, ms, pullRepo, meta)
    requires BuildTarget(cfg.lib, s, RepoFor(cfg, s, meta)) == Some(t)
    ensures OrderFreeAt(cfg, env, content, ms, pullRepo, target, s, meta, t) <==>
            SelectableAgree(cfg, env, content, ms, pullRepo, s, meta)
  {
    if OrderFreeAt(cfg, env, content, ms, pullRepo, target, s, meta, t) {
      OrderFreeAgrees(cfg, env, content, ms, pullRepo, target, s, meta, t);
    }
    if SelectableAgree(cfg, env, content, ms, pullRepo, s, meta) {
      AgreeingOrderFree(cfg, env, content, ms, pullRepo, target, s, meta, t);
    }
  }

  lemma SelectsAt(
      cfg: Config, env: Env, content: Content, ms: seq<Descriptor>, ms': seq<Descriptor>, pullRepo: string,
      meta: Metadata)
    requires SelectsItself(cfg, env, content, ms, pullRepo, meta) && Rearranged(ms, ms')
    ensures FallsBack(cfg, env, content, ms', pullRepo, meta)
  {
  }

  lemma FrontDestination(
      cfg: Config, env: Env, content: Content, ms: seq<Descriptor>, pullRepo: string, target: Store,
      s: Source, meta: Metadata, t: Ref, d: Descriptor)
    requires SelectsItself(cfg, env, content, ms, pullRepo, meta)
    requires BuildTarget(cfg.lib, s, RepoFor(cfg, s, meta)) == Some(t)
    requires Selectable(ms, Primary(cfg, meta).value, d)
    ensures Rearranged(ms, [d] + ms)
    ensures Destination(cfg, env, content, [d] + ms, pullRepo, target, s, meta, t) ==
            ChildTarget(cfg, env, content, pullRepo, s, meta, d)
  {
    FrontSelected(ms, Primary(cfg, meta).value, d);
    SelectsAt(cfg, env, content, ms, [d] + ms, pullRepo, meta);
    OneDestination(cfg, env, content, [d] + ms, pullRepo, target, s, meta, t);
  }

  lemma AgreeingDestination(
      cfg: Config, env: Env, content: Content, ms: seq<Descriptor>, ms': seq<Descriptor>, pullRepo: string,
      target: Store, s: Source, meta: Metadata, t: Ref)
    requires SelectsItself(cfg, env, content, ms, pullRepo, meta)
    requires BuildTarget(cfg.lib, s, RepoFor(cfg, s, meta)) == Some(t)
    requires Rearranged(ms, ms') && SelectableAgree(cfg, env, content, ms, pullRepo, s, meta)
    ensures Destination(cfg, env, content, ms', pullRepo, target, s, meta, t) ==
            Destination(cfg, env, content, ms, pullRepo, target, s, meta, t)
  {
    var platform := Primary(cfg, meta).value;
    OneDestination(cfg, env, content, ms, pullRepo, target, s, meta, t);
    OneDestination(cfg, env, content, ms', pullRepo, target, s, meta, t);
    SelectsSome(ms, platform);
    SelectsSome(ms', platform);
    if SelectEntry(ms, Some(platform)).Some? && SelectEntry(ms', Some(platform)).Some? {
      SelectedIsSelectable(ms, ms, platform, SelectEntry(ms, Some(platform)).value);
      SelectedIsSelectable(ms, ms', platform, SelectEntry(ms', Some(platform)).value);
    }
  }

  /** Two selectable images with different architectures: with `$arch` as template, the order of
      the index decides which target the call goes to. */
  lemma OrderDecides(
      cfg: Config, env: Env, content: Content, ms: seq<Descriptor>, pullRepo: string, target: Store,
      s: Source, meta: Metadata, t: Ref, d: Descriptor, e: Descriptor, x: Object, y: Object)
    requires SelectsItself(cfg, env, content, ms, pullRepo, meta)
    requires BuildTarget(cfg.lib, s, RepoFor(cfg, s, meta)) == Some(t)
    requires cfg.template == "$arch" && HexDigest(cfg.lib.shortDigest) && !env.archFails
    requires Selectable(ms, Primary(cfg, meta).value, d) && Selectable(ms, Primary(cfg, meta).value, e)
    requires ReadEntry(content, pullRepo, d.digest) == Some(x) && !env.entryLoadFails(d.digest)
    requires ReadEntry(content, pullRepo, e.digest) == Some(y) && !env.entryLoadFails(e.digest)
    requires var name := Transform(cfg.rules, s.repo, cfg.lib.shortDigest);
             && x.Image? && PlainArch(x.arch, name) && cfg.lib.validTarget(t.(repo := x.arch + "/" + name))
             && y.Image? && PlainArch(y.arch, name) && cfg.lib.validTarget(t.(repo := y.arch + "/" + name))
             && x.arch != y.arch
    ensures Rearranged([d] + ms, [e] + ms)
    ensures Destination(cfg, env, content, [d] + ms, pullRepo, target, s, meta, t) !=
            Destination(cfg, env, content, [e] + ms, pullRepo, target, s, meta, t)
  {
    var name := Transform(cfg.rules, s.repo, cfg.lib.shortDigest);
    FrontDestination(cfg, env, content, ms, pullRepo, target, s, meta, t, d);
    FrontDestination(cfg, env, content, ms, pullRepo, target, s, meta, t, e);
    PlainTarget(cfg, env, s, meta, t, x);
    PlainTarget(cfg, env, s, meta, t, y);
    PrefixesDiffer(x.arch, y.arch, name);
  }

  lemma PrefixesDiffer(a: string, b: string, name: string)
    requires '/' !in a && '/' !in b && a != b
    ensures a + "/" + name != b + "/" + name
  {
    if a + "/" + name == b + "/" + name { SplitAtSlash(a, name, b, name); }
  }

  lemma PlainTarget(cfg: Config, env: Env, s: Source, meta: Metadata, t: Ref, x: Object)
    requires BuildTarget(cfg.lib, s, RepoFor(cfg, s, meta)) == Some(t)
    requires cfg.template == "$arch" && HexDigest(cfg.lib.shortDigest) && !env.archFails
    requires x.Image? && PlainArch(x.arch, Transform(cfg.rules, s.repo, cfg.lib.shortDigest))
    ensures var repo := x.arch + "/" + Transform(cfg.rules, s.repo, cfg.lib.shortDigest);
            TargetOf(cfg, env, s, meta, x) == if cfg.lib.validTarget(t.(repo := repo)) then Some(t.(repo := repo))
                else None
  {
    var repo := x.arch + "/" + Transform(cfg.rules, s.repo, cfg.lib.shortDigest);
    TrimTight(x.arch, IsSpace);
    ArchPaths(cfg.rules, s.repo, meta.(arch := ""), x.arch, cfg.lib.shortDigest);
    assert meta.(arch := "").(arch := x.arch) == meta.(arch := x.arch);
    MovedTarget(cfg.lib, s, RepoFor(cfg, s, meta), repo, t);
  }

  // ---- Pulls that select a subset ----

  /** One candidate for every desired platform that the index offers. */
  ghost predicate Choice(ms: seq<Descriptor>, desired: seq<Spec>, c: seq<Descriptor>) {
    var matched := Kept(ms, desired, Candidate, true);
    |c| == |matched| && forall i :: 0 <= i < |c| ==> c[i] in ms && Candidate(matched[i], c[i])
  }

  lemma {:induction false} KeptRearranged(a: seq<Descriptor>, b: seq<Descriptor>, desired: seq<Spec>)
    requires Rearranged(a, b)
    ensures Kept(a, desired, Candidate, true) == Kept(b, desired, Candidate, true)
  {
    if desired != [] {
      var n := |desired| - 1;
      KeptRearranged(a, b, desired[..n]);
      OfferedMeans(a, desired[n]);
      OfferedMeans(b, desired[n]);
    }
  }

  lemma FirstsAreChoice(ms: seq<Descriptor>, ms': seq<Descriptor>, desired: seq<Spec>)
    requires Rearranged(ms, ms')
    ensures Choice(ms, desired, Firsts(ms', desired, Candidate))
  {
    KeptRearranged(ms, ms', desired);
    FirstsAreFirst(ms', desired, Candidate);
    var c := Firsts(ms', desired, Candidate);
    forall i | 0 <= i < |c| ensures c[i] in ms {
      assert c[i] in ms';
    }
  }

  lemma ChoiceInFront(ms: seq<Descriptor>, desired: seq<Spec>, c: seq<Descriptor>)
    requires Distinguishable(desired) && Choice(ms, desired, c)
    ensures Rearranged(ms, c + ms) && Firsts(c + ms, desired, Candidate) == c
  {
    var ms' := c + ms;
    KeptRearranged(ms, ms', desired);
    KeptDistinguishable(ms, desired);
    FirstsAreFirst(ms', desired, Candidate);
    var matched := Kept(ms, desired, Candidate, true);
    forall i | 0 <= i < |c| ensures FirstFor(ms', matched[i], Candidate) == i {
      forall j | 0 <= j < i ensures !Candidate(matched[i], ms'[j]) {
        assert ms'[j] == c[j] && Candidate(matched[j], c[j]);
        MatchIsKeyEquality(matched[j], c[j]);
        if Candidate(matched[i], c[j]) { MatchIsKeyEquality(matched[i], c[j]); }
      }
      assert ms'[i] == c[i];
    }
  }

  /** The subsets that filtering can yield, over all orders of the index, are exactly the choices
      of one candidate for every offered platform. */
  lemma FilterReaches(ms: seq<Descriptor>, desired: seq<Spec>, c: seq<Descriptor>)
    requires Distinguishable(desired)
    ensures Choice(ms, desired, c) <==> exists ms' :: Rearranged(ms, ms') && Firsts(ms', desired, Candidate) == c
  {
    if Choice(ms, desired, c) { ChoiceInFront(ms, desired, c); }
    forall ms' | Rearranged(ms, ms') && Firsts(ms', desired, Candidate) == c ensures Choice(ms, desired, c) {
      FirstsAreChoice(ms, ms', desired);
    }
  }

  /** Nothing that the index itself needs is unreadable. */
  predicate ReadsIndex(cfg: Config, env: Env) {
    !env.getFails && !env.indexFails && !env.manifestFails && !cfg.dryPull
  }

  /** Where the subset `c` leads: nowhere if an entry of it cannot be loaded. */
  ghost function ChoiceTarget(
      cfg: Config, env: Env, content: Content, c: seq<Descriptor>, pullRepo: string, target: Store,
      s: Source, meta: Metadata, t: Ref): Option<Ref> {
    if forall d :: d in c ==> LoadEntry(cfg.lib, env, content, pullRepo, target, t.repo, d).Some?
    then TargetOf(cfg, env, s, meta, Index(c))
    else None
  }

  lemma SubsetDestination(
      cfg: Config, env: Env, content: Content, ms: seq<Descriptor>, pullRepo: string, target: Store,
      s: Source, meta: Metadata, t: Ref)
    requires PullsSubset(cfg, meta) && ReadsIndex(cfg, env)
    requires BuildTarget(cfg.lib, s, RepoFor(cfg, s, meta)) == Some(t)
    ensures var c := Firsts(ms, Desired(cfg, meta), Candidate);
            Destination(cfg, env, content, ms, pullRepo, target, s, meta, t) ==
            if c == [] then TargetOf(cfg, env, s, meta, Index(ms))
            else ChoiceTarget(cfg, env, content, c, pullRepo, target, s, meta, t)
  {
    var desired := Desired(cfg, meta);
    var c := Firsts(ms, desired, Candidate);
    var got := Pull(cfg, env, content, Found(Index(ms)), pullRepo, target, t.repo, meta);
    assert got == PullFiltered(cfg.lib, env, content, pullRepo, target, t.repo, ms, desired);
    FirstsAreChoice(ms, ms, desired);
    LoadAllEach(c, d => LoadEntry(cfg.lib, env, content, pullRepo, target, t.repo, d));
    FirstsAreFirst(ms, desired, Candidate);
    CarriedTarget(cfg, env, got, s, meta, t);
  }

  ghost predicate ChoicesAgree(
      cfg: Config, env: Env, content: Content, ms: seq<Descriptor>, pullRepo: string, target: Store,
      s: Source, meta: Metadata, t: Ref) {
    forall c, c' :: Choice(ms, Desired(cfg, meta), c) && Choice(ms, Desired(cfg, meta), c') ==>
      ChoiceTarget(cfg, env, content, c, pullRepo, target, s, meta, t) ==
      ChoiceTarget(cfg, env, content, c', pullRepo, target, s, meta, t)
  }

  lemma SubsetRearranged(
      cfg: Config, env: Env, content: Content, ms: seq<Descriptor>, ms': seq<Descriptor>, pullRepo: string,
      target: Store, s: Source, meta: Metadata, t: Ref)
    requires PullsSubset(cfg, meta) && ReadsIndex(cfg, env) && Rearranged(ms, ms')
    requires BuildTarget(cfg.lib, s, RepoFor(cfg, s, meta)) == Some(t)
             && ChoicesAgree(cfg, env, content, ms, pullRepo, target, s, meta, t)
    ensures Destination(cfg, env, content, ms', pullRepo, target, s, meta, t) ==
            Destination(cfg, env, content, ms, pullRepo, target, s, meta, t)
  {
    var desired := Desired(cfg, meta);
    SubsetDestination(cfg, env, content, ms, pullRepo, target, s, meta, t);
    SubsetDestination(cfg, env, content, ms', pullRepo, target, s, meta, t);
    FirstsAreChoice(ms, ms, desired);
    FirstsAreChoice(ms, ms', desired);
    if Firsts(ms, desired, Candidate) == [] { TargetOfRearranged(cfg, env, s, meta, ms, ms'); }
  }

  lemma ChoiceDestination(
      cfg: Config, env: Env, content: Content, ms: seq<Descriptor>, pullRepo: string, target: Store,
      s: Source, meta: Metadata, t: Ref, c: seq<Descriptor>)
    requires PullsSubset(cfg, meta) && ReadsIndex(cfg, env)
    requires BuildTarget(cfg.lib, s, RepoFor(cfg, s, meta)) == Some(t)
    requires Distinguishable(Desired(cfg, meta)) && Choice(ms, Desired(cfg, meta), c) && c != []
    ensures Rearranged(ms, c + ms)
    ensures Destination(cfg, env, content, c + ms, pullRepo, target, s, meta, t) ==
            ChoiceTarget(cfg, env, content, c, pullRepo, target, s, meta, t)
  {
    ChoiceInFront(ms, Desired(cfg, meta), c);
    SubsetDestination(cfg, env, content, c + ms, pullRepo, target, s, meta, t);
  }

  lemma ChoiceAgrees(
      cfg: Config, env: Env, content: Content, ms: seq<Descriptor>, pullRepo: string, target: Store,
      s: Source, meta: Metadata, t: Ref, c: seq<Descriptor>)
    requires PullsSubset(cfg, meta) && ReadsIndex(cfg, env)
    requires BuildTarget(cfg.lib, s, RepoFor(cfg, s, meta)) == Some(t) && Distinguishable(Desired(cfg, meta))
    requires OrderFreeAt(cfg, env, content, ms, pullRepo, target, s, meta, t)
    requires Choice(ms, Desired(cfg, meta), c) && c != []
    ensures ChoiceTarget(cfg, env, content, c, pullRepo, target, s, meta, t) ==
            Destination(cfg, env, content, ms, pullRepo, target, s, meta, t)
  {
    ChoiceDestination(cfg, env, content, ms, pullRepo, target, s, meta, t, c);
    AtRearranged(cfg, env, content, ms, c + ms, pullRepo, target, s, meta, t);
  }

  lemma OrderFreeChoices(
      cfg: Config, env: Env, content: Content, ms: seq<Descriptor>, pullRepo: string, target: Store,
      s: Source, meta: Metadata, t: Ref)
    requires PullsSubset(cfg, meta) && ReadsIndex(cfg, env)
    requires BuildTarget(cfg.lib, s, RepoFor(cfg, s, meta)) == Some(t) && Distinguishable(Desired(cfg, meta))
    requires OrderFreeAt(cfg, env, content, ms, pullRepo, target, s, meta, t)
    ensures ChoicesAgree(cfg, env, content, ms, pullRepo, target, s, meta, t)
  {
    forall c, c' | Choice(ms, Desired(cfg, meta), c) && Choice(ms, Desired(cfg, meta), c')
      ensures ChoiceTarget(cfg, env, content, c, pullRepo, target, s, meta, t) ==
              ChoiceTarget(cfg, env, content, c', pullRepo, target, s, meta, t)
    {
      if c != [] {
        ChoiceAgrees(cfg, env, content, ms, pullRepo, target, s, meta, t, c);
        ChoiceAgrees(cfg, env, content, ms, pullRepo, target, s, meta, t, c');
      }
    }
  }

  lemma ChoicesOrderFree(
      cfg: Config, env: Env, content: Content, ms: seq<Descriptor>, pullRepo: string, target: Store,
      s: Source, meta: Metadata, t: Ref)
    requires PullsSubset(cfg, meta) && ReadsIndex(cfg, env)
    requires BuildTarget(cfg.lib, s, RepoFor(cfg, s, meta)) == Some(t)
             && ChoicesAgree(cfg, env, content, ms, pullRepo, target, s, meta, t)
    ensures OrderFreeAt(cfg, env, content, ms, pullRepo, target, s, meta, t)
  {
    forall ms' | Rearranged(ms, ms')
      ensures Destination(cfg, env, content, ms', pullRepo, target, s, meta, t) ==
              Destination(cfg, env, content, ms, pullRepo, target, s, meta, t)
    {
      SubsetRearranged(cfg, env, content, ms, ms', pullRepo, target, s, meta, t);
    }
  }

  /** A call that mirrors a subset goes to the same place for every order of the entries if and
      only if all choices of one candidate per offered platform lead there. */
  lemma SubsetTargetExact(
      cfg: Config, env: Env, content: Content, ms: seq<Descriptor>, pullRepo: string, target: Store,
      s: Source, meta: Metadata, t: Ref, values: seq<string>)
    requires PullsSubset(cfg, meta) && ReadsIndex(cfg, env)
    requires BuildTarget(cfg.lib, s, RepoFor(cfg, s, meta)) == Some(t) && cfg.mirrorPlatforms == MirrorPlatforms(values)
    ensures OrderFreeAt(cfg, env, content, ms, pullRepo, target, s, meta, t) <==>
            ChoicesAgree(cfg, env, content, ms, pullRepo, target, s, meta, t)
  {
    DesiredDistinguishable(MetaPlatform(meta), values);
    if OrderFreeAt(cfg, env, content, ms, pullRepo, target, s, meta, t) {
      OrderFreeChoices(cfg, env, content, ms, pullRepo, target, s, meta, t);
    }
    if ChoicesAgree(cfg, env, content, ms, pullRepo, target, s, meta,
        t) { ChoicesOrderFree(cfg, env, content, ms, pullRepo, target, s, meta, t); }
  }

  /** No two different runnable entries name the same platform up to case and blanks. */
  ghost predicate DistinctPlatforms(ms: seq<Descriptor>) {
    forall d, e :: d in ms && e in ms && Runnable(d) && Runnable(e) && PlatformKey(d) == PlatformKey(e) ==> d == e
  }

  /** Then filtering has no choice. */
  lemma DistinctLeavesNoChoice(ms: seq<Descriptor>, desired: seq<Spec>, c: seq<Descriptor>, c': seq<Descriptor>)
    requires Distinguishable(desired) && DistinctPlatforms(ms) && Choice(ms, desired, c) && Choice(ms, desired, c')
    ensures c == c'
  {
    KeptDistinguishable(ms, desired);
    var matched := Kept(ms, desired, Candidate, true);
    forall i | 0 <= i < |c| ensures c[i] == c'[i] {
      MatchIsKeyEquality(matched[i], c[i]);
      MatchIsKeyEquality(matched[i], c'[i]);
    }
  }

  /** An index without repeated platforms is filtered to the same place in every order. */
  lemma DistinctPlatformsOrderFree(
      cfg: Config, env: Env, content: Content, ms: seq<Descriptor>, pullRepo: string, target: Store,
      s: Source, meta: Metadata, t: Ref, values: seq<string>)
    requires PullsSubset(cfg, meta) && ReadsIndex(cfg, env)
    requires BuildTarget(cfg.lib, s, RepoFor(cfg, s, meta)) == Some(t) && cfg.mirrorPlatforms == MirrorPlatforms(values)
    requires DistinctPlatforms(ms)
    ensures OrderFreeAt(cfg, env, content, ms, pullRepo, target, s, meta, t)
  {
    DesiredDistinguishable(MetaPlatform(meta), values);
    forall c, c' | Choice(ms, Desired(cfg, meta), c) && Choice(ms, Desired(cfg, meta), c') ensures c == c' {
      DistinctLeavesNoChoice(ms, Desired(cfg, meta), c, c');
    }
    SubsetTargetExact(cfg, env, content, ms, pullRepo, target, s, meta, t, values);
  }
}
