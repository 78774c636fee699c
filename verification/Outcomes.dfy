/** What the answers of a call say about its request, its faults and its target, read off their
    fields. */
module Outcomes {
  import opened Text
  import opened Refs
  import opened Gate
  import opened Registry
  import opened Selection
  import opened Platforms
  import opened RepoNames
  import opened Mirroring
  import opened Starts
  import opened MirrorFacts
  import opened Landing
  import Retry

  // ---- The end of a call ----

  /** The call returns nil, its claim is released, and no failure is recorded. */
  ghost predicate Returns(call: Call, g: GateState, t: Ref) {
    call.outcome.None? && call.gate == GateState(g.pushed - {t}, g.failed)
  }

  /** The call fails: its claim is released, and with a cooldown the failure is recorded under the
      time that its error adds the cooldown to. */
  ghost predicate Fails(call: Call, cfg: Config, env: Env, g: GateState, t: Ref, cause: Cause) {
    if cfg.cooldown > 0
    then call.outcome == Some(RetryError(cause, env.failAt + cfg.cooldown))
         && call.gate == GateState(g.pushed - {t}, g.failed[t := env.failAt])
    else call.outcome == Some(Plain(cause)) && call.gate == GateState(g.pushed - {t}, g.failed)
  }

  /** The repository is not there and cannot be had. */
  ghost predicate Blocked(repositories: Repositories, env: Env, target: Store, repo: string) {
    match repositories
    case Implicit => false
    case Managed(create, policy) =>
      env.describeFails || (repo !in target.repos && (!create || env.createFails || (policy && env.policyFails)))
  }

  /** Attempt `k` is the first that the target accepts, after failures worth a retry. */
  ghost predicate SucceedsAt(cfg: Config, env: Env, t: Ref, p: Payload, k: nat) {
    && 1 <= k <= (if cfg.attempts <= 0 then 1 else cfg.attempts)
    && env.attempt(k).error.None? && (t.Pinned? ==> t.digest == cfg.lib.hash(p.root))
    && forall j :: 1 <= j < k ==>
         && env.attempt(j).error.Some? && Retry.Retryable(env.attempt(j).error.value)
         && !(cfg.backoff > 0 && env.interrupted(j))
  }

  lemma PushSucceeds(cfg: Config, env: Env, t: Ref, p: Payload)
    ensures PushRun(cfg, env, t, p).result.Done? <==> exists k :: SucceedsAt(cfg, env, t, p, k)
  {
    var errs, max := Errors(cfg.lib, env, t, p), Retry.Attempts(cfg.attempts);
    var run := PushRun(cfg, env, t, p);
    Retry.RunExplained(max, cfg.backoff, errs, env.interrupted, 1);
    forall j: nat ensures errs(j) == AttemptAt(cfg.lib, env, t, p, j).error {}
    if run.result.Done? {
      forall j | 1 <= j < run.calls
        ensures env.attempt(j).error.Some? && Retry.Retryable(env.attempt(j).error.value)
        ensures !(cfg.backoff > 0 && env.interrupted(j))
      {
        assert errs(j) == env.attempt(j).error;
      }
      assert SucceedsAt(cfg, env, t, p, run.calls);
    }
    if k :| SucceedsAt(cfg, env, t, p, k) {
      var done := Retry.Run(k, Retry.Done);
      assert Retry.ExplainedBy(done, max, cfg.backoff, errs, env.interrupted);
      Retry.TraceDetermines(run, done, max, cfg.backoff, errs, env.interrupted);
    }
  }

  lemma PushMeaning(cfg: Config, env: Env, g: GateState, target: Store, t: Ref, p: Payload)
    ensures var call := Push(cfg, env, g, target, t, p);
            && call.sent == Some((t, p))
            && if exists k :: SucceedsAt(cfg, env, t, p, k)
               then Returns(call, g, t) && HasLanded(cfg.lib.hash, target, call.target, t, p)
               else Fails(call, cfg, env, g, t, PushFailed) && Confined(cfg.lib.hash, target, call.target, t, p)
  {
    PushSucceeds(cfg, env, t, p);
    PushOutcome(cfg, env, target, t, p);
  }

  /** The digest under the final target decides: the same one settles the call, another one is
      refused under a tag unless that is latest in any case or overwriting is allowed. */
  lemma DecideMeaning(cfg: Config, env: Env, target: Store, t: Ref, d: Digest)
    ensures Decide(cfg, env, target, t, d) ==
            if env.digestFails then Refuse(ReadDigest)
            else if env.targetHeadFails then Refuse(CheckTarget)
            else if Head(target, t) == Found(d) then Settled
            else if Head(target, t).Found? && t.Tagged? && Lower(t.tag) != "latest" && !cfg.allowRepush then
              Refuse(DigestMismatch)
            else Write
  {
    assert Lower("latest") == "latest";
    assert !Head(target, t).Broken?;
  }

  lemma EnsureMeaning(cfg: Config, env: Env, target: Store, repo: string)
    ensures var e := Ensure(cfg, env, target, repo);
            && (e.ok <==> !Blocked(cfg.repositories, env, target, repo))
            && e.target.content == target.content && e.target.tags == target.tags
  {
  }

  lemma WriteMeaning(cfg: Config, env: Env, g: GateState, target: Store, t: Ref, p: Payload)
    requires Decide(cfg, env, target, t, cfg.lib.hash(p.root)).Write?
    ensures var call := Conclude(cfg, env, g, target, t, p);
            if Blocked(cfg.repositories, env, target, t.repo) then
              Fails(call, cfg, env, g, t, EnsureRepository) && call.sent.None?
            else if cfg.dryRun then Returns(call, g, t) && call.sent.None?
            else if exists k :: SucceedsAt(cfg, env, t, p, k) then
              Returns(call, g, t) && call.sent == Some((t, p)) && HasLanded(cfg.lib.hash, target, call.target, t, p)
            else
              && Fails(call, cfg, env, g, t, PushFailed) && call.sent == Some((t, p))
              && Confined(cfg.lib.hash, target, call.target, t, p)
  {
    var e := Ensure(cfg, env, target, t.repo);
    EnsureMeaning(cfg, env, target, t.repo);
    if e.ok && !cfg.dryRun {
      assert Conclude(cfg, env, g, target, t, p) == Push(cfg, env, g, e.target, t, p);
      PushMeaning(cfg, env, g, e.target, t, p);
    }
  }

  lemma StopMeaning(cfg: Config, env: Env, g: GateState, target: Store, t: Ref, p: Payload)
    ensures var call := Conclude(cfg, env, g, target, t, p);
            match Decide(cfg, env, target, t, cfg.lib.hash(p.root))
            case Refuse(cause) => Fails(call, cfg, env, g, t, cause) && call.target == target
            case Settled => Returns(call, g, t) && call.target == target
            case Write => true
  {
  }

  /** From the final target on.  Errors come in this order: the digest cannot be read, the target
      cannot be checked, it holds another digest under a tag that may not be overwritten, its
      repository cannot be had, no attempt succeeds.  Nil means that the target has the digest
      already, that the call is dry, or that the payload has landed. */
  lemma EndMeaning(cfg: Config, env: Env, g: GateState, target: Store, t: Ref, p: Payload)
    ensures var call, d := Conclude(cfg, env, g, target, t, p), cfg.lib.hash(p.root);
            if env.digestFails then Fails(call, cfg, env, g, t, ReadDigest) && call.target == target
            else if env.targetHeadFails then Fails(call, cfg, env, g, t, CheckTarget) && call.target == target
            else if Head(target, t) == Found(d) then Returns(call, g, t) && call.target == target
            else if Head(target, t).Found? && t.Tagged? && Lower(t.tag) != "latest" && !cfg.allowRepush then
              Fails(call, cfg, env, g, t, DigestMismatch) && call.target == target
            else if Blocked(cfg.repositories, env, target, t.repo) then
              Fails(call, cfg, env, g, t, EnsureRepository) && call.sent.None?
            else if cfg.dryRun then Returns(call, g, t) && call.sent.None?
            else if exists k :: SucceedsAt(cfg, env, t, p, k) then
              Returns(call, g, t) && call.sent == Some((t, p)) && HasLanded(cfg.lib.hash, target, call.target, t, p)
            else
              && Fails(call, cfg, env, g, t, PushFailed) && call.sent == Some((t, p))
              && Confined(cfg.lib.hash, target, call.target, t, p)
  {
    DecideMeaning(cfg, env, target, t, cfg.lib.hash(p.root));
    StopMeaning(cfg, env, g, target, t, p);
    if Decide(cfg, env, target, t, cfg.lib.hash(p.root)).Write? { WriteMeaning(cfg, env, g, target, t, p); }
  }

  // ---- The shortcuts ----

  /** The digest that the pod runs, `r`, is in the target repository; a target given by that very
      digest is looked up as it is written. */
  ghost predicate RunningDigestThere(lib: Library, target: Store, t: Ref, r: Ref) {
    && r.Pinned?
    && if t.Pinned? && Lower(t.digest) == Lower(r.digest) then (t.repo, t.digest) in target.content
       else lib.validTarget(Pinned(t.repo, r.digest)) && (t.repo, r.digest) in target.content
  }

  lemma RunningDigestMeaning(cfg: Config, env: Env, target: Store, t: Ref, r: Ref)
    ensures PodDigestPresent(cfg, env, target, t, Some(r)) <==>
              !env.podHeadFails && RunningDigestThere(cfg.lib, target, t, r)
  {
  }

  lemma DigestSourceMeaning(
      cfg: Config, env: Env, sourceHead: Read<Digest>, target: Store, s: Source, t: Ref, pod: Option<Ref>)
    ensures DigestSourcePresent(cfg, env, sourceHead, target, s, t, pod) <==>
              && WantsDigest(cfg.pullByDigest, cfg.ignoredTags, s) && pod.None? && cfg.mirrorPlatforms == []
              && !env.preTargetHeadFails && !env.preSourceHeadFails
              && Head(target, t) == sourceHead && sourceHead.Found? && sourceHead != Found("")
  {
    WantedIsUsed(cfg, s);
  }

  /** Exactly when a call finds its work done before it pulls: the digest that the pod runs is in the
      target repository, or, for a source given by digest whose pod names none and without
      configured platforms, source and target answer with the same digest.  A failed read counts
      as not there. */
  lemma ShortcutMeaning(cfg: Config, env: Env, source: Store, target: Store, s: Source, meta: Metadata, t: Ref)
    ensures AlreadyPresent(cfg, env, source, target, s, meta, t) <==>
            && WantsDigest(cfg.pullByDigest, cfg.ignoredTags, s)
            && (|| (!env.podHeadFails && exists r ::
                      StandsFor(cfg.lib, meta.imageID, s, r) && RunningDigestThere(cfg.lib, target, t, r))
                || (&& (forall r :: !StandsFor(cfg.lib, meta.imageID, s, r))
                    && cfg.mirrorPlatforms == [] && !env.preTargetHeadFails && !env.preSourceHeadFails
                    && Head(target, t) == Head(source, PullRef(cfg, s, meta)) && Head(target, t).Found?
                    && Head(target, t) != Found("")))
  {
    forall r { PodRefMeaning(cfg, s, meta, r); }
    var pod := PodRef(cfg, s, meta);
    if pod.Some? { RunningDigestMeaning(cfg, env, target, t, pod.value); }
    DigestSourceMeaning(cfg, env, Head(source, PullRef(cfg, s, meta)), target, s, t, pod);
  }

  lemma WantedIsUsed(cfg: Config, s: Source)
    ensures UsesPodDigest(cfg, s) <==> WantsDigest(cfg.pullByDigest, cfg.ignoredTags, s)
  {
  }

  // ---- The platforms of a call ----

  /** The platform of the node: its trimmed architecture, and linux unless a system is given. */
  ghost predicate IsNode(meta: Metadata, arch: string, os: string) {
    && arch == TrimSpace(meta.arch) && arch != ""
    && os == if TrimSpace(meta.os) == "" then "linux" else TrimSpace(meta.os)
  }

  /** Both fields are there, without blanks around them, as the parser leaves them. */
  ghost predicate Parsed(p: Spec) { TrimSpace(p.arch) == p.arch != "" && TrimSpace(p.os) == p.os != "" }

  lemma NodeSpec(meta: Metadata, arch: string, os: string)
    requires IsNode(meta, arch, os)
    ensures FromPlatform(MetaPlatform(meta)) == Some(Spec(arch, os)) && Parsed(Spec(arch, os))
  {
    TrimTwice(meta.arch);
    TrimTwice(meta.os);
    TrimTight("linux", IsSpace);
  }

  /** The platform that counts for a single image is the node's, else the first configured one. */
  lemma PrimaryMeaning(cfg: Config, meta: Metadata)
    requires forall p :: p in cfg.mirrorPlatforms ==> Parsed(p)
    ensures forall arch, os :: IsNode(meta, arch, os) ==> Primary(cfg, meta) == Some(Platform(arch, os))
    ensures TrimSpace(meta.arch) == "" ==>
              Primary(cfg, meta) == if cfg.mirrorPlatforms == [] then None
                                    else Some(Platform(cfg.mirrorPlatforms[0].arch, cfg.mirrorPlatforms[0].os))
  {
    DesiredMeaning(MetaPlatform(meta), cfg.mirrorPlatforms);
    DesiredHead(MetaPlatform(meta), cfg.mirrorPlatforms);
    forall arch, os | IsNode(meta, arch, os) ensures Primary(cfg, meta) == Some(Platform(arch, os)) {
      NodeSpec(meta, arch, os);
      SpecRoundTrip(Spec(arch, os));
    }
    if TrimSpace(meta.arch) == "" && cfg.mirrorPlatforms != [] {
      assert Desired(cfg, meta)[0] == cfg.mirrorPlatforms[0];
      SpecRoundTrip(cfg.mirrorPlatforms[0]);
    }
  }

  // ---- The pull ----

  /** The children of an index that the source has, in order. */
  lemma {:induction false} PresentPicks(content: Content, repo: string, ms: seq<Descriptor>)
    ensures Present(content, repo, ms) == Picked(ms, (m: Descriptor) => ReadEntry(content, repo, m.digest))
  {
    if ms != [] {
      PresentPicks(content, repo, ms[1..]);
      PickedFront(ms, (m: Descriptor) => ReadEntry(content, repo, m.digest));
    }
  }

  /** Everything of an index that the source has. */
  ghost predicate IsWhole(p: Payload, content: Content, repo: string, ms: seq<Descriptor>) {
    && p.root == Index(ms)
    && forall x :: x in p.parts <==>
          exists m :: m in ms && (repo, m.digest) in content && content[(repo, m.digest)] == x
  }

  lemma WholeMeaning(content: Content, repo: string, ms: seq<Descriptor>)
    ensures IsWhole(WholeIndex(content, repo, ms), content, repo, ms)
  {
    PresentPicks(content, repo, ms);
    PickedMembers(ms, (m: Descriptor) => ReadEntry(content, repo, m.digest));
  }

  /** The pull of the descriptor itself, and of a single image or a whole index.  A whole index is
      mirrored when digest pull is off or no platform is known. */
  lemma PullMeaning(
      cfg: Config, env: Env, content: Content, described: Read<Object>, pullRepo: string, target: Store,
      targetRepo: string, meta: Metadata)
    ensures var got := Pull(cfg, env, content, described, pullRepo, target, targetRepo, meta);
            if env.getFails || !described.Found? then got == PullFailed(Describe)
            else if cfg.dryPull then got == DryPulled
            else match described.value
              case Image(_, _) =>
                got == if env.imageFails then PullFailed(PullImage) else Got(Payload(described.value, []))
              case Index(ms) =>
                !cfg.pullByDigest || (Desired(cfg, meta) == [] && TrimSpace(meta.arch) == "") ==>
                  if env.indexFails then got == PullFailed(LoadIndex)
                  else got.Got? && IsWhole(got.payload, content, pullRepo, ms)
  {
    if described.Found? && described.value.Index? { WholeMeaning(content, pullRepo, described.value.manifests); }
  }

  /** With digest pull on and several platforms wanted, the first runnable entries for them make up
      the index, or the whole index is taken if there are none; one that cannot be loaded, from
      the target or from the source, fails the pull. */
  lemma SubsetMeaning(
      cfg: Config, env: Env, content: Content, ms: seq<Descriptor>, pullRepo: string, target: Store,
      targetRepo: string, meta: Metadata)
    requires cfg.pullByDigest && !cfg.dryPull && |Desired(cfg, meta)| > 1
    ensures var got := PullObject(cfg, env, content, Index(ms), pullRepo, target, targetRepo, meta);
            var entries := Firsts(ms, Desired(cfg, meta), Candidate);
            var load := (d: Descriptor) => LoadEntry(cfg.lib, env, content, pullRepo, target, targetRepo, d);
            if env.indexFails then got == PullFailed(LoadIndex)
            else if env.manifestFails then got == PullFailed(FilterIndex)
            else if entries == [] then got.Got? && IsWhole(got.payload, content, pullRepo, ms)
            else if exists d :: d in entries && load(d).None? then got == PullFailed(FilterIndex)
            else
              && got.Got? && got.payload.root == Index(entries) && |got.payload.parts| == |entries|
              && forall i :: 0 <= i < |entries| ==> load(entries[i]) == Some(got.payload.parts[i])
  {
    FilteredMeaning(cfg.lib, env, content, ms, pullRepo, target, targetRepo, Desired(cfg, meta));
  }

  lemma FilteredMeaning(
      lib: Library, env: Env, content: Content, ms: seq<Descriptor>, pullRepo: string, target: Store,
      targetRepo: string, desired: seq<Spec>)
    ensures var got := PullFiltered(lib, env, content, pullRepo, target, targetRepo, ms, desired);
            var entries := Firsts(ms, desired, Candidate);
            var load := (d: Descriptor) => LoadEntry(lib, env, content, pullRepo, target, targetRepo, d);
            if env.indexFails then got == PullFailed(LoadIndex)
            else if env.manifestFails then got == PullFailed(FilterIndex)
            else if entries == [] then got.Got? && IsWhole(got.payload, content, pullRepo, ms)
            else if exists d :: d in entries && load(d).None? then got == PullFailed(FilterIndex)
            else
              && got.Got? && got.payload.root == Index(entries) && |got.payload.parts| == |entries|
              && forall i :: 0 <= i < |entries| ==> load(entries[i]) == Some(got.payload.parts[i])
  {
    FilterMeaning(ms, desired, Candidate, d => LoadEntry(lib, env, content, pullRepo, target, targetRepo, d));
    WholeMeaning(content, pullRepo, ms);
  }

  /** What an entry is loaded from: the target, if it answers for the digest and can be read, else
      the source. */
  lemma LoadMeaning(
      lib: Library, env: Env, content: Content, pullRepo: string, target: Store, targetRepo: string, d: Descriptor)
    ensures var x := LoadEntry(lib, env, content, pullRepo, target, targetRepo, d);
            var here, there := (targetRepo, d.digest), (pullRepo, d.digest);
            x == if !lib.validTarget(Pinned(targetRepo, d.digest)) || env.entryHeadFails(d.digest) then None
                 else if here in target.content && !env.entryFetchFails(d.digest) then Some(target.content[here])
                 else if there in content && !env.entryLoadFails(d.digest) then Some(content[there])
                 else None
  {
  }

  /** With digest pull on and one platform wanted, the image is the one that the library resolves,
      else that of the selected entry. */
  lemma SingleMeaning(
      cfg: Config, env: Env, content: Content, ms: seq<Descriptor>, pullRepo: string, target: Store,
      targetRepo: string, meta: Metadata)
    requires cfg.pullByDigest && !cfg.dryPull && |Desired(cfg, meta)| <= 1 && Primary(cfg, meta).Some?
    ensures var got := PullObject(cfg, env, content, Index(ms), pullRepo, target, targetRepo, meta);
            var k := cfg.lib.childForPlatform(ms, Primary(cfg, meta));
            var key := (pullRepo, if k < |ms| then ms[k].digest else "");
            var chosen := SelectEntry(ms, Primary(cfg, meta));
            if !env.imageFails && k < |ms| && key in content && content[key].Image? then
              got == Got(Payload(content[key], []))
            else if env.indexFails then got == PullFailed(LoadIndex)
            else if env.manifestFails || chosen.None? || env.entryLoadFails(chosen.value.digest)
                || (pullRepo, chosen.value.digest) !in content || content[(pullRepo, chosen.value.digest)].Index?
            then got == PullFailed(ResolvePlatform)
            else got == Got(Payload(content[(pullRepo, chosen.value.digest)], []))
  {
    SingleIs(cfg, env, content, ms, pullRepo, target, targetRepo, meta);
    OneImageMeaning(cfg.lib, env, content, pullRepo, ms, Primary(cfg, meta).value);
  }

  lemma SingleIs(
      cfg: Config, env: Env, content: Content, ms: seq<Descriptor>, pullRepo: string, target: Store,
      targetRepo: string, meta: Metadata)
    requires cfg.pullByDigest && !cfg.dryPull && |Desired(cfg, meta)| <= 1 && Primary(cfg, meta).Some?
    ensures PullObject(cfg, env, content, Index(ms), pullRepo, target, targetRepo, meta) ==
            PullOneImage(cfg.lib, env, content, pullRepo, ms, Primary(cfg, meta), Primary(cfg, meta))
  {
  }

  lemma OneImageMeaning(
      lib: Library, env: Env, content: Content, repo: string, ms: seq<Descriptor>, platform: Platform)
    ensures var got := PullOneImage(lib, env, content, repo, ms, Some(platform), Some(platform));
            var k := lib.childForPlatform(ms, Some(platform));
            var key := (repo, if k < |ms| then ms[k].digest else "");
            var chosen := SelectEntry(ms, Some(platform));
            if !env.imageFails && k < |ms| && key in content && content[key].Image? then
              got == Got(Payload(content[key], []))
            else if env.indexFails then got == PullFailed(LoadIndex)
            else if env.manifestFails || chosen.None? || env.entryLoadFails(chosen.value.digest)
                || (repo, chosen.value.digest) !in content || content[(repo, chosen.value.digest)].Index?
            then got == PullFailed(ResolvePlatform)
            else got == Got(Payload(content[(repo, chosen.value.digest)], []))
  {
  }

  // ---- From the claim to the final target ----

  /** The architecture under which a payload is filed: the label of an index, or what the config of
      an image says; unreadable, they count as several and as none. */
  ghost predicate FiledUnder(env: Env, p: Payload, arch: string) {
    match p.root
    case Index(ms) => arch == if env.archFails then "multiarch" else IndexLabel(ms)
    case Image(a, _) => arch == if env.archFails then "" else TrimSpace(a)
  }

  /** What a call carries on, and where to: authentication comes first, then the shortcuts, then the
      pull; the payload goes to the target in the repository for its architecture, if it has one. */
  lemma MiddleMeaning(
      cfg: Config, env: Env, source: Store, target: Store, s: Source, meta: Metadata, t: Ref, arch: string, t': Ref)
    requires TargetFor(s, RepoFor(cfg, s, meta), t) && cfg.lib.validTarget(t)
    ensures var m := MiddleOf(cfg, env, source, target, s, meta, t);
            if env.authFails then m == Abort(Auth)
            else if AlreadyPresent(cfg, env, source, target, s, meta, t) then m == Leave
            else match PullOf(cfg, env, source, target, s, meta, t)
              case DryPulled => m == Leave
              case PullFailed(cause) => m == Abort(cause)
              case Got(p) =>
                FiledUnder(env, p, arch)
                && TargetFor(s, RepoFor(cfg, s, if arch == "" then meta else meta.(arch := arch)), t') ==>
                  m == if cfg.lib.validTarget(t') then Carry(p, t') else Abort(ParseTarget)
  {
    match PullOf(cfg, env, source, target, s, meta, t)
    case DryPulled =>
    case PullFailed(_) =>
    case Got(p) =>
      if FiledUnder(env, p, arch) {
        var repo := RepoFor(cfg, s, if arch == "" then meta else meta.(arch := arch));
        assert FinalRepoOf(cfg, env, s, meta)(p) == repo;
        if TargetFor(s, repo, t') { RetargetMeaning(cfg.lib, s, t, p, RepoFor(cfg, s, meta), repo, t'); }
      }
  }

  lemma RetargetMeaning(lib: Library, s: Source, t: Ref, p: Payload, repo: string, newRepo: string, t': Ref)
    requires TargetFor(s, repo, t) && lib.validTarget(t) && TargetFor(s, newRepo, t')
    ensures Retarget(lib, s, t, p, repo, newRepo) == if lib.validTarget(t') then Carry(p, t') else Abort(ParseTarget)
  {
    TargetMeaning(lib, s, newRepo, t');
  }

  /** A target is cooling down. */
  ghost predicate StillCooling(cfg: Config, g: GateState, now: int, t: Ref) {
    cfg.cooldown > 0 && t in g.failed && now < g.failed[t] + cfg.cooldown
  }

  /** Admission, twice if the target changes: a target that is cooling down is rejected with its
      retry time, one that is claimed is left to its holder, and only a call that gets through
      goes on to its end. */
  lemma AdmissionMeaning(cfg: Config, env: Env, g: GateState, target: Store, t: Ref, m: Middle)
    ensures var call := Entered(cfg, env, g, target, t, m);
            if StillCooling(cfg, g, env.beginAt, t) then
              call == Call(Some(RetryError(InCooldown, g.failed[t] + cfg.cooldown)), g, target, None)
            else if t in g.pushed then call.outcome.None? && call.target == target && call.sent.None?
            else match m
              case Leave => call.outcome.None? && call.target == target && call.sent.None?
              case Abort(cause) =>
                && call.target == target && call.sent.None?
                && call.outcome == Some(if cfg.cooldown > 0 then RetryError(cause, env.failAt + cfg.cooldown)
                                        else Plain(cause))
              case Carry(p, final) =>
                if final != t && StillCooling(cfg, g, env.reassignAt, final) then
                  && call.outcome == Some(RetryError(InCooldown, g.failed[final] + cfg.cooldown))
                  && call.target == target && call.sent.None?
                else if final in g.pushed then call.outcome.None? && call.target == target && call.sent.None?
                else
                  && Arrival(cfg, env, g, t, m).Arrived?
                  && call == Conclude(cfg, env, Arrival(cfg, env, g, t, m).gate, target, final, p)
  {
    EnteredArrives(cfg, env, g, target, t, m);
  }
}
