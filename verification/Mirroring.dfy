/** One Mirror call: from the source reference to a claim, a pull, a decision and a push.

    Registries are stores; library calls (reference parsing, hashing, the platform choice made
    inside an image pull) are functions of the configuration; every read and write may fail,
    as the environment of the call says. */
module Mirroring {
  import opened Text
  import opened Refs
  import opened Gate
  import opened Registry
  import opened Selection
  import opened Platforms
  import opened RepoNames
  import Exclusions
  import Retry

  /** A parsed source; for a digest source `plainTag` is what the part before `@` reads as. */
  datatype Source =
    | ByTag(registry: string, repo: string, tag: string)
    | ByDigest(registry: string, repo: string, digest: Digest, plainTag: Option<string>)

  datatype Library = Library(
    parse: string -> Option<Source>,
    validTarget: Ref -> bool,
    digestReference: string -> Option<(string, Digest)>,
    isHash: string -> bool,
    hash: Object -> Digest,
    shortDigest: string -> string,
    childForPlatform: (seq<Descriptor>, Option<Platform>) -> nat)

  /** Whether repositories of the target have to exist before a push, whether missing ones are
      created, and whether a policy is then attached to them. */
  datatype Repositories = Implicit | Managed(create: bool, policy: bool)

  datatype Config = Config(
    cooldown: int, dryRun: bool, dryPull: bool, pullByDigest: bool, ignoredTags: set<string>,
    allowRepush: bool, mirrorPlatforms: seq<Spec>, excluded: seq<string>, rules: seq<Rule>,
    template: string, attempts: int, backoff: int, repositories: Repositories, lib: Library)

  /** What a push attempt left behind, and the error it reported, if any. */
  datatype Landed = Nothing | PartsOnly | Everything
  datatype Attempt = Attempt(landed: Landed, error: Option<Retry.Failure>)

  datatype Env = Env(
    beginAt: int, reassignAt: int, failAt: int,
    authFails: bool, podHeadFails: bool, preTargetHeadFails: bool, preSourceHeadFails: bool,
    getFails: bool, indexFails: bool, imageFails: bool, manifestFails: bool,
    entryHeadFails: Digest -> bool, entryFetchFails: Digest -> bool, entryLoadFails: Digest -> bool,
    archFails: bool, digestFails: bool, targetHeadFails: bool,
    describeFails: bool, createFails: bool, policyFails: bool,
    attempt: nat -> Attempt, interrupted: nat -> bool)

  datatype Cause =
    | ParseSource | ParseTarget | InCooldown | Auth | Describe | LoadIndex | FilterIndex | ResolvePlatform
    | PullImage | ReadDigest | DigestMismatch | CheckTarget | EnsureRepository | PushFailed

  datatype MirrorError = Plain(cause: Cause) | RetryError(cause: Cause, retryAt: int)

  type Outcome = Option<MirrorError>

  // ---- References ----

  function ContextName(s: Source): string { s.registry + "/" + s.repo }

  function SourceRef(s: Source): Ref {
    match s
    case ByTag(_, _, tag) => Tagged(ContextName(s), tag)
    case ByDigest(_, _, digest, _) => Pinned(ContextName(s), digest)
  }

  function BuildTarget(lib: Library, s: Source, repo: string): Option<Ref> {
    var r := match s
      case ByTag(_, _, tag) => Tagged(repo, tag)
      case ByDigest(_, _, digest, tag) => if tag.Some? then Tagged(repo, tag.value) else Pinned(repo, digest);
    if lib.validTarget(r) then Some(r) else None
  }

  /** The digest reference that a pod's image ID names. */
  function PodReference(lib: Library, imageID: string, s: Source): Option<Ref> {
    var id := NormalizeImageID(imageID);
    if id == "" then None
    else if '@' in id then
      match lib.digestReference(id)
      case None => None
      case Some(p) => Some(Pinned(p.0, p.1))
    else if lib.isHash(id) then Some(Pinned(ContextName(s), id))
    else None
  }

  predicate UsesPodDigest(cfg: Config, s: Source) {
    cfg.pullByDigest && !(s.ByTag? && Lower(TrimSpace(s.tag)) in cfg.ignoredTags)
  }

  function PodRef(cfg: Config, s: Source, meta: Metadata): Option<Ref> {
    var id := NormalizeImageID(meta.imageID);
    if UsesPodDigest(cfg, s) && id != "" then PodReference(cfg.lib, id, s) else None
  }

  function PullRef(cfg: Config, s: Source, meta: Metadata): Ref {
    var pod := PodRef(cfg, s, meta);
    if pod.Some? then pod.value else SourceRef(s)
  }

  function WithRegistry(meta: Metadata, s: Source): Metadata {
    if meta.registry != "" then meta
    else meta.(registry := if s.registry == "index.docker.io" then "docker.io" else s.registry)
  }

  function RepoFor(cfg: Config, s: Source, meta: Metadata): string {
    ResolveRepoPath(cfg.rules, cfg.template, s.repo, meta, cfg.lib.shortDigest)
  }

  // ---- Platforms of a call ----

  function MetaPlatform(meta: Metadata): Option<Platform> {
    var arch, os := TrimSpace(meta.arch), TrimSpace(meta.os);
    if arch == "" then None else Some(Platform(arch, if os == "" then "linux" else os))
  }

  function Desired(cfg: Config, meta: Metadata): seq<Spec> {
    DesiredPlatforms(MetaPlatform(meta), cfg.mirrorPlatforms)
  }

  function Primary(cfg: Config, meta: Metadata): Option<Platform> {
    var desired := Desired(cfg, meta);
    if desired == [] then MetaPlatform(meta) else ToPlatform(desired[0])
  }

  function Requested(cfg: Config, meta: Metadata): Option<Platform> {
    if |Desired(cfg, meta)| > 1 then None else Primary(cfg, meta)
  }

  // ---- Shortcuts taken before the pull ----

  function ReadHead(fails: bool, s: Store, r: Ref): Read<Digest> {
    if fails then Broken else Head(s, r)
  }

  /** The pod's digest is already in the target repository, under whatever tag. */
  predicate PodDigestPresent(cfg: Config, env: Env, target: Store, t: Ref, pod: Option<Ref>) {
    && pod.Some? && pod.value.Pinned?
    && var r := if t.Pinned? && EqualFold(t.digest, pod.value.digest) then t else Pinned(t.repo, pod.value.digest);
       (r == t || cfg.lib.validTarget(r)) && ReadHead(env.podHeadFails, target, r).Found?
  }

  /** A digest source whose target already answers with the same digest. */
  predicate DigestSourcePresent(
      cfg: Config, env: Env, sourceHead: Read<Digest>, target: Store, s: Source, t: Ref, pod: Option<Ref>) {
    && UsesPodDigest(cfg, s) && pod.None? && cfg.mirrorPlatforms == []
    && ReadHead(env.preTargetHeadFails, target, t).Found?
    && !env.preSourceHeadFails
    && sourceHead == Head(target, t)
    && sourceHead != Found("")
  }

  // ---- The pull ----

  /** What a push uploads: the root under the target reference, and the parts below it. */
  datatype Payload = Payload(root: Object, parts: seq<Object>)

  datatype Pulled = DryPulled | PullFailed(cause: Cause) | Got(payload: Payload)

  function ReadEntry(content: Content, repo: string, d: Digest): Option<Object> {
    if (repo, d) in content then Some(content[(repo, d)]) else None
  }

  /** An entry of a filtered index, taken from the target when it is already there. */
  function LoadEntry(
      lib: Library, env: Env, content: Content, pullRepo: string, target: Store, targetRepo: string,
      d: Descriptor): Option<Object> {
    var r := Pinned(targetRepo, d.digest);
    var present := ReadHead(env.entryHeadFails(d.digest), target, r);
    if !lib.validTarget(r) || present.Broken? then None
    else if present.Found? && !env.entryFetchFails(d.digest) then ReadEntry(target.content, targetRepo, d.digest)
    else if env.entryLoadFails(d.digest) then None
    else ReadEntry(content, pullRepo, d.digest)
  }

  function Present(content: Content, repo: string, ms: seq<Descriptor>): seq<Object> {
    if ms == [] then []
    else
      var x := ReadEntry(content, repo, ms[0].digest);
      (if x.Some? then [x.value] else []) + Present(content, repo, ms[1..])
  }

  function WholeIndex(content: Content, repo: string, ms: seq<Descriptor>): Payload {
    Payload(Index(ms), Present(content, repo, ms))
  }

  function FilteredIndex(
      lib: Library, env: Env, content: Content, pullRepo: string, target: Store, targetRepo: string,
      ms: seq<Descriptor>, desired: seq<Spec>): Option<Filtered<Spec, Descriptor, Object>> {
    FilterList(ms, desired, Candidate, d => LoadEntry(lib, env, content, pullRepo, target, targetRepo, d))
  }

  function PullFiltered(
      lib: Library, env: Env, content: Content, pullRepo: string, target: Store, targetRepo: string,
      ms: seq<Descriptor>, desired: seq<Spec>): Pulled {
    if env.indexFails then PullFailed(LoadIndex)
    else if env.manifestFails then PullFailed(FilterIndex)
    else match FilteredIndex(lib, env, content, pullRepo, target, targetRepo, ms, desired)
      case None => PullFailed(FilterIndex)
      case Some(f) =>
        if f.matched == [] then Got(WholeIndex(content, pullRepo, ms)) else Got(Payload(Index(f.entries), f.parts))
  }

  /** The image the library resolves for the requested platform, if it can. */
  function ResolvedImage(
      lib: Library, env: Env, content: Content, repo: string, ms: seq<Descriptor>,
      request: Option<Platform>): Option<Object> {
    var k := lib.childForPlatform(ms, request);
    if env.imageFails || k >= |ms| then None
    else
      var x := ReadEntry(content, repo, ms[k].digest);
      if x.Some? && x.value.Image? then x else None
  }

  function PullOneImage(
      lib: Library, env: Env, content: Content, repo: string, ms: seq<Descriptor>, request: Option<Platform>,
      primary: Option<Platform>): Pulled {
    var img := ResolvedImage(lib, env, content, repo, ms, request);
    if img.Some? then Got(Payload(img.value, []))
    else if env.indexFails then PullFailed(LoadIndex)
    else if env.manifestFails then PullFailed(ResolvePlatform)
    else match SelectEntry(ms, primary)
      case None => PullFailed(ResolvePlatform)
      case Some(d) =>
        var x := ReadEntry(content, repo, d.digest);
        if x.Some? && x.value.Image? && !env.entryLoadFails(d.digest)
        then Got(Payload(x.value, []))
        else PullFailed(ResolvePlatform)
  }

  /** The pull once the descriptor is there; `DryPulled` for a dry pull. */
  function PullObject(
      cfg: Config, env: Env, content: Content, obj: Object, pullRepo: string, target: Store, targetRepo: string,
      meta: Metadata): Pulled {
    if cfg.dryPull then DryPulled
    else match obj
      case Image(_, _) => if env.imageFails then PullFailed(PullImage) else Got(Payload(obj, []))
      case Index(ms) =>
        if cfg.pullByDigest && |Desired(cfg, meta)| > 1
        then PullFiltered(cfg.lib, env, content, pullRepo, target, targetRepo, ms, Desired(cfg, meta))
        else if !cfg.pullByDigest || Primary(cfg, meta).None? then
          if env.indexFails then PullFailed(LoadIndex) else Got(WholeIndex(content, pullRepo, ms))
        else PullOneImage(cfg.lib, env, content, pullRepo, ms, Requested(cfg, meta), Primary(cfg, meta))
  }

  /** The whole pull, from the answer to the request for the descriptor. */
  function Pull(
      cfg: Config, env: Env, content: Content, described: Read<Object>, pullRepo: string, target: Store,
      targetRepo: string, meta: Metadata): Pulled {
    if env.getFails || !described.Found? then PullFailed(Describe)
    else PullObject(cfg, env, content, described.value, pullRepo, target, targetRepo, meta)
  }

  /** The architecture of what was pulled; `archFails` when its manifest or config cannot be
      read, which is not reported. */
  function ArchOf(env: Env, p: Payload): string {
    match p.root
    case Index(ms) => if env.archFails then "multiarch" else IndexLabel(ms)
    case Image(arch, _) => if env.archFails then "" else TrimSpace(arch)
  }

  /** The repository under which the payload belongs once its architecture is known. */
  function FinalRepo(cfg: Config, env: Env, s: Source, meta: Metadata, p: Payload): string {
    var arch := ArchOf(env, p);
    RepoFor(cfg, s, if arch == "" then meta else meta.(arch := arch))
  }

  // ---- From the claim to the final target ----

  datatype Middle =
    | Leave
    | Abort(cause: Cause)
    | Carry(payload: Payload, final: Ref)

  /** From the claim on: `present` tells that a shortcut applies, `got` is what the pull yields
      if it is reached, `repo` the repository of `t`, and `final` the one for a payload. */
  function Process(
      lib: Library, authFails: bool, present: bool, got: Pulled, s: Source, t: Ref, repo: string,
      final: Payload -> string): Middle {
    if authFails then Abort(Auth)
    else if present then Leave
    else match got
      case DryPulled => Leave
      case PullFailed(cause) => Abort(cause)
      case Got(p) => Retarget(lib, s, t, p, repo, final(p))
  }

  /** The target moves only when the architecture changes the repository. */
  function Retarget(lib: Library, s: Source, t: Ref, p: Payload, repo: string, newRepo: string): Middle {
    if newRepo == repo then Carry(p, t)
    else match BuildTarget(lib, s, newRepo)
      case None => Abort(ParseTarget)
      case Some(t') => Carry(p, t')
  }

  // ---- The decision at the final target ----

  datatype Last = Settled | Refuse(cause: Cause) | Write

  predicate Overwritable(cfg: Config, t: Ref) {
    t.Pinned? || EqualFold(t.tag, "latest") || cfg.allowRepush
  }

  function Decide(cfg: Config, env: Env, target: Store, t: Ref, d: Digest): Last {
    if env.digestFails then Refuse(ReadDigest)
    else match ReadHead(env.targetHeadFails, target, t)
      case Broken => Refuse(CheckTarget)
      case Found(d') =>
        if d' == d then Settled
        else if !Overwritable(cfg, t) then Refuse(DigestMismatch)
        else Write
      case Missing => Write
  }

  datatype Ensured = Ensured(ok: bool, target: Store)

  /** Makes sure that the repository exists; it may be created and the call fail nevertheless. */
  function Ensure(cfg: Config, env: Env, target: Store, repo: string): Ensured {
    match cfg.repositories
    case Implicit => Ensured(true, target)
    case Managed(create, policy) =>
      if env.describeFails then Ensured(false, target)
      else if repo in target.repos then Ensured(true, target)
      else if !create || env.createFails then Ensured(false, target)
      else Ensured(!(policy && env.policyFails), target.(repos := target.repos + {repo}))
  }

  // ---- The push ----

  function Upload(target: Store, repo: string, hash: Object -> Digest, objs: seq<Object>): Store
    decreases |objs|
  {
    if objs == [] then target
    else Upload(target.(content := target.content[(repo, hash(objs[0])) := objs[0]]), repo, hash, objs[1..])
  }

  /** A registry refuses to store an object under a digest that is not its own. */
  predicate Acceptable(lib: Library, t: Ref, p: Payload) {
    t.Pinned? ==> t.digest == lib.hash(p.root)
  }

  /** What attempt `k` leaves at the target; one that reports success has landed entirely. */
  function Land(lib: Library, target: Store, t: Ref, p: Payload, a: Attempt): Store {
    if a.error.None? || (a.landed.Everything? && Acceptable(lib, t, p)) then
      var s := Upload(target, t.repo, lib.hash, p.parts + [p.root]);
      if t.Tagged? then s.(tags := s.tags[t := lib.hash(p.root)]) else s
    else if a.landed.Nothing? then target
    else Upload(target, t.repo, lib.hash, p.parts)
  }

  const REFUSED := Retry.Failure(false, false, false, Some(400), None, "")

  /** The `k`-th attempt as the target registry answers it. */
  function AttemptAt(lib: Library, env: Env, t: Ref, p: Payload, k: nat): Attempt {
    var a := env.attempt(k);
    if a.error.None? && !Acceptable(lib, t, p) then Attempt(PartsOnly, Some(REFUSED)) else a
  }

  function LandAll(lib: Library, env: Env, target: Store, t: Ref, p: Payload, n: nat): Store {
    if n == 0 then target else Land(lib, LandAll(lib, env, target, t, p, n - 1), t, p, AttemptAt(lib, env, t, p, n))
  }

  /** The error each attempt reports. */
  function Errors(lib: Library, env: Env, t: Ref, p: Payload): nat -> Option<Retry.Failure> {
    (k: nat) => AttemptAt(lib, env, t, p, k).error
  }

  function PushRun(cfg: Config, env: Env, t: Ref, p: Payload): Retry.Run {
    Retry.RunFrom(Retry.Attempts(cfg.attempts), cfg.backoff, Errors(cfg.lib, env, t, p), env.interrupted, 1)
  }

  // ---- The whole call ----

  /** `sent` is what the call tried to push, and where. */
  datatype Call = Call(outcome: Outcome, gate: GateState, target: Store, sent: Option<(Ref, Payload)>)

  /** The error of a failure that was stamped `at`. */
  function FailureError(cfg: Config, at: int, cause: Cause): MirrorError {
    if cfg.cooldown > 0 then RetryError(cause, at + cfg.cooldown) else Plain(cause)
  }

  /** `failureResult` followed by the deferred release. */
  function Failing(
      cfg: Config, env: Env, g: GateState, target: Store, t: Ref, cause: Cause, sent: Option<(Ref, Payload)>): Call {
    Call(Some(FailureError(cfg, env.failAt, cause)), Finish(Fail(g, cfg.cooldown, env.failAt, t), t), target, sent)
  }

  function Conclude(cfg: Config, env: Env, g: GateState, target: Store, t: Ref, p: Payload): Call {
    match Decide(cfg, env, target, t, cfg.lib.hash(p.root))
    case Refuse(cause) => Failing(cfg, env, g, target, t, cause, None)
    case Settled => Call(None, Finish(g, t), target, None)
    case Write =>
      var e := Ensure(cfg, env, target, t.repo);
      if !e.ok then Failing(cfg, env, g, e.target, t, EnsureRepository, None)
      else if cfg.dryRun then Call(None, Finish(g, t), e.target, None)
      else Push(cfg, env, g, e.target, t, p)
  }

  function Push(cfg: Config, env: Env, g: GateState, target: Store, t: Ref, p: Payload): Call {
    var run := PushRun(cfg, env, t, p);
    var after := LandAll(cfg.lib, env, target, t, p, run.calls);
    if run.result.Done? then Call(None, Finish(g, t), after, Some((t, p)))
    else Failing(cfg, env, g, after, t, PushFailed, Some((t, p)))
  }

  function Admitted(cfg: Config, env: Env, g: GateState, target: Store, t: Ref, m: Middle): Call {
    match m
    case Leave => Call(None, Finish(g, t), target, None)
    case Abort(cause) => Failing(cfg, env, g, target, t, cause, None)
    case Carry(p, final) =>
      if final == t then Conclude(cfg, env, g, target, t, p)
      else
        var r := Reassign(g, cfg.cooldown, env.reassignAt, t, final);
        match r.verdict
        case Reject(at) => Call(Some(RetryError(InCooldown, at)), Finish(r.gate, t), target, None)
        case Skip => Call(None, Finish(r.gate, t), target, None)
        case Admit => Conclude(cfg, env, r.gate, target, final, p)
  }

  /** Where a call stands before it asks to be admitted. */
  datatype Start = Quit(outcome: Outcome) | Enter(s: Source, meta: Metadata, t: Ref)

  /** A tag source whose digest is wanted but not known yet is left for a later call. */
  function Located(cfg: Config, s: Source, meta: Metadata, built: Option<Ref>): Start {
    match built
    case None => Quit(Some(Plain(ParseTarget)))
    case Some(t) =>
      if UsesPodDigest(cfg, s) && PodRef(cfg, s, meta).None? && s.ByTag? then Quit(None)
      else Enter(s, meta, t)
  }

  function StartOf(cfg: Config, src: string, meta: Metadata): Start {
    if Exclusions.MatchExcluded(cfg.excluded, src).Some? then Quit(None)
    else match cfg.lib.parse(src)
      case None => Quit(Some(Plain(ParseSource)))
      case Some(s) =>
        var full := WithRegistry(meta, s);
        Located(cfg, s, full, BuildTarget(cfg.lib, s, RepoFor(cfg, s, full)))
  }

  /** One of the two shortcuts applies. */
  predicate AlreadyPresent(cfg: Config, env: Env, source: Store, target: Store, s: Source, meta: Metadata, t: Ref) {
    var pod := PodRef(cfg, s, meta);
    PodDigestPresent(cfg, env, target, t, pod)
        || DigestSourcePresent(cfg, env, Head(source, PullRef(cfg, s, meta)), target, s, t, pod)
  }

  function PullOf(cfg: Config, env: Env, source: Store, target: Store, s: Source, meta: Metadata, t: Ref): Pulled {
    var pull := PullRef(cfg, s, meta);
    Pull(cfg, env, source.content, Get(source, pull), pull.repo, target, t.repo, meta)
  }

  function FinalRepoOf(cfg: Config, env: Env, s: Source, meta: Metadata): Payload -> string {
    p => FinalRepo(cfg, env, s, meta, p)
  }

  /** The middle part of a call, given the source registry. */
  function MiddleOf(cfg: Config, env: Env, source: Store, target: Store, s: Source, meta: Metadata, t: Ref): Middle {
    Process(cfg.lib, env.authFails, AlreadyPresent(cfg, env, source, target, s, meta, t),
        PullOf(cfg, env, source, target, s, meta, t),
            s, t, RepoFor(cfg, s, meta), FinalRepoOf(cfg, env, s, meta))
  }

  /** A call from its request for admission on; `m` is what it does once admitted. */
  function Entered(cfg: Config, env: Env, g: GateState, target: Store, t: Ref, m: Middle): Call {
    var r := Begin(g, cfg.cooldown, env.beginAt, t);
    match r.verdict
    case Reject(at) => Call(Some(RetryError(InCooldown, at)), r.gate, target, None)
    case Skip => Call(None, r.gate, target, None)
    case Admit => Admitted(cfg, env, r.gate, target, t, m)
  }

  function Mirror(
      cfg: Config, env: Env, source: Store, g: GateState, target: Store, src: string, meta: Metadata): Call {
    match StartOf(cfg, src, meta)
    case Quit(outcome) => Call(outcome, g, target, None)
    case Enter(s, full, t) => Entered(cfg, env, g, target, t, MiddleOf(cfg, env, source, target, s, full, t))
  }

  /** A request: what is mirrored, from where, and what happens to its reads and writes. */
  datatype Job = Job(src: string, meta: Metadata, env: Env, source: Store) {
    function Run(cfg: Config, g: GateState, target: Store): Call { Mirror(cfg, env, source, g, target, src, meta) }
  }
}
