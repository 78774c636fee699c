/** What holds of every Mirror call. */
module MirrorFacts {
  import opened Text
  import opened Refs
  import opened Gate
  import opened Registry
  import opened Selection
  import opened Platforms
  import opened RepoNames
  import opened Mirroring
  import opened Starts
  import Exclusions
  import Retry

  // ---- Where a call arrives ----

  /** Where a call decides about its final target: the tables then, that target, the payload. */
  datatype Arrived = Nowhere | Arrived(gate: GateState, final: Ref, payload: Payload)

  function Arrival(cfg: Config, env: Env, g: GateState, t: Ref, m: Middle): Arrived {
    var r := Begin(g, cfg.cooldown, env.beginAt, t);
    if !r.verdict.Admit? || !m.Carry? then Nowhere
    else if m.final == t then Arrived(r.gate, t, m.payload)
    else
      var moved := Reassign(r.gate, cfg.cooldown, env.reassignAt, t, m.final);
      if moved.verdict.Admit? then Arrived(moved.gate, m.final, m.payload) else Nowhere
  }

  function ArrivalOf(
      cfg: Config, env: Env, source: Store, g: GateState, target: Store, src: string, meta: Metadata): Arrived {
    match StartOf(cfg, src, meta)
    case Quit(_) => Nowhere
    case Enter(s, full, t) => Arrival(cfg, env, g, t, MiddleOf(cfg, env, source, target, s, full, t))
  }

  lemma EnteredArrives(cfg: Config, env: Env, g: GateState, target: Store, t: Ref, m: Middle)
    ensures var call := Entered(cfg, env, g, target, t, m);
            match Arrival(cfg, env, g, t, m)
            case Nowhere => call.target == target && call.sent.None?
            case Arrived(g', final, p) => m == Carry(p, final) && call == Conclude(cfg, env, g', target, final, p)
  {
  }

  /** A call that arrives nowhere writes nothing; one that arrives ends as its last part does. */
  lemma MirrorArrives(cfg: Config, env: Env, source: Store, g: GateState, target: Store, src: string, meta: Metadata)
    ensures var call := Mirror(cfg, env, source, g, target, src, meta);
            match ArrivalOf(cfg, env, source, g, target, src, meta)
            case Nowhere => call.target == target && call.sent.None?
            case Arrived(g', final, p) => call == Conclude(cfg, env, g', target, final, p)
  {
    match StartOf(cfg, src, meta)
    case Quit(_) =>
    case Enter(s, full, t) => EnteredArrives(cfg, env, g, target, t, MiddleOf(cfg, env, source, target, s, full, t));
  }

  // ---- Digest pull does not look at source tags ----

  lemma SameContentSameMiddle(
      cfg: Config, env: Env, a: Store, b: Store, target: Store, s: Source, meta: Metadata, t: Ref)
    requires a.content == b.content && PullRef(cfg, s, meta).Pinned?
    ensures MiddleOf(cfg, env, a, target, s, meta, t) == MiddleOf(cfg, env, b, target, s, meta, t)
  {
    var pull := PullRef(cfg, s, meta);
    assert Head(a, pull) == Head(b, pull) && Get(a, pull) == Get(b, pull);
  }

  lemma LocatedPinned(cfg: Config, s: Source, meta: Metadata, built: Option<Ref>)
    ensures var start := Located(cfg, s, meta, built);
            start.Enter? ==>
              && start == Enter(s, meta, start.t) && built == Some(start.t)
              && (UsesPodDigest(cfg, s) ==> PullRef(cfg, s, meta).Pinned?)
  {
  }

  /** What is known of a call that asks to be admitted. */
  lemma StartFacts(cfg: Config, src: string, meta: Metadata)
    ensures var start := StartOf(cfg, src, meta);
            start.Enter? ==>
              && cfg.lib.parse(src) == Some(start.s)
              && BuildTarget(cfg.lib, start.s, RepoFor(cfg, start.s, start.meta)) == Some(start.t)
              && (UsesPodDigest(cfg, start.s) ==> PullRef(cfg, start.s, start.meta).Pinned?)
  {
    match cfg.lib.parse(src)
    case None =>
    case Some(s) =>
      var full := WithRegistry(meta, s);
      LocatedPinned(cfg, s, full, BuildTarget(cfg.lib, s, RepoFor(cfg, s, full)));
  }

  /** With digest pull on and the source tag not ignored, two source registries with the same
      content but different tag tables give the same call: result, claims, target and payload. */
  lemma DigestPullNoninterference(
      cfg: Config, env: Env, a: Store, b: Store, g: GateState, target: Store, src: string, meta: Metadata)
    requires a.content == b.content
    requires cfg.lib.parse(src).Some? ==> WantsDigest(cfg.pullByDigest, cfg.ignoredTags, cfg.lib.parse(src).value)
    ensures Mirror(cfg, env, a, g, target, src, meta) == Mirror(cfg, env, b, g, target, src, meta)
  {
    StartFacts(cfg, src, meta);
    match StartOf(cfg, src, meta)
    case Quit(_) =>
    case Enter(s, full, t) => SameContentSameMiddle(cfg, env, a, b, target, s, full, t);
  }

  // ---- Provenance ----

  /** `root` is the pulled object, a child of the pulled index, or an index of runnable
      entries of the pulled index. */
  ghost predicate ComesFrom(root: Object, pulled: Object, content: Content, repo: string) {
    || root == pulled
    || (pulled.Index? && exists m :: m in pulled.manifests && ReadEntry(content, repo, m.digest) == Some(root))
    || (pulled.Index? && root.Index? && root.manifests != []
        && forall e :: e in root.manifests ==> e in pulled.manifests && Runnable(e))
  }

  /** `x` is stored under the digest of `e`, at the source or at the target. */
  ghost predicate Backs(x: Object, e: Descriptor, content: Content, repo: string, target: Store, targetRepo: string) {
    ReadEntry(content, repo, e.digest) == Some(x) || ReadEntry(target.content, targetRepo, e.digest) == Some(x)
  }

  ghost predicate BacksSome(
      x: Object, ms: seq<Descriptor>, content: Content, repo: string, target: Store, targetRepo: string) {
    exists e :: e in ms && Backs(x, e, content, repo, target, targetRepo)
  }

  ghost predicate Backed(
      e: Descriptor, parts: seq<Object>, content: Content, repo: string, target: Store, targetRepo: string) {
    exists x :: x in parts && Backs(x, e, content, repo, target, targetRepo)
  }

  /** The parts of a payload are what the entries of its root name, and nothing is forgotten
      that the source has. */
  ghost predicate PartsMatch(p: Payload, content: Content, repo: string, target: Store, targetRepo: string) {
    match p.root
    case Image(_, _) => p.parts == []
    case Index(ms) =>
      && (forall x :: x in p.parts ==> BacksSome(x, ms, content, repo, target, targetRepo))
      && (forall e :: e in ms && ReadEntry(content, repo, e.digest).Some? ==>
            Backed(e, p.parts, content, repo, target, targetRepo))
  }

  lemma SelectEntryMember(ms: seq<Descriptor>, platform: Option<Platform>)
    ensures var r := SelectEntry(ms, platform); r.Some? ==> r.value in ms && Runnable(r.value)
  {
  }

  lemma {:induction false} PresentBacked(
      content: Content, repo: string, ms: seq<Descriptor>, target: Store, targetRepo: string)
    ensures PartsMatch(WholeIndex(content, repo, ms), content, repo, target, targetRepo)
  {
    if ms != [] {
      PresentBacked(content, repo, ms[1..], target, targetRepo);
      var parts, rest := Present(content, repo, ms), Present(content, repo, ms[1..]);
      forall x | x in parts ensures BacksSome(x, ms, content, repo, target, targetRepo) {
        if x in rest {
          assert BacksSome(x, ms[1..], content, repo, target, targetRepo);
        } else {
          assert Backs(x, ms[0], content, repo, target, targetRepo);
        }
      }
      forall e | e in ms && ReadEntry(content, repo, e.digest).Some?
        ensures Backed(e, parts, content, repo, target, targetRepo)
      {
        if e == ms[0] {
          assert Backs(parts[0], e, content, repo, target, targetRepo);
        } else {
          assert Backed(e, rest, content, repo, target, targetRepo);
        }
      }
    }
  }

  lemma FilteredEntries(
      lib: Library, env: Env, content: Content, pullRepo: string, target: Store, targetRepo: string,
      ms: seq<Descriptor>, desired: seq<Spec>)
    ensures var f := FilteredIndex(lib, env, content, pullRepo, target, targetRepo, ms, desired);
            f.Some? ==>
              && |f.value.entries| == |f.value.matched| == |f.value.parts|
              && (forall e :: e in f.value.entries ==> e in ms && Runnable(e))
              && (forall i :: 0 <= i < |f.value.parts| ==>
                    Backs(f.value.parts[i], f.value.entries[i], content, pullRepo, target, targetRepo))
  {
    FirstsAreFirst(ms, desired, Candidate);
    LoadAllEach(Firsts(ms, desired, Candidate), d => LoadEntry(lib, env, content, pullRepo, target, targetRepo, d));
  }

  lemma PairwiseBacked(
      entries: seq<Descriptor>, parts: seq<Object>, content: Content, repo: string, target: Store, targetRepo: string)
    requires |entries| == |parts|
    requires forall i :: 0 <= i < |parts| ==> Backs(parts[i], entries[i], content, repo, target, targetRepo)
    ensures PartsMatch(Payload(Index(entries), parts), content, repo, target, targetRepo)
  {
    forall x | x in parts ensures BacksSome(x, entries, content, repo, target, targetRepo) {
      var i :| 0 <= i < |parts| && parts[i] == x;
      assert entries[i] in entries;
    }
    forall e | e in entries ensures Backed(e, parts, content, repo, target, targetRepo) {
      var i :| 0 <= i < |entries| && entries[i] == e;
      assert parts[i] in parts;
    }
  }

  lemma FilteredProvenance(
      lib: Library, env: Env, content: Content, pullRepo: string, target: Store, targetRepo: string,
      ms: seq<Descriptor>, desired: seq<Spec>)
    ensures var r := PullFiltered(lib, env, content, pullRepo, target, targetRepo, ms, desired);
            r.Got? ==>
              && ComesFrom(r.payload.root, Index(ms), content, pullRepo)
              && PartsMatch(r.payload, content, pullRepo, target, targetRepo)
  {
    FilteredEntries(lib, env, content, pullRepo, target, targetRepo, ms, desired);
    PresentBacked(content, pullRepo, ms, target, targetRepo);
    var f := FilteredIndex(lib, env, content, pullRepo, target, targetRepo, ms, desired);
    if f.Some? { PairwiseBacked(f.value.entries, f.value.parts, content, pullRepo, target, targetRepo); }
  }

  lemma OneImageProvenance(
      lib: Library, env: Env, content: Content, repo: string, ms: seq<Descriptor>,
      request: Option<Platform>, primary: Option<Platform>)
    ensures var r := PullOneImage(lib, env, content, repo, ms, request, primary);
            r.Got? ==>
              ComesFrom(r.payload.root, Index(ms), content, repo) && r.payload.root.Image? && r.payload.parts == []
  {
    SelectEntryMember(ms, primary);
    var k, d := lib.childForPlatform(ms, request), SelectEntry(ms, primary);
    var r := PullOneImage(lib, env, content, repo, ms, request, primary);
    if ResolvedImage(lib, env, content, repo, ms, request).Some? {
      assert ms[k] in ms && ReadEntry(content, repo, ms[k].digest) == Some(r.payload.root);
    } else if r.Got? {
      assert d.value in ms && ReadEntry(content, repo, d.value.digest) == Some(r.payload.root);
    }
  }

  lemma PullProvenance(
      cfg: Config, env: Env, content: Content, obj: Object, pullRepo: string, target: Store, targetRepo: string,
      meta: Metadata)
    ensures var r := PullObject(cfg, env, content, obj, pullRepo, target, targetRepo, meta);
            r.Got? ==>
              && ComesFrom(r.payload.root, obj, content, pullRepo)
              && PartsMatch(r.payload, content, pullRepo, target, targetRepo)
              && !cfg.dryPull
  {
    if obj.Index? {
      var ms := obj.manifests;
      FilteredProvenance(cfg.lib, env, content, pullRepo, target, targetRepo, ms, Desired(cfg, meta));
      OneImageProvenance(cfg.lib, env, content, pullRepo, ms, Requested(cfg, meta), Primary(cfg, meta));
      PresentBacked(content, pullRepo, ms, target, targetRepo);
    }
  }

  lemma ConcludeSent(cfg: Config, env: Env, g: GateState, target: Store, t: Ref, p: Payload)
    ensures var call := Conclude(cfg, env, g, target, t, p);
            && (call.sent.Some? ==> call.sent.value == (t, p) && !cfg.dryRun)
            && (call.sent.None? ==> call.target.content == target.content && call.target.tags == target.tags)
  {
  }

  lemma ProcessCarries(
      lib: Library, authFails: bool, present: bool, got: Pulled, s: Source, t: Ref, repo: string,
      final: Payload -> string)
    requires BuildTarget(lib, s, repo) == Some(t)
    ensures var m := Process(lib, authFails, present, got, s, t, repo, final);
            m.Carry? ==> got == Got(m.payload) && BuildTarget(lib, s, final(m.payload)) == Some(m.final)
  {
  }

  /** What a call carries on is what it pulled, on its way to the target for its architecture. */
  lemma MiddleCarries(cfg: Config, env: Env, source: Store, target: Store, s: Source, meta: Metadata, t: Ref)
    requires BuildTarget(cfg.lib, s, RepoFor(cfg, s, meta)) == Some(t)
    ensures var m := MiddleOf(cfg, env, source, target, s, meta, t);
            m.Carry? ==>
              && PullOf(cfg, env, source, target, s, meta, t) == Got(m.payload)
              && BuildTarget(cfg.lib, s, FinalRepo(cfg, env, s, meta, m.payload)) == Some(m.final)
  {
    ProcessCarries(cfg.lib, env.authFails, AlreadyPresent(cfg, env, source, target, s, meta, t),
                   PullOf(cfg, env, source, target, s, meta, t), s, t, RepoFor(cfg, s, meta),
                   FinalRepoOf(cfg, env, s, meta));
  }

  lemma MiddleProvenance(cfg: Config, env: Env, source: Store, target: Store, s: Source, meta: Metadata, t: Ref)
    requires BuildTarget(cfg.lib, s, RepoFor(cfg, s, meta)) == Some(t)
    ensures var m := MiddleOf(cfg, env, source, target, s, meta, t);
            var pull := PullRef(cfg, s, meta);
            m.Carry? ==>
              && Get(source, pull).Found? && !cfg.dryPull
              && ComesFrom(m.payload.root, Get(source, pull).value, source.content, pull.repo)
              && PartsMatch(m.payload, source.content, pull.repo, target, t.repo)
  {
    var pull := PullRef(cfg, s, meta);
    MiddleCarries(cfg, env, source, target, s, meta, t);
    if Get(source, pull).Found? {
      PullProvenance(cfg, env, source.content, Get(source, pull).value, pull.repo, target, t.repo, meta);
    }
  }

  /** Whatever a call tries to push, its root is the object that its pull reference names at the
      source, a child of it, or an index of runnable entries of it; its parts are the objects
      stored under the digests of the entries of that root; and it goes to the target built for
      the architecture of that very payload. */
  lemma Provenance(cfg: Config, env: Env, source: Store, g: GateState, target: Store, src: string, meta: Metadata)
    ensures var call := Mirror(cfg, env, source, g, target, src, meta);
            call.sent.Some? ==>
              && StartOf(cfg, src, meta).Enter?
              && var start := StartOf(cfg, src, meta);
                 var pull := PullRef(cfg, start.s, start.meta);
                 var (t, p) := call.sent.value;
                 && Get(source, pull).Found?
                 && ComesFrom(p.root, Get(source, pull).value, source.content, pull.repo)
                 && PartsMatch(p, source.content, pull.repo, target, start.t.repo)
                 && !cfg.dryRun && !cfg.dryPull
                 && BuildTarget(cfg.lib, start.s, FinalRepo(cfg, env, start.s, start.meta, p)) == Some(t)
  {
    StartFacts(cfg, src, meta);
    match StartOf(cfg, src, meta)
    case Quit(_) =>
    case Enter(s, full, t) =>
      var m := MiddleOf(cfg, env, source, target, s, full, t);
      MiddleCarries(cfg, env, source, target, s, full, t);
      MiddleProvenance(cfg, env, source, target, s, full, t);
      EnteredArrives(cfg, env, g, target, t, m);
      match Arrival(cfg, env, g, t, m)
      case Nowhere =>
      case Arrived(g', final, p) => ConcludeSent(cfg, env, g', target, final, p);
  }

  // ---- Content addressing is kept ----

  lemma {:induction false} UploadAddressed(target: Store, repo: string, hash: Object -> Digest, objs: seq<Object>)
    requires Addressed(target.content, hash)
    ensures Addressed(Upload(target, repo, hash, objs).content, hash)
    decreases |objs|
  {
    if objs != [] {
      UploadAddressed(target.(content := target.content[(repo, hash(objs[0])) := objs[0]]), repo, hash, objs[1..]);
    }
  }

  lemma {:induction false} LandAllAddressed(lib: Library, env: Env, target: Store, t: Ref, p: Payload, n: nat)
    requires Addressed(target.content, lib.hash)
    ensures Addressed(LandAll(lib, env, target, t, p, n).content, lib.hash)
  {
    if n > 0 {
      LandAllAddressed(lib, env, target, t, p, n - 1);
      var before := LandAll(lib, env, target, t, p, n - 1);
      UploadAddressed(before, t.repo, lib.hash, p.parts + [p.root]);
      UploadAddressed(before, t.repo, lib.hash, p.parts);
    }
  }

  lemma ConcludeAddressed(cfg: Config, env: Env, g: GateState, target: Store, t: Ref, p: Payload)
    requires Addressed(target.content, cfg.lib.hash)
    ensures Addressed(Conclude(cfg, env, g, target, t, p).target.content, cfg.lib.hash)
  {
    LandAllAddressed(cfg.lib, env, Ensure(cfg, env, target, t.repo).target, t, p, PushRun(cfg, env, t, p).calls);
  }

  /** A call keeps every object of the target under its own digest, whatever its push attempts
      leave behind. */
  lemma TargetStaysAddressed(
      cfg: Config, env: Env, source: Store, g: GateState, target: Store, src: string, meta: Metadata)
    requires Addressed(target.content, cfg.lib.hash)
    ensures Addressed(Mirror(cfg, env, source, g, target, src, meta).target.content, cfg.lib.hash)
  {
    MirrorArrives(cfg, env, source, g, target, src, meta);
    match ArrivalOf(cfg, env, source, g, target, src, meta)
    case Nowhere =>
    case Arrived(g', final, p) => ConcludeAddressed(cfg, env, g', target, final, p);
  }

  lemma LoadedUnderDigest(
      lib: Library, env: Env, content: Content, pullRepo: string, target: Store, targetRepo: string, d: Descriptor)
    requires Addressed(content, lib.hash) && Addressed(target.content, lib.hash)
    ensures var x := LoadEntry(lib, env, content, pullRepo, target, targetRepo, d);
            x.Some? ==> lib.hash(x.value) == d.digest
  {
  }

  /** Taking entries from the target by digest yields the same filtered index, parts included,
      as taking them from the source. */
  lemma FilterFromTargetSame(
      lib: Library, env: Env, env': Env, content: Content, target: Store, target': Store, pullRepo: string,
      targetRepo: string, ms: seq<Descriptor>, desired: seq<Spec>)
    requires Addressed(content, lib.hash) && CollisionFree(lib.hash)
    requires Addressed(target.content, lib.hash) && Addressed(target'.content, lib.hash)
    ensures var a := FilteredIndex(lib, env, content, pullRepo, target, targetRepo, ms, desired);
            var b := FilteredIndex(lib, env', content, pullRepo, target', targetRepo, ms, desired);
            a.Some? && b.Some? ==> a == b
  {
    var ds := Firsts(ms, desired, Candidate);
    var f := (d: Descriptor) => LoadEntry(lib, env, content, pullRepo, target, targetRepo, d);
    var h := (d: Descriptor) => LoadEntry(lib, env', content, pullRepo, target', targetRepo, d);
    forall d | d in ds && f(d).Some? && h(d).Some? ensures f(d) == h(d) {
      LoadedUnderDigest(lib, env, content, pullRepo, target, targetRepo, d);
      LoadedUnderDigest(lib, env', content, pullRepo, target', targetRepo, d);
    }
    SameLoads(ds, f, h);
  }

  // ---- Repositories ----

  /** The digest check lets the call go on to write `d` under `t`. */
  predicate Writes(cfg: Config, target: Store, t: Ref, d: Digest) {
    Head(target, t) != Found(d) && (Head(target, t).Found? ==> Overwritable(cfg, t))
  }

  /** A missing repository is created when it is ensured. */
  predicate Creates(cfg: Config, env: Env, target: Store, repo: string) {
    cfg.repositories.Managed? && cfg.repositories.create && repo !in target.repos && !env.describeFails
        && !env.createFails
  }

  lemma {:induction false} UploadRepos(target: Store, repo: string, hash: Object -> Digest, objs: seq<Object>)
    ensures Upload(target, repo, hash, objs).repos == target.repos
    decreases |objs|
  {
    if objs != [] {
      UploadRepos(target.(content := target.content[(repo, hash(objs[0])) := objs[0]]), repo, hash, objs[1..]);
    }
  }

  lemma {:induction false} LandAllRepos(lib: Library, env: Env, target: Store, t: Ref, p: Payload, n: nat)
    ensures LandAll(lib, env, target, t, p, n).repos == target.repos
  {
    if n > 0 {
      LandAllRepos(lib, env, target, t, p, n - 1);
      var before := LandAll(lib, env, target, t, p, n - 1);
      UploadRepos(before, t.repo, lib.hash, p.parts + [p.root]);
      UploadRepos(before, t.repo, lib.hash, p.parts);
    }
  }

  lemma ConcludeRepos(cfg: Config, env: Env, g: GateState, target: Store, t: Ref, p: Payload)
    ensures var reached := !env.digestFails && !env.targetHeadFails && Writes(cfg, target, t, cfg.lib.hash(p.root));
            Conclude(cfg, env, g, target, t, p).target.repos ==
            if reached && Creates(cfg, env, target, t.repo) then target.repos + {t.repo} else target.repos
  {
    assert !Head(target, t).Broken?;
    LandAllRepos(cfg.lib, env, Ensure(cfg, env, target, t.repo).target, t, p, PushRun(cfg, env, t, p).calls);
  }

  /** Exactly when a call creates a repository, in a dry run as well: it arrives at a final
      target that is missing or holds another digest and may be overwritten, and the repository
      is missing and can be created.  No call creates any other repository or removes one. */
  lemma RepositoryCreated(
      cfg: Config, env: Env, source: Store, g: GateState, target: Store, src: string, meta: Metadata)
    ensures var call := Mirror(cfg, env, source, g, target, src, meta);
            match ArrivalOf(cfg, env, source, g, target, src, meta)
            case Nowhere => call.target.repos == target.repos
            case Arrived(_, final, p) =>
              var reached := !env.digestFails && !env.targetHeadFails
                  && Writes(cfg, target, final, cfg.lib.hash(p.root));
              call.target.repos ==
              if reached && Creates(cfg, env, target, final.repo) then target.repos + {final.repo} else target.repos
  {
    MirrorArrives(cfg, env, source, g, target, src, meta);
    match ArrivalOf(cfg, env, source, g, target, src, meta)
    case Nowhere =>
    case Arrived(g', final, p) => ConcludeRepos(cfg, env, g', target, final, p);
  }

  // ---- Claims and writes of a call on its own ----

  lemma ConcludeClaims(cfg: Config, env: Env, g: GateState, target: Store, t: Ref, p: Payload)
    ensures Conclude(cfg, env, g, target, t, p).gate.pushed == g.pushed - {t}
  {
  }

  lemma EnteredClaims(cfg: Config, env: Env, g: GateState, target: Store, t: Ref, m: Middle)
    ensures Entered(cfg, env, g, target, t, m).gate.pushed == g.pushed
  {
    var r := Begin(g, cfg.cooldown, env.beginAt, t);
    if m.Carry? {
      ConcludeClaims(cfg, env, r.gate, target, t, m.payload);
      ConcludeClaims(cfg, env, Reassign(r.gate, cfg.cooldown, env.reassignAt, t, m.final).gate, target, m.final,
          m.payload);
    }
  }

  /** A call on its own leaves the claims exactly as it found them, whichever way it ends; it
      writes neither an object nor a tag unless it reaches a push; and a dry call reaches none. */
  lemma CallBalance(cfg: Config, env: Env, source: Store, g: GateState, target: Store, src: string, meta: Metadata)
    ensures var call := Mirror(cfg, env, source, g, target, src, meta);
            && call.gate.pushed == g.pushed
            && (call.sent.None? ==> call.target.content == target.content && call.target.tags == target.tags)
            && (cfg.dryRun || cfg.dryPull ==> call.sent.None?)
  {
    Provenance(cfg, env, source, g, target, src, meta);
    MirrorArrives(cfg, env, source, g, target, src, meta);
    match ArrivalOf(cfg, env, source, g, target, src, meta) {
      case Nowhere =>
      case Arrived(g', final, p) => ConcludeSent(cfg, env, g', target, final, p);
    }
    match StartOf(cfg, src, meta)
    case Quit(_) =>
    case Enter(s, full, t) => EnteredClaims(cfg, env, g, target, t, MiddleOf(cfg, env, source, target, s, full, t));
  }

  // ---- What an outcome says ----

  lemma {:induction false} UploadKeeps(target: Store, repo: string, hash: Object -> Digest, objs: seq<Object>)
    ensures Upload(target, repo, hash, objs).tags == target.tags
    ensures target.content.Keys <= Upload(target, repo, hash, objs).content.Keys
    ensures objs != [] ==> (repo, hash(objs[|objs| - 1])) in Upload(target, repo, hash, objs).content
    decreases |objs|
  {
    if objs != [] {
      UploadKeeps(target.(content := target.content[(repo, hash(objs[0])) := objs[0]]), repo, hash, objs[1..]);
    }
  }

  lemma {:induction false} LandAllTags(lib: Library, env: Env, target: Store, t: Ref, p: Payload, n: nat)
    ensures var tags := LandAll(lib, env, target, t, p, n).tags;
            tags == target.tags || (t.Tagged? && tags == target.tags[t := lib.hash(p.root)])
  {
    if n > 0 {
      LandAllTags(lib, env, target, t, p, n - 1);
      var before := LandAll(lib, env, target, t, p, n - 1);
      UploadKeeps(before, t.repo, lib.hash, p.parts + [p.root]);
      UploadKeeps(before, t.repo, lib.hash, p.parts);
    }
  }

  lemma PushIsPresent(cfg: Config, env: Env, g: GateState, target: Store, t: Ref, p: Payload)
    ensures var call := Push(cfg, env, g, target, t, p);
            call.outcome.None? ==> Head(call.target, t) == Found(cfg.lib.hash(p.root))
  {
    var call := Push(cfg, env, g, target, t, p);
    if call.outcome.None? {
      var errs := Errors(cfg.lib, env, t, p);
      Retry.RunExplained(Retry.Attempts(cfg.attempts), cfg.backoff, errs, env.interrupted, 1);
      var n := PushRun(cfg, env, t, p).calls;
      assert errs(n).None?;
      UploadKeeps(LandAll(cfg.lib, env, target, t, p, n - 1), t.repo, cfg.lib.hash, p.parts + [p.root]);
    }
  }

  /** A call that returned nil and is not a dry one left its final target answering with the
      digest of what it carried there, whether it found it or pushed it. */
  lemma PushedIsPresent(cfg: Config, env: Env, g: GateState, target: Store, t: Ref, p: Payload)
    requires !cfg.dryRun
    ensures var call := Conclude(cfg, env, g, target, t, p);
            call.outcome.None? ==> Head(call.target, t) == Found(cfg.lib.hash(p.root))
  {
    PushIsPresent(cfg, env, g, Ensure(cfg, env, target, t.repo).target, t, p);
  }

  /** The pod's digest, up to case, is an object of repository `repo`. */
  ghost predicate HoldsPodDigest(target: Store, repo: string, pod: Option<Ref>) {
    pod.Some? && pod.value.Pinned? && exists d :: EqualFold(d, pod.value.digest) && (repo, d) in target.content
  }

  lemma PresentMeans(cfg: Config, env: Env, source: Store, target: Store, s: Source, meta: Metadata, t: Ref)
    requires AlreadyPresent(cfg, env, source, target, s, meta, t)
    ensures || HoldsPodDigest(target, t.repo, PodRef(cfg, s, meta))
            || (Head(target, t).Found? && Head(target, t) == Head(source, PullRef(cfg, s, meta)))
  {
    var pod := PodRef(cfg, s, meta);
    if PodDigestPresent(cfg, env, target, t, pod) {
      var d := if t.Pinned? && EqualFold(t.digest, pod.value.digest) then t.digest else pod.value.digest;
      assert EqualFold(d, pod.value.digest) && (t.repo, d) in target.content;
    }
  }

  lemma FilteredNotDry(
      lib: Library, env: Env, content: Content, pullRepo: string, target: Store, targetRepo: string,
      ms: seq<Descriptor>, desired: seq<Spec>)
    ensures !PullFiltered(lib, env, content, pullRepo, target, targetRepo, ms, desired).DryPulled?
  {
  }

  lemma OneImageNotDry(
      lib: Library, env: Env, content: Content, repo: string, ms: seq<Descriptor>,
      request: Option<Platform>, primary: Option<Platform>)
    ensures !PullOneImage(lib, env, content, repo, ms, request, primary).DryPulled?
  {
  }

  lemma NotDry(
      cfg: Config, env: Env, content: Content, described: Read<Object>, pullRepo: string, target: Store,
      targetRepo: string, meta: Metadata)
    requires !cfg.dryPull
    ensures !Pull(cfg, env, content, described, pullRepo, target, targetRepo, meta).DryPulled?
  {
    if described.Found? && described.value.Index? {
      var ms := described.value.manifests;
      FilteredNotDry(cfg.lib, env, content, pullRepo, target, targetRepo, ms, Desired(cfg, meta));
      OneImageNotDry(cfg.lib, env, content, pullRepo, ms, Requested(cfg, meta), Primary(cfg, meta));
    }
  }

  lemma EnteredNil(cfg: Config, env: Env, g: GateState, target: Store, t: Ref, m: Middle)
    requires !cfg.dryRun
    ensures var call := Entered(cfg, env, g, target, t, m);
            call.outcome.None? ==>
              || m.Leave?
              || t in g.pushed
              || (m.Carry? && m.final in g.pushed)
              || (m.Carry? && Head(call.target, m.final) == Found(cfg.lib.hash(m.payload.root)))
  {
    EnteredArrives(cfg, env, g, target, t, m);
    match Arrival(cfg, env, g, t, m)
    case Nowhere =>
    case Arrived(g', final, p) => PushedIsPresent(cfg, env, g', target, final, p);
  }

  lemma ClaimedNil(cfg: Config, env: Env, source: Store, g: GateState, target: Store, s: Source, meta: Metadata, t: Ref)
    requires !cfg.dryRun && !cfg.dryPull
    ensures var m := MiddleOf(cfg, env, source, target, s, meta, t);
            var call := Entered(cfg, env, g, target, t, m);
            call.outcome.None? ==>
              || t in g.pushed
              || (m.Carry? && m.final in g.pushed)
              || HoldsPodDigest(target, t.repo, PodRef(cfg, s, meta))
              || (Head(target, t).Found? && Head(target, t) == Head(source, PullRef(cfg, s, meta)))
              || (m.Carry? && Head(call.target, m.final) == Found(cfg.lib.hash(m.payload.root)))
  {
    var m := MiddleOf(cfg, env, source, target, s, meta, t);
    EnteredNil(cfg, env, g, target, t, m);
    if m.Leave? {
      LeaveMeans(cfg, env, source, target, s, meta, t);
      PresentMeans(cfg, env, source, target, s, meta, t);
    }
  }

  lemma LeaveMeans(cfg: Config, env: Env, source: Store, target: Store, s: Source, meta: Metadata, t: Ref)
    requires !cfg.dryPull && MiddleOf(cfg, env, source, target, s, meta, t).Leave?
    ensures AlreadyPresent(cfg, env, source, target, s, meta, t)
  {
    var pull := PullRef(cfg, s, meta);
    NotDry(cfg, env, source.content, Get(source, pull), pull.repo, target, t.repo, meta);
    ProcessLeaves(cfg.lib, env.authFails, AlreadyPresent(cfg, env, source, target, s, meta, t),
                  PullOf(cfg, env, source, target, s, meta, t), s, t, RepoFor(cfg, s, meta),
                  FinalRepoOf(cfg, env, s, meta));
  }

  lemma ProcessLeaves(
      lib: Library, authFails: bool, present: bool, got: Pulled, s: Source, t: Ref, repo: string,
      final: Payload -> string)
    requires !got.DryPulled? && Process(lib, authFails, present, got, s, t, repo, final).Leave?
    ensures present
  {
  }

  lemma QuitNil(cfg: Config, src: string, meta: Metadata)
    requires StartOf(cfg, src, meta) == Quit(None)
    ensures || Exclusions.MatchExcluded(cfg.excluded, src).Some?
            || (cfg.lib.parse(src).Some? && Waits(cfg, cfg.lib.parse(src).value, meta.imageID))
  {
    if cfg.lib.parse(src).Some? {
      var s := cfg.lib.parse(src).value;
      var repo := RepoFor(cfg, s, WithRegistry(meta, s));
      StartMeaning(cfg, src, meta, match s
        case ByTag(_, _, tag) => Tagged(repo, tag)
        case ByDigest(_, _, _, Some(tag)) => Tagged(repo, tag)
        case ByDigest(_, _, d, None) => Pinned(repo, d));
    }
  }

  /** Nil from a call that is not a dry one means: the source is excluded; its digest is wanted
      and not known yet; the first or the final target is in another call's hands; the pod's
      digest is in the target repository; the target answers with the digest of the source; or
      the final target answers with the digest of what was pulled. */
  lemma NilMeaning(cfg: Config, env: Env, source: Store, g: GateState, target: Store, src: string, meta: Metadata)
    requires !cfg.dryRun && !cfg.dryPull
    ensures var call := Mirror(cfg, env, source, g, target, src, meta);
            call.outcome.None? ==>
              match StartOf(cfg, src, meta)
              case Quit(_) =>
                || Exclusions.MatchExcluded(cfg.excluded, src).Some?
                || (cfg.lib.parse(src).Some? && Waits(cfg, cfg.lib.parse(src).value, meta.imageID))
              case Enter(s, full, t) =>
                var m := MiddleOf(cfg, env, source, target, s, full, t);
                || t in g.pushed
                || (m.Carry? && m.final in g.pushed)
                || HoldsPodDigest(target, t.repo, PodRef(cfg, s, full))
                || (Head(target, t).Found? && Head(target, t) == Head(source, PullRef(cfg, s, full)))
                || (m.Carry? && Head(call.target, m.final) == Found(cfg.lib.hash(m.payload.root)))
  {
    match StartOf(cfg, src, meta)
    case Quit(o) => if o.None? { QuitNil(cfg, src, meta); }
    case Enter(s, full, t) => ClaimedNil(cfg, env, source, g, target, s, full, t);
  }

  /** The final target need not exist: a call whose pod's digest is in the target repository under
      whatever tag returns nil and leaves its tag as absent as it was. */
  lemma NilWithoutTag(cfg: Config, env: Env, source: Store, g: GateState, target: Store, src: string, meta: Metadata)
    requires var start := StartOf(cfg, src, meta);
             && start.Enter? && start.t.Tagged? && start.t !in target.tags
             && Begin(g, cfg.cooldown, env.beginAt, start.t).verdict.Admit? && !env.authFails
             && PodDigestPresent(cfg, env, target, start.t, PodRef(cfg, start.s, start.meta))
    ensures var call := Mirror(cfg, env, source, g, target, src, meta);
            call.outcome.None? && call.target == target && Head(call.target, StartOf(cfg, src, meta).t).Missing?
  {
    match StartOf(cfg, src, meta)
    case Enter(s, full, t) => LeavesWhenPresent(cfg, env, source, target, s, full, t);
  }

  lemma LeavesWhenPresent(cfg: Config, env: Env, source: Store, target: Store, s: Source, meta: Metadata, t: Ref)
    requires !env.authFails && PodDigestPresent(cfg, env, target, t, PodRef(cfg, s, meta))
    ensures MiddleOf(cfg, env, source, target, s, meta, t) == Leave
  {
  }

  // ---- Reassignment needs the architecture in the template ----

  lemma ArchFreeRepo(cfg: Config, env: Env, s: Source, meta: Metadata, p: Payload)
    requires !Contains(cfg.template, "$arch")
    ensures FinalRepo(cfg, env, s, meta, p) == RepoFor(cfg, s, meta)
  {
    ArchUnused(cfg.template, meta, ArchOf(env, p));
  }

  /** Unless the prefix template names the architecture, a call never changes its target. */
  lemma NoArchNoReassign(cfg: Config, env: Env, source: Store, target: Store, s: Source, meta: Metadata, t: Ref)
    requires !Contains(cfg.template, "$arch")
    ensures var m := MiddleOf(cfg, env, source, target, s, meta, t); m.Carry? ==> m.final == t
  {
    var got := PullOf(cfg, env, source, target, s, meta, t);
    if got.Got? { ArchFreeRepo(cfg, env, s, meta, got.payload); }
  }
}
