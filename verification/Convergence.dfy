/** Repeating a Mirror call. */
module Convergence {
  import opened Text
  import opened Refs
  import opened Gate
  import opened Registry
  import opened Platforms
  import opened RepoNames
  import opened Mirroring
  import opened MirrorFacts
  import opened Landing

  /** The pull may degrade silently: to another platform when an image cannot be resolved, and
      to an unknown architecture, which matters if the template names it, when a config or an
      index manifest cannot be read. */
  predicate Faithful(cfg: Config, env: Env) {
    !env.imageFails && (env.archFails ==> !Contains(cfg.template, "$arch"))
  }

  // ---- The pull depends neither on faults nor on the target ----

  /** All stores hold their objects under their own digests, and digests tell objects apart. */
  ghost predicate WellAddressed(lib: Library, content: Content, target: Store, target': Store) {
    && CollisionFree(lib.hash) && Addressed(content, lib.hash)
    && Addressed(target.content, lib.hash) && Addressed(target'.content, lib.hash)
  }

  lemma SameFiltered(
      lib: Library, env: Env, env': Env, content: Content, pullRepo: string, target: Store, target': Store,
      targetRepo: string, ms: seq<Descriptor>, desired: seq<Spec>)
    ensures var a := PullFiltered(lib, env, content, pullRepo, target, targetRepo, ms, desired);
            var b := PullFiltered(lib, env', content, pullRepo, target', targetRepo, ms, desired);
            a.Got? && b.Got? ==>
              && a.payload.root == b.payload.root
              && (WellAddressed(lib, content, target, target') ==> a.payload == b.payload)
  {
    if WellAddressed(lib, content, target, target') {
      FilterFromTargetSame(lib, env, env', content, target, target', pullRepo, targetRepo, ms, desired);
    }
  }

  lemma SameOneImage(
      lib: Library, env: Env, env': Env, content: Content, repo: string, ms: seq<Descriptor>,
      request: Option<Platform>, primary: Option<Platform>)
    requires !env.imageFails && !env'.imageFails
    ensures var a := PullOneImage(lib, env, content, repo, ms, request, primary);
            var b := PullOneImage(lib, env', content, repo, ms, request, primary);
            a.Got? && b.Got? ==> a == b
  {
    assert ResolvedImage(lib, env, content, repo, ms, request) == ResolvedImage(lib, env', content, repo, ms, request);
  }

  /** What is pulled depends neither on the faults nor on what the target already holds: the
      root in any case, and the parts when stores are addressed by digest. */
  lemma SamePull(
      cfg: Config, env: Env, env': Env, content: Content, described: Read<Object>, pullRepo: string,
      target: Store, target': Store, targetRepo: string, meta: Metadata)
    requires !env.imageFails && !env'.imageFails
    ensures var a := Pull(cfg, env, content, described, pullRepo, target, targetRepo, meta);
            var b := Pull(cfg, env', content, described, pullRepo, target', targetRepo, meta);
            a.Got? && b.Got? ==>
              && a.payload.root == b.payload.root
              && (WellAddressed(cfg.lib, content, target, target') ==> a.payload == b.payload)
  {
    if described.Found? && described.value.Index? {
      SameFromIndex(cfg, env, env', content, described.value.manifests, pullRepo, target, target', targetRepo, meta);
    }
  }

  lemma SameFromIndex(
      cfg: Config, env: Env, env': Env, content: Content, ms: seq<Descriptor>, pullRepo: string,
      target: Store, target': Store, targetRepo: string, meta: Metadata)
    requires !env.imageFails && !env'.imageFails
    ensures var a := PullObject(cfg, env, content, Index(ms), pullRepo, target, targetRepo, meta);
            var b := PullObject(cfg, env', content, Index(ms), pullRepo, target', targetRepo, meta);
            a.Got? && b.Got? ==>
              && a.payload.root == b.payload.root
              && (WellAddressed(cfg.lib, content, target, target') ==> a.payload == b.payload)
  {
    if cfg.pullByDigest && |Desired(cfg, meta)| > 1 {
      SameFiltered(cfg.lib, env, env', content, pullRepo, target, target', targetRepo, ms, Desired(cfg, meta));
    } else {
      SameOneImage(cfg.lib, env, env', content, pullRepo, ms, Requested(cfg, meta), Primary(cfg, meta));
    }
  }

  lemma SameFinal(cfg: Config, env: Env, env': Env, s: Source, meta: Metadata, p: Payload, q: Payload)
    requires Faithful(cfg, env) && Faithful(cfg, env') && p.root == q.root
    ensures FinalRepo(cfg, env, s, meta, p) == FinalRepo(cfg, env', s, meta, q)
  {
    if Contains(cfg.template, "$arch") {
      assert ArchOf(env, p) == ArchOf(env', q);
    } else {
      ArchFreeRepo(cfg, env, s, meta, p);
      ArchFreeRepo(cfg, env', s, meta, q);
    }
  }

  lemma SameMiddle(
      cfg: Config, env: Env, env': Env, source: Store, target: Store, target': Store, s: Source, meta: Metadata, t: Ref)
    requires Faithful(cfg, env) && Faithful(cfg, env')
    requires BuildTarget(cfg.lib, s, RepoFor(cfg, s, meta)) == Some(t)
    ensures var m := MiddleOf(cfg, env, source, target, s, meta, t);
            var m' := MiddleOf(cfg, env', source, target', s, meta, t);
            m.Carry? && m'.Carry? ==> m.payload.root == m'.payload.root && m.final == m'.final
  {
    var pull := PullRef(cfg, s, meta);
    MiddleCarries(cfg, env, source, target, s, meta, t);
    MiddleCarries(cfg, env', source, target', s, meta, t);
    SamePull(cfg, env, env', source.content, Get(source, pull), pull.repo, target, target', t.repo, meta);
    var m, m' := MiddleOf(cfg, env, source, target, s, meta, t), MiddleOf(cfg, env', source, target', s, meta, t);
    if m.Carry? && m'.Carry? { SameFinal(cfg, env, env', s, meta, m.payload, m'.payload); }
  }

  // ---- Convergence ----

  lemma PresentIsKept(cfg: Config, env: Env, g: GateState, target: Store, t: Ref, p: Payload)
    requires Head(target, t) == Found(cfg.lib.hash(p.root))
    ensures var call := Conclude(cfg, env, g, target, t, p); call.target == target && call.sent.None?
  {
  }

  lemma EnteredPresent(cfg: Config, env: Env, g: GateState, target: Store, t: Ref, m: Middle)
    requires m.Carry? ==> Head(target, m.final) == Found(cfg.lib.hash(m.payload.root))
    ensures var call := Entered(cfg, env, g, target, t, m); call.target == target && call.sent.None?
  {
    EnteredArrives(cfg, env, g, target, t, m);
    match Arrival(cfg, env, g, t, m)
    case Nowhere =>
    case Arrived(g', final, p) => PresentIsKept(cfg, env, g', target, final, p);
  }

  lemma EnteredPushed(cfg: Config, env: Env, g: GateState, target: Store, t: Ref, m: Middle)
    ensures var call := Entered(cfg, env, g, target, t, m);
            call.outcome.None? && call.sent.Some? ==>
              && m.Carry? && call.sent.value == (m.final, m.payload) && !cfg.dryRun
              && Head(call.target, m.final) == Found(cfg.lib.hash(m.payload.root))
  {
    EnteredArrives(cfg, env, g, target, t, m);
    match Arrival(cfg, env, g, t, m)
    case Nowhere =>
    case Arrived(g', final, p) =>
      ConcludeSent(cfg, env, g', target, final, p);
      if !cfg.dryRun { PushedIsPresent(cfg, env, g', target, final, p); }
  }

  /** Repeating a call that pushed and returned nil, with the same source, metadata and the
      target as the first call left it, writes nothing: whatever the admission table holds by
      then, through a reassigned target and a filtered index alike. */
  lemma Convergence(
      cfg: Config, env: Env, env': Env, source: Store, g: GateState, g': GateState, target: Store, src: string,
      meta: Metadata)
    requires Faithful(cfg, env) && Faithful(cfg, env')
    requires Mirror(cfg, env, source, g, target, src, meta).outcome.None?
    requires Mirror(cfg, env, source, g, target, src, meta).sent.Some?
    ensures var left := Mirror(cfg, env, source, g, target, src, meta).target;
            var again := Mirror(cfg, env', source, g', left, src, meta);
            again.target == left && again.sent.None?
  {
    var left := Mirror(cfg, env, source, g, target, src, meta).target;
    StartFacts(cfg, src, meta);
    match StartOf(cfg, src, meta)
    case Enter(s, full, t) =>
      var m, m' := MiddleOf(cfg, env, source, target, s, full, t), MiddleOf(cfg, env', source, left, s, full, t);
      EnteredPushed(cfg, env, g, target, t, m);
      SameMiddle(cfg, env, env', source, target, left, s, full, t);
      EnteredPresent(cfg, env', g', left, t, m');
  }

  // ---- A push touches one repository ----

  lemma {:induction false} UploadElsewhere(
      target: Store, repo: string, hash: Object -> Digest, objs: seq<Object>, other: string, d: Digest)
    requires other != repo
    ensures (other, d) in Upload(target, repo, hash, objs).content <==> (other, d) in target.content
    decreases |objs|
  {
    if objs != [] {
      var next := target.(content := target.content[(repo, hash(objs[0])) := objs[0]]);
      UploadElsewhere(next, repo, hash, objs[1..], other, d);
    }
  }

  lemma {:induction false} LandAllElsewhere(lib: Library, env: Env, target: Store, t: Ref, p: Payload, n: nat, u: Ref)
    requires u.repo != t.repo
    ensures Head(LandAll(lib, env, target, t, p, n), u) == Head(target, u)
  {
    if n > 0 {
      LandAllElsewhere(lib, env, target, t, p, n - 1, u);
      var before := LandAll(lib, env, target, t, p, n - 1);
      UploadKeeps(before, t.repo, lib.hash, p.parts + [p.root]);
      UploadKeeps(before, t.repo, lib.hash, p.parts);
      if u.Pinned? {
        UploadElsewhere(before, t.repo, lib.hash, p.parts + [p.root], u.repo, u.digest);
        UploadElsewhere(before, t.repo, lib.hash, p.parts, u.repo, u.digest);
      }
    }
  }

  lemma ConcludeElsewhere(cfg: Config, env: Env, g: GateState, target: Store, t: Ref, p: Payload, u: Ref)
    requires u.repo != t.repo
    ensures var after := Conclude(cfg, env, g, target, t, p).target;
            Head(after, u) == Head(target, u) && (u.repo in after.repos <==> u.repo in target.repos)
  {
    ConcludeRepos(cfg, env, g, target, t, p);
    var e := Ensure(cfg, env, target, t.repo);
    LandAllElsewhere(cfg.lib, env, e.target, t, p, PushRun(cfg, env, t, p).calls, u);
  }

  /** A call whose push went to `t` did not change what another repository answers. */
  lemma SentElsewhere(
      cfg: Config, env: Env, source: Store, g: GateState, target: Store, src: string, meta: Metadata, u: Ref)
    requires var call := Mirror(cfg, env, source, g, target, src, meta);
             call.sent.Some? && call.sent.value.0.repo != u.repo
    ensures var after := Mirror(cfg, env, source, g, target, src, meta).target;
            Head(after, u) == Head(target, u) && (u.repo in after.repos <==> u.repo in target.repos)
  {
    MirrorArrives(cfg, env, source, g, target, src, meta);
    match ArrivalOf(cfg, env, source, g, target, src, meta)
    case Nowhere =>
    case Arrived(g', final, p) =>
      ConcludeSent(cfg, env, g', target, final, p);
      ConcludeElsewhere(cfg, env, g', target, final, p, u);
  }

  // ---- Exactly when a repeat writes again ----

  /** The repeat reads everything it needs. */
  predicate Reads(cfg: Config, env: Env, source: Store, target: Store, s: Source, meta: Metadata, t: Ref) {
    && !env.authFails && !env.digestFails && !env.targetHeadFails
    && PullOf(cfg, env, source, target, s, meta, t).Got?
  }

  lemma ConcludeSends(cfg: Config, env: Env, g: GateState, target: Store, t: Ref, p: Payload)
    requires !cfg.dryRun && !env.digestFails && !env.targetHeadFails
    ensures Conclude(cfg, env, g, target, t, p).sent.Some? <==>
              Writes(cfg, target, t, cfg.lib.hash(p.root)) && Ensure(cfg, env, target, t.repo).ok
  {
    assert !Head(target, t).Broken?;
  }

  lemma EnteredSends(cfg: Config, env: Env, target: Store, t: Ref, m: Middle)
    requires !cfg.dryRun && !env.digestFails && !env.targetHeadFails
    ensures Entered(cfg, env, EMPTY, target, t, m).sent.Some? <==>
              && m.Carry? && Writes(cfg, target, m.final, cfg.lib.hash(m.payload.root))
              && Ensure(cfg, env, target, m.final.repo).ok
  {
    EnteredArrives(cfg, env, EMPTY, target, t, m);
    match Arrival(cfg, env, EMPTY, t, m)
    case Nowhere =>
    case Arrived(g, final, p) => ConcludeSends(cfg, env, g, target, final, p);
  }

  lemma ProcessReads(lib: Library, present: bool, p: Payload, s: Source, t: Ref, repo: string, final: Payload -> string)
    requires BuildTarget(lib, s, repo) == Some(t)
    ensures Process(lib, false, present, Got(p), s, t, repo, final).Carry? <==>
              !present && BuildTarget(lib, s, final(p)).Some?
  {
  }

  lemma ReadsCarry(cfg: Config, env: Env, source: Store, target: Store, s: Source, meta: Metadata, t: Ref)
    requires Reads(cfg, env, source, target, s, meta, t) && BuildTarget(cfg.lib, s, RepoFor(cfg, s, meta)) == Some(t)
    ensures var m := MiddleOf(cfg, env, source, target, s, meta, t);
            var p := PullOf(cfg, env, source, target, s, meta, t).payload;
            var final := BuildTarget(cfg.lib, s, FinalRepo(cfg, env, s, meta, p));
            && (m.Carry? <==> !AlreadyPresent(cfg, env, source, target, s, meta, t) && final.Some?)
            && (m.Carry? ==> m == Carry(p, final.value))
  {
    ProcessReads(cfg.lib, AlreadyPresent(cfg, env, source, target, s, meta, t),
                 PullOf(cfg, env, source, target, s, meta, t).payload, s, t, RepoFor(cfg, s, meta),
                 FinalRepoOf(cfg, env, s, meta));
    MiddleCarries(cfg, env, source, target, s, meta, t);
  }

  /** Whether a repeat that carries digest `d'` to `t'` writes again, after a first call that
      pushed `d` to `t` and left the rest of `target` as it was. */
  predicate WritesAgain(cfg: Config, env: Env, target: Store, t: Ref, d: Digest, t': Ref, d': Digest) {
    if t' == t then d' != d && Overwritable(cfg, t) && (cfg.repositories.Managed? ==> !env.describeFails)
    else Writes(cfg, target, t', d') && Ensure(cfg, env, target, t'.repo).ok
  }

  lemma BuildTargetRepo(lib: Library, s: Source, a: string, b: string)
    requires BuildTarget(lib, s, a).Some? && BuildTarget(lib, s, b).Some?
    ensures var t, u := BuildTarget(lib, s, a).value, BuildTarget(lib, s, b).value;
            t.repo == a && u.repo == b && (t == u <==> a == b)
  {
  }

  lemma ConcludeRepoExists(cfg: Config, env: Env, g: GateState, target: Store, t: Ref, p: Payload)
    ensures var call := Conclude(cfg, env, g, target, t, p);
            call.sent.Some? && cfg.repositories.Managed? ==> t.repo in call.target.repos
  {
    LandAllRepos(cfg.lib, env, Ensure(cfg, env, target, t.repo).target, t, p, PushRun(cfg, env, t, p).calls);
  }

  lemma SentRepoExists(cfg: Config, env: Env, source: Store, g: GateState, target: Store, src: string, meta: Metadata)
    requires Mirror(cfg, env, source, g, target, src, meta).sent.Some?
    ensures var call := Mirror(cfg, env, source, g, target, src, meta);
            cfg.repositories.Managed? ==> call.sent.value.0.repo in call.target.repos
  {
    MirrorArrives(cfg, env, source, g, target, src, meta);
    match ArrivalOf(cfg, env, source, g, target, src, meta)
    case Nowhere =>
    case Arrived(g', final, p) =>
      ConcludeSent(cfg, env, g', target, final, p);
      ConcludeRepoExists(cfg, env, g', target, final, p);
  }

  /** The send guard of a repeat at `t'`, read off the target as it was before the first call. */
  lemma GuardBefore(cfg: Config, env: Env, target: Store, left: Store, t: Ref, d: Digest, t': Ref, d': Digest)
    requires Head(left, t) == Found(d) && (cfg.repositories.Managed? ==> t.repo in left.repos)
    requires t' != t ==> Head(left, t') == Head(target, t') && (t'.repo in left.repos <==> t'.repo in target.repos)
    ensures Writes(cfg, left, t', d') && Ensure(cfg, env, left, t'.repo).ok <==>
            WritesAgain(cfg, env, target, t, d, t', d')
  {
  }

  /** Exactly when a call repeated with every read successful pushes again although the first one
      pushed `p` to `t` and returned nil, read off the target before the first call and the
      payload that has landed there since: no shortcut applies, and the repeat either carries
      another digest to the same target, which may be overwritten, or goes to another target,
      which is empty or may be overwritten.  They disagree about what to push only if an image
      could not be resolved in one of them. */
  lemma ConvergenceExact(
      cfg: Config, env: Env, env': Env, source: Store, g: GateState, target: Store, src: string, meta: Metadata,
      t: Ref, p: Payload)
    requires Mirror(cfg, env, source, g, target, src, meta).outcome.None?
    requires Mirror(cfg, env, source, g, target, src, meta).sent == Some((t, p))
    requires StartOf(cfg, src, meta).Enter?
    requires var start, left := StartOf(cfg, src, meta), Delivered(cfg, env, target, t, p);
             Reads(cfg, env', source, left, start.s, start.meta, start.t)
    ensures var start, left := StartOf(cfg, src, meta), Delivered(cfg, env, target, t, p);
            var q := PullOf(cfg, env', source, left, start.s, start.meta, start.t).payload;
            var t' := BuildTarget(cfg.lib, start.s, FinalRepo(cfg, env', start.s, start.meta, q));
            && Mirror(cfg, env, source, g, target, src, meta).target == left
            && (Mirror(cfg, env', source, EMPTY, left, src, meta).sent.Some? <==>
                  && !AlreadyPresent(cfg, env', source, left, start.s, start.meta, start.t)
                  && t'.Some?
                  && WritesAgain(cfg, env', target, t, cfg.lib.hash(p.root), t'.value, cfg.lib.hash(q.root)))
            && (!env.imageFails && !env'.imageFails ==> p.root == q.root)
  {
    var left := Delivered(cfg, env, target, t, p);
    MirrorLevels(cfg, env, source, g, target, src, meta);
    StartFacts(cfg, src, meta);
    match StartOf(cfg, src, meta)
    case Enter(s, full, first) =>
      var pull := PullRef(cfg, s, full);
      var m := MiddleOf(cfg, env, source, target, s, full, first);
      var m' := MiddleOf(cfg, env', source, left, s, full, first);
      EnteredPushed(cfg, env, g, target, first, m);
      MiddleCarries(cfg, env, source, target, s, full, first);
      ReadsCarry(cfg, env', source, left, s, full, first);
      EnteredSends(cfg, env', left, first, m');
      if !env.imageFails && !env'.imageFails {
        SamePull(cfg, env, env', source.content, Get(source, pull), pull.repo, target, left, first.repo, full);
      }
      if m'.Carry? {
        BuildTargetRepo(cfg.lib, s, FinalRepo(cfg, env, s, full, m.payload), FinalRepo(cfg, env', s, full, m'.payload));
        SentRepoExists(cfg, env, source, g, target, src, meta);
        if m'.final != m.final { SentElsewhere(cfg, env, source, g, target, src, meta, m'.final); }
        GuardBefore(cfg, env', target, left, m.final, cfg.lib.hash(m.payload.root), m'.final,
                    cfg.lib.hash(m'.payload.root));
      }
  }
}
