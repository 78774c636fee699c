/** What the push attempts of a call leave at the target registry. */
module Landing {
  import opened Text
  import opened Refs
  import opened Gate
  import opened Registry
  import opened RepoNames
  import opened Mirroring
  import opened MirrorFacts
  import Retry

  // ---- Uploads ----

  /** An upload of `objs` writes this key. */
  ghost predicate Touched(k: (string, Digest), repo: string, hash: Object -> Digest, objs: seq<Object>) {
    k.0 == repo && exists x :: x in objs && hash(x) == k.1
  }

  ghost predicate SameElsewhere(a: Content, b: Content, repo: string, hash: Object -> Digest, objs: seq<Object>) {
    forall k :: !Touched(k, repo, hash, objs) ==> (k in a <==> k in b) && (k in a ==> a[k] == b[k])
  }

  lemma {:induction false} UploadTouches(
      target: Store, repo: string, hash: Object -> Digest, objs: seq<Object>, all: seq<Object>)
    requires forall x :: x in objs ==> x in all
    ensures SameElsewhere(Upload(target, repo, hash, objs).content, target.content, repo, hash, all)
    decreases |objs|
  {
    if objs != [] {
      var next := target.(content := target.content[(repo, hash(objs[0])) := objs[0]]);
      UploadTouches(next, repo, hash, objs[1..], all);
      assert forall k :: !Touched(k, repo, hash, all) ==> k != (repo, hash(objs[0]));
    }
  }

  lemma {:induction false} LandAllTouches(lib: Library, env: Env, target: Store, t: Ref, p: Payload, n: nat)
    ensures SameElsewhere(
              LandAll(lib, env, target, t, p, n).content, target.content, t.repo, lib.hash, p.parts + [p.root])
  {
    if n > 0 {
      LandAllTouches(lib, env, target, t, p, n - 1);
      var before := LandAll(lib, env, target, t, p, n - 1);
      UploadTouches(before, t.repo, lib.hash, p.parts + [p.root], p.parts + [p.root]);
      UploadTouches(before, t.repo, lib.hash, p.parts, p.parts + [p.root]);
    }
  }

  /** An upload makes stores equal that differ at most in what it writes. */
  lemma {:induction false} UploadLevels(a: Store, b: Store, repo: string, hash: Object -> Digest, objs: seq<Object>)
    requires SameElsewhere(a.content, b.content, repo, hash, objs)
    ensures Upload(a, repo, hash, objs).content == Upload(b, repo, hash, objs).content
    decreases |objs|
  {
    if objs == [] {
      assert forall k :: !Touched(k, repo, hash, objs);
      assert a.content == b.content;
    } else {
      var key := (repo, hash(objs[0]));
      var a', b' := a.(content := a.content[key := objs[0]]), b.(content := b.content[key := objs[0]]);
      forall k | !Touched(k, repo, hash, objs[1..])
        ensures (k in a'.content <==> k in b'.content) && (k in a'.content ==> a'.content[k] == b'.content[k])
      {
        if k != key { assert !Touched(k, repo, hash, objs); }
      }
      UploadLevels(a', b', repo, hash, objs[1..]);
    }
  }

  /** Every object of `objs` is there under its digest. */
  ghost predicate Holds(content: Content, repo: string, hash: Object -> Digest, objs: seq<Object>) {
    forall x :: x in objs ==>
      && (repo, hash(x)) in content
      && content[(repo, hash(x))] in objs
      && hash(content[(repo, hash(x))]) == hash(x)
  }

  lemma {:induction false} UploadHolds(target: Store, repo: string, hash: Object -> Digest, objs: seq<Object>)
    ensures Holds(Upload(target, repo, hash, objs).content, repo, hash, objs)
    decreases |objs|
  {
    if objs != [] {
      var key, rest := (repo, hash(objs[0])), objs[1..];
      var next := target.(content := target.content[key := objs[0]]);
      UploadHolds(next, repo, hash, rest);
      UploadTouches(next, repo, hash, rest, rest);
      var after := Upload(next, repo, hash, rest).content;
      if !Touched(key, repo, hash, rest) { assert after[key] == objs[0]; }
      assert forall x :: x in objs ==> x == objs[0] || x in rest;
    }
  }

  // ---- One attempt ----

  /** The payload has landed at `t`: all its objects are in the repository under their digests, a
      tag names the root, and nothing else has changed. */
  ghost predicate HasLanded(hash: Object -> Digest, before: Store, after: Store, t: Ref, p: Payload) {
    && Holds(after.content, t.repo, hash, p.parts + [p.root])
    && SameElsewhere(after.content, before.content, t.repo, hash, p.parts + [p.root])
    && after.tags == if t.Tagged? then before.tags[t := hash(p.root)] else before.tags
  }

  /** Only the parts have landed, and no tag has changed. */
  ghost predicate PartsLanded(hash: Object -> Digest, before: Store, after: Store, t: Ref, p: Payload) {
    && Holds(after.content, t.repo, hash, p.parts)
    && SameElsewhere(after.content, before.content, t.repo, hash, p.parts)
    && after.tags == before.tags
  }

  /** At most what the payload writes has changed. */
  ghost predicate Confined(hash: Object -> Digest, before: Store, after: Store, t: Ref, p: Payload) {
    && SameElsewhere(after.content, before.content, t.repo, hash, p.parts + [p.root])
    && (after.tags == before.tags || (t.Tagged? && after.tags == before.tags[t := hash(p.root)]))
  }

  /** An attempt that reports success has landed everything; one that reports an error nothing, the
      parts, or everything, and everything only if the target accepts the root. */
  lemma AttemptMeaning(lib: Library, target: Store, t: Ref, p: Payload, a: Attempt)
    ensures var after := Land(lib, target, t, p, a);
            && after.repos == target.repos
            && (a.error.None? ==> HasLanded(lib.hash, target, after, t, p))
            && (a.error.Some? && a.landed.Nothing? ==> after == target)
            && (a.error.Some? && a.landed.PartsOnly? ==> PartsLanded(lib.hash, target, after, t, p))
            && (a.error.Some? && a.landed.Everything? ==>
                  if t.Pinned? && t.digest != lib.hash(p.root) then PartsLanded(lib.hash, target, after, t, p)
                  else HasLanded(lib.hash, target, after, t, p))
  {
    var all := p.parts + [p.root];
    UploadHolds(target, t.repo, lib.hash, all);
    UploadTouches(target, t.repo, lib.hash, all, all);
    UploadKeeps(target, t.repo, lib.hash, all);
    UploadRepos(target, t.repo, lib.hash, all);
    UploadHolds(target, t.repo, lib.hash, p.parts);
    UploadTouches(target, t.repo, lib.hash, p.parts, p.parts);
    UploadKeeps(target, t.repo, lib.hash, p.parts);
    UploadRepos(target, t.repo, lib.hash, p.parts);
  }

  /** A registry refuses an object under a digest that is not its own, and keeps the parts. */
  lemma RefusedAttempt(lib: Library, env: Env, target: Store, t: Ref, p: Payload, k: nat)
    requires t.Pinned? && t.digest != lib.hash(p.root) && env.attempt(k).error.None?
    ensures var a := AttemptAt(lib, env, t, p, k);
            && a.error.Some? && !Retry.Retryable(a.error.value)
            && PartsLanded(lib.hash, target, Land(lib, target, t, p, a), t, p)
  {
    AttemptMeaning(lib, target, t, p, AttemptAt(lib, env, t, p, k));
  }

  // ---- The whole push ----

  /** The target after `p` has landed at `t` completely, its repository ensured. */
  function Delivered(cfg: Config, env: Env, target: Store, t: Ref, p: Payload): Store {
    Land(cfg.lib, Ensure(cfg, env, target, t.repo).target, t, p, Attempt(Everything, None))
  }

  /** Whatever the attempts before it left behind, a successful last attempt levels it. */
  lemma PushLevels(cfg: Config, env: Env, g: GateState, target: Store, t: Ref, p: Payload)
    requires Push(cfg, env, g, target, t, p).outcome.None?
    ensures Push(cfg, env, g, target, t, p).target == Land(cfg.lib, target, t, p, Attempt(Everything, None))
  {
    var errs, n := Errors(cfg.lib, env, t, p), PushRun(cfg, env, t, p).calls;
    Retry.RunExplained(Retry.Attempts(cfg.attempts), cfg.backoff, errs, env.interrupted, 1);
    assert errs(n).None?;
    var before, objs := LandAll(cfg.lib, env, target, t, p, n - 1), p.parts + [p.root];
    LandAllTouches(cfg.lib, env, target, t, p, n - 1);
    LandAllTags(cfg.lib, env, target, t, p, n - 1);
    LandAllRepos(cfg.lib, env, target, t, p, n - 1);
    UploadLevels(before, target, t.repo, cfg.lib.hash, objs);
    UploadKeeps(before, t.repo, cfg.lib.hash, objs);
    UploadKeeps(target, t.repo, cfg.lib.hash, objs);
    UploadRepos(before, t.repo, cfg.lib.hash, objs);
    UploadRepos(target, t.repo, cfg.lib.hash, objs);
  }

  /** After the attempts the target differs from before at most in what the payload writes; a run
      that succeeds has landed it. */
  lemma PushOutcome(cfg: Config, env: Env, target: Store, t: Ref, p: Payload)
    ensures var run := PushRun(cfg, env, t, p);
            var after := LandAll(cfg.lib, env, target, t, p, run.calls);
            && after.repos == target.repos
            && (run.result.Done? ==> HasLanded(cfg.lib.hash, target, after, t, p))
            && Confined(cfg.lib.hash, target, after, t, p)
  {
    var n := PushRun(cfg, env, t, p).calls;
    LandAllTouches(cfg.lib, env, target, t, p, n);
    LandAllTags(cfg.lib, env, target, t, p, n);
    LandAllRepos(cfg.lib, env, target, t, p, n);
    if PushRun(cfg, env, t, p).result.Done? {
      PushLevels(cfg, env, EMPTY, target, t, p);
      AttemptMeaning(cfg.lib, target, t, p, Attempt(Everything, None));
    }
  }

  lemma ConcludeLevels(cfg: Config, env: Env, g: GateState, target: Store, t: Ref, p: Payload)
    requires Conclude(cfg, env, g, target, t, p).outcome.None? && Conclude(cfg, env, g, target, t, p).sent.Some?
    ensures Conclude(cfg, env, g, target, t, p).target == Delivered(cfg, env, target, t, p)
  {
    PushLevels(cfg, env, g, Ensure(cfg, env, target, t.repo).target, t, p);
  }

  /** What a call that pushed and returned nil leaves at the target depends on its payload and not
      on what its earlier attempts had left there. */
  lemma MirrorLevels(cfg: Config, env: Env, source: Store, g: GateState, target: Store, src: string, meta: Metadata)
    requires Mirror(cfg, env, source, g, target, src, meta).outcome.None?
    requires Mirror(cfg, env, source, g, target, src, meta).sent.Some?
    ensures var call := Mirror(cfg, env, source, g, target, src, meta);
            call.target == Delivered(cfg, env, target, call.sent.value.0, call.sent.value.1)
  {
    MirrorArrives(cfg, env, source, g, target, src, meta);
    match ArrivalOf(cfg, env, source, g, target, src, meta)
    case Nowhere =>
    case Arrived(g', final, p) =>
      ConcludeSent(cfg, env, g', target, final, p);
      ConcludeLevels(cfg, env, g', target, final, p);
  }

  lemma EnsureKeeps(cfg: Config, env: Env, target: Store, repo: string)
    ensures var e := Ensure(cfg, env, target, repo).target; e.content == target.content && e.tags == target.tags
  {
  }

  /** A call that pushed and returned nil: every object of its payload, the children of an index
      included, is in the target repository under its digest, the tag names the root, and nothing
      else has changed, whatever its earlier attempts had left there. */
  lemma MirrorDelivers(cfg: Config, env: Env, source: Store, g: GateState, target: Store, src: string, meta: Metadata)
    requires Mirror(cfg, env, source, g, target, src, meta).outcome.None?
    requires Mirror(cfg, env, source, g, target, src, meta).sent.Some?
    ensures var call := Mirror(cfg, env, source, g, target, src, meta);
            HasLanded(cfg.lib.hash, target, call.target, call.sent.value.0, call.sent.value.1)
  {
    MirrorLevels(cfg, env, source, g, target, src, meta);
    var (t, p) := Mirror(cfg, env, source, g, target, src, meta).sent.value;
    EnsureKeeps(cfg, env, target, t.repo);
    AttemptMeaning(cfg.lib, Ensure(cfg, env, target, t.repo).target, t, p, Attempt(Everything, None));
  }

  lemma ConcludeOutcome(cfg: Config, env: Env, g: GateState, target: Store, t: Ref, p: Payload)
    ensures Confined(cfg.lib.hash, target, Conclude(cfg, env, g, target, t, p).target, t, p)
  {
    EnsureKeeps(cfg, env, target, t.repo);
    PushOutcome(cfg, env, Ensure(cfg, env, target, t.repo).target, t, p);
  }

  /** A call that pushed, with success or not, changed at most what its payload writes. */
  lemma PushConfined(cfg: Config, env: Env, source: Store, g: GateState, target: Store, src: string, meta: Metadata)
    requires Mirror(cfg, env, source, g, target, src, meta).sent.Some?
    ensures var call := Mirror(cfg, env, source, g, target, src, meta);
            Confined(cfg.lib.hash, target, call.target, call.sent.value.0, call.sent.value.1)
  {
    MirrorArrives(cfg, env, source, g, target, src, meta);
    match ArrivalOf(cfg, env, source, g, target, src, meta)
    case Nowhere =>
    case Arrived(g', final, p) =>
      ConcludeSent(cfg, env, g', target, final, p);
      ConcludeOutcome(cfg, env, g', target, final, p);
  }
}
