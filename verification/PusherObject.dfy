/** The pusher as an object: the admission tables that its methods update in place, and Mirror
    as the sequence of steps that reassigns its target on the way. */
module PusherObject {
  import opened Text
  import opened Refs
  import opened Gate
  import opened Registry
  import opened RepoNames
  import opened Platforms
  import opened Mirroring
  import opened Landing
  import Retry

  lemma RenderNotBlank(registry: string, r: Ref)
    ensures TrimSpace(Render(registry, r)) != ""
  {
    RenderSplits(registry, r);
    var s := Render(registry, r);
    assert s[|registry|] == '/';
    var a, b := TrimSlice(s, IsSpace);
  }

  class Pusher {
    const cfg: Config
    const registry: string
    var pushed: set<Ref>
    var failed: map<Ref, int>
    var target: Store

    ghost function State(): GateState
      reads this
    {
      GateState(pushed, failed)
    }

    constructor (cfg: Config, registry: string, target: Store)
      ensures this.cfg == cfg && this.registry == registry && this.target == target && State() == EMPTY
    {
      this.cfg, this.registry, this.target := cfg, registry, target;
      pushed, failed := {}, map[];
    }

    /** Asks to process `t`; `retryAt` is set when the target is cooling down. */
    method BeginProcessing(t: Ref, now: int) returns (skip: bool, retryAt: Option<int>)
      modifies this`pushed, this`failed
      ensures var r := Begin(old(State()), cfg.cooldown, now, t);
              && State() == r.gate
              && skip == r.verdict.Skip?
              && retryAt == if r.verdict.Reject? then Some(r.verdict.retryAt) else None
    {
      if cfg.cooldown > 0 && t in failed {
        var at := failed[t] + cfg.cooldown;
        if now < at { return false, Some(at); }
        failed := failed - {t};
      }
      assert cfg.cooldown > 0 ==> failed == old(failed) - {t};
      if t in pushed { return true, None; }
      pushed := pushed + {t};
      return false, None;
    }

    method FinishProcessing(t: Ref)
      modifies this`pushed
      ensures State() == Finish(old(State()), t)
    {
      RenderNotBlank(registry, t);
      if TrimSpace(Render(registry, t)) == "" { return; }
      pushed := pushed - {t};
    }

    method ReassignProcessing(oldTarget: Ref, newTarget: Ref, now: int) returns (skip: bool, retryAt: Option<int>)
      modifies this`pushed, this`failed
      ensures var r := Reassign(old(State()), cfg.cooldown, now, oldTarget, newTarget);
              && State() == r.gate
              && skip == r.verdict.Skip?
              && retryAt == if r.verdict.Reject? then Some(r.verdict.retryAt) else None
    {
      if oldTarget == newTarget { return false, None; }
      if cfg.cooldown > 0 {
        if newTarget in failed {
          var at := failed[newTarget] + cfg.cooldown;
          if now < at {
            pushed := pushed - {oldTarget};
            return false, Some(at);
          }
          failed := failed - {newTarget};
        }
        assert failed == old(failed) - {newTarget};
        if oldTarget in failed {
          failed := failed[newTarget := failed[oldTarget]];
          failed := failed - {oldTarget};
        }
      }
      if newTarget in pushed {
        pushed := pushed - {oldTarget};
        return true, None;
      }
      if oldTarget in pushed {
        pushed := pushed - {oldTarget};
        pushed := pushed + {newTarget};
      }
      return false, None;
    }

    /** `now` is read before the tables are locked. */
    method FailureResult(t: Ref, cause: Cause, now: int) returns (err: MirrorError)
      modifies this`pushed, this`failed
      ensures State() == Fail(old(State()), cfg.cooldown, now, t)
      ensures err == if cfg.cooldown > 0 then RetryError(cause, now + cfg.cooldown) else Plain(cause)
    {
      pushed := pushed - {t};
      if cfg.cooldown > 0 {
        failed := failed[t := now];
        return RetryError(cause, now + cfg.cooldown);
      }
      return Plain(cause);
    }

    method ResetCooldown() returns (cleared: nat, enabled: bool)
      modifies this`failed
      ensures State() == Reset(old(State()), cfg.cooldown)
      ensures enabled == (cfg.cooldown > 0) && cleared == if enabled then |old(failed)| else 0
    {
      if cfg.cooldown <= 0 { return 0, false; }
      cleared := |failed|;
      while failed.Keys != {}
        decreases |failed.Keys|
      {
        var t :| t in failed.Keys;
        var rest := failed - {t};
        assert rest.Keys < failed.Keys && rest.Keys == failed.Keys - {t};
        failed := rest;
      }
      assert failed == map[];
      return cleared, true;
    }

    /** Attempts until one succeeds, fails for good, or the wait is interrupted; each attempt
        leaves its mark on the target registry. */
    method PushAttempts(env: Env, t: Ref, p: Payload) returns (done: bool)
      modifies this`target
      ensures var run := PushRun(cfg, env, t, p);
              && target == LandAll(cfg.lib, env, old(target), t, p, run.calls)
              && done == run.result.Done?
    {
      var attempts := Retry.Attempts(cfg.attempts);
      ghost var errs := Errors(cfg.lib, env, t, p);
      var k: nat := 1;
      while true
        invariant 1 <= k <= attempts
        invariant target == LandAll(cfg.lib, env, old(target), t, p, k - 1)
        invariant Retry.RunFrom(attempts, cfg.backoff, errs, env.interrupted, k) == PushRun(cfg, env, t, p)
        decreases attempts - k
      {
        var a := AttemptAt(cfg.lib, env, t, p, k);
        assert errs(k) == a.error;
        target := Land(cfg.lib, target, t, p, a);
        if a.error.None? { return true; }
        if k == attempts || !Retry.Retryable(a.error.value) { return false; }
        if cfg.backoff > 0 && env.interrupted(k) { return false; }
        k := k + 1;
      }
    }

    /** The push with its retries: done only if the whole payload has landed, and confined to what
        the payload writes in any case. */
    method PushWithRetry(env: Env, t: Ref, p: Payload) returns (done: bool)
      modifies this`target
      ensures var run := PushRun(cfg, env, t, p);
              && target == LandAll(cfg.lib, env, old(target), t, p, run.calls)
              && done == run.result.Done?
      ensures target.repos == old(target).repos
      ensures done ==> HasLanded(cfg.lib.hash, old(target), target, t, p)
      ensures Confined(cfg.lib.hash, old(target), target, t, p)
    {
      PushOutcome(cfg, env, target, t, p);
      done := PushAttempts(env, t, p);
    }

    /** From the final target on: compare digests, ensure the repository, then push. */
    method FinishMirror(env: Env, t: Ref, p: Payload) returns (outcome: Outcome)
      modifies this
      ensures var call := Conclude(cfg, env, old(State()), old(target), t, p);
              outcome == call.outcome && Finish(State(), t) == call.gate && target == call.target
    {
      var d := cfg.lib.hash(p.root);
      match Decide(cfg, env, target, t, d) {
        case Refuse(cause) =>
          var err := FailureResult(t, cause, env.failAt);
          return Some(err);
        case Settled => return None;
        case Write =>
          var e := Ensure(cfg, env, target, t.repo);
          target := e.target;
          if !e.ok {
            var err := FailureResult(t, EnsureRepository, env.failAt);
            return Some(err);
          }
          if cfg.dryRun { return None; }
          var done := PushWithRetry(env, t, p);
          if !done {
            var err := FailureResult(t, PushFailed, env.failAt);
            return Some(err);
          }
          return None;
      }
    }

    method PullSubset(
        env: Env, content: Content, ms: seq<Descriptor>, pullRepo: string, targetRepo: string,
        desired: seq<Spec>) returns (got: Pulled)
      ensures got == PullFiltered(cfg.lib, env, content, pullRepo, target, targetRepo, ms, desired)
    {
      if env.indexFails { return PullFailed(LoadIndex); }
      if env.manifestFails { return PullFailed(FilterIndex); }
      var lib, store := cfg.lib, target;
      var f := FilterIndexByPlatforms(ms, desired, d => LoadEntry(lib, env, content, pullRepo, store, targetRepo, d));
      if f.None? { return PullFailed(FilterIndex); }
      if f.value.matched == [] { return Got(WholeIndex(content, pullRepo, ms)); }
      return Got(Payload(Index(f.value.entries), f.value.parts));
    }

    method PullImageOf(
        env: Env, content: Content, ms: seq<Descriptor>, repo: string, meta: Metadata) returns (got: Pulled)
      ensures got == PullOneImage(cfg.lib, env, content, repo, ms, Requested(cfg, meta), Primary(cfg, meta))
    {
      var img := ResolvedImage(cfg.lib, env, content, repo, ms, Requested(cfg, meta));
      if img.Some? { return Got(Payload(img.value, [])); }
      if env.indexFails { return PullFailed(LoadIndex); }
      if env.manifestFails { return PullFailed(ResolvePlatform); }
      var d := SelectImageDescriptor(ms, Primary(cfg, meta));
      if d.None? { return PullFailed(ResolvePlatform); }
      var x := ReadEntry(content, repo, d.value.digest);
      if x.Some? && x.value.Image? && !env.entryLoadFails(d.value.digest) { return Got(Payload(x.value, [])); }
      return PullFailed(ResolvePlatform);
    }

    /** The whole pull, with the loops that the program runs over platforms and entries. */
    method PullSource(
        env: Env, content: Content, described: Read<Object>, pullRepo: string, targetRepo: string,
        meta: Metadata) returns (got: Pulled)
      ensures got == Pull(cfg, env, content, described, pullRepo, target, targetRepo, meta)
    {
      if env.getFails || !described.Found? { return PullFailed(Describe); }
      if cfg.dryPull { return DryPulled; }
      match described.value {
        case Image(_, _) => got := if env.imageFails then PullFailed(PullImage) else Got(Payload(described.value, []));
        case Index(ms) =>
          var desired := CollectDesired(MetaPlatform(meta), cfg.mirrorPlatforms);
          if cfg.pullByDigest && |desired| > 1 {
            got := PullSubset(env, content, ms, pullRepo, targetRepo, desired);
          } else if !cfg.pullByDigest || Primary(cfg, meta).None? {
            got := if env.indexFails then PullFailed(LoadIndex) else Got(WholeIndex(content, pullRepo, ms));
          } else {
            got := PullImageOf(env, content, ms, pullRepo, meta);
          }
      }
    }

    /** Authentication, the two shortcuts, the pull, and the target for its architecture. */
    method Prepare(env: Env, source: Store, s: Source, meta: Metadata, t: Ref) returns (m: Middle)
      ensures m == MiddleOf(cfg, env, source, target, s, meta, t)
    {
      if env.authFails { return Abort(Auth); }
      if AlreadyPresent(cfg, env, source, target, s, meta, t) { return Leave; }
      var pull := PullRef(cfg, s, meta);
      var got := PullSource(env, source.content, Get(source, pull), pull.repo, t.repo, meta);
      if got.DryPulled? { return Leave; }
      if got.PullFailed? { return Abort(got.cause); }
      var newRepo := PayloadRepo(env, s, meta, got.payload);
      assert newRepo == FinalRepoOf(cfg, env, s, meta)(got.payload);
      m := Retarget(cfg.lib, s, t, got.payload, RepoFor(cfg, s, meta), newRepo);
    }

    /** The repository for the architecture of the payload. */
    method PayloadRepo(env: Env, s: Source, meta: Metadata, p: Payload) returns (repo: string)
      ensures repo == FinalRepo(cfg, env, s, meta, p)
    {
      var arch: string;
      match p.root {
        case Index(ms) =>
          if env.archFails { arch := "multiarch"; } else { arch := ResolveIndexArchitecture(ms); }
        case Image(a, _) => arch := if env.archFails then "" else TrimSpace(a);
      }
      repo := RepoFor(cfg, s, if arch == "" then meta else meta.(arch := arch));
    }

    /** From the claim to the deferred release; `currentTarget` is what that release will free. */
    method MirrorClaimed(env: Env, t: Ref, m: Middle) returns (outcome: Outcome, currentTarget: Ref)
      modifies this
      ensures var call := Admitted(cfg, env, old(State()), old(target), t, m);
              outcome == call.outcome && Finish(State(), currentTarget) == call.gate && target == call.target
    {
      currentTarget := t;
      match m {
        case Leave => outcome := None;
        case Abort(cause) =>
          var err := FailureResult(t, cause, env.failAt);
          outcome := Some(err);
        case Carry(p, final) =>
          if final != t {
            var skip, retryAt := ReassignProcessing(t, final, env.reassignAt);
            if retryAt.Some? { return Some(RetryError(InCooldown, retryAt.value)), currentTarget; }
            if skip { return None, currentTarget; }
            currentTarget := final;
          }
          outcome := FinishMirror(env, currentTarget, p);
      }
    }

    /** From the request for admission to the deferred release. */
    method MirrorEntered(env: Env, source: Store, s: Source, meta: Metadata, t: Ref) returns (outcome: Outcome)
      modifies this
      ensures var call := Entered(cfg, env, old(State()), old(target), t,
              MiddleOf(cfg, env, source, old(target), s, meta, t));
              outcome == call.outcome && State() == call.gate && target == call.target
    {
      var skip, retryAt := BeginProcessing(t, env.beginAt);
      if retryAt.Some? { return Some(RetryError(InCooldown, retryAt.value)); }
      if skip { return None; }
      var m := Prepare(env, source, s, meta, t);
      var currentTarget;
      outcome, currentTarget := MirrorClaimed(env, t, m);
      FinishProcessing(currentTarget);
    }

    method Mirror(env: Env, source: Store, src: string, meta: Metadata) returns (outcome: Outcome)
      modifies this
      ensures var call := Mirroring.Mirror(cfg, env, source, old(State()), old(target), src, meta);
              outcome == call.outcome && State() == call.gate && target == call.target
    {
      match StartOf(cfg, src, meta) {
        case Quit(o) => outcome := o;
        case Enter(s, full, t) => outcome := MirrorEntered(env, source, s, full, t);
      }
    }
  }
}
