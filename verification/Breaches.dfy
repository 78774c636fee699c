/** Mirror calls that reach two holders of one target, and overwrite a tag, through a release window. */
module Breaches {
  import opened Text
  import opened Refs
  import opened Gate
  import opened Registry
  import opened Mirroring
  import opened Programs
  import R = Runs

  // ---- Steps ----

  /** An event that is no call, or a call to Mirror. */
  ghost function ToMirror(cfg: Config): (Sys, Event) -> bool {
    (s: Sys, e: Event) => e.Calls? ==> Genuine(cfg, e.task)
  }

  /** The events lead from one state to the other, and all calls among them are Mirror calls. */
  ghost predicate Reaches(cfg: Config, s: Sys, es: seq<Event>, s': Sys) { Leads(cfg, ToMirror(cfg), s, es, s') }

  /** So they do when they are executed. */
  lemma ReachesMeans(cfg: Config, s: Sys, es: seq<Event>, s': Sys)
    requires Reaches(cfg, s, es, s')
    ensures Exec(cfg, s, es) == s' && MirrorCalls(cfg, es)
  {
    LeadsMeans(cfg, ToMirror(cfg), s, es, s');
    var ss :| Path(cfg, ToMirror(cfg), ss, es) && ss[0] == s && ss[|es|] == s';
    forall i | 0 <= i < |es| && es[i].Calls? ensures Genuine(cfg, es[i].task) {
      assert Linked(cfg, ToMirror(cfg), ss, es, i);
    }
  }

  lemma Stays(cfg: Config, s: Sys)
    ensures Reaches(cfg, s, [], s)
  {
    Stay(cfg, ToMirror(cfg), s);
  }

  lemma Then(cfg: Config, a: Sys, es: seq<Event>, b: Sys, e: Event)
    requires Reaches(cfg, a, es, b) && (e.Calls? ==> Genuine(cfg, e.task))
    ensures Reaches(cfg, a, es + [e], Next(cfg, b, e))
  {
    OneMore(cfg, ToMirror(cfg), a, es, b, e);
  }

  lemma Onward(cfg: Config, a: Sys, es: seq<Event>, b: Sys, fs: seq<Event>, c: Sys)
    requires Reaches(cfg, a, es, b) && Reaches(cfg, b, fs, c)
    ensures Reaches(cfg, a, es + fs, c)
  {
    Joined(cfg, ToMirror(cfg), a, es, b, fs, c);
  }

  ghost predicate At(s: Sys, w: R.Worker, task: Task, pc: Pc) { w in s.procs && s.procs[w] == Proc(task, pc) }

  /** The call has been made, and will ask for a target. */
  ghost predicate Waits(s: Sys, w: R.Worker, task: Task) { task.start.Enter? && At(s, w, task, Asking(task.start)) }

  ghost predicate Holds(s: Sys, w: R.Worker, task: Task) { task.start.Enter? && At(s, w, task, Claimed(task.start.t)) }

  /** Worker `w` has moved to `pc` of its task. */
  function Moved(s: Sys, g: GateState, target: Store, w: R.Worker, task: Task, pc: Pc): Sys {
    Sys(g, target, s.clock, s.procs[w := Proc(task, pc)])
  }

  lemma Acting(cfg: Config, s0: Sys, es: seq<Event>, s: Sys, w: R.Worker, task: Task, pc: Pc) returns (fs: seq<Event>)
    requires Reaches(cfg, s0, es, s) && At(s, w, task, pc)
    ensures es <= fs
    ensures var f := Act(cfg, s.clock, s.gate, s.target, task, pc, s.target);
            Reaches(cfg, s0, fs, Moved(s, f.gate, f.target, w, task, f.pc))
  {
    Then(cfg, s0, es, s, Acts(w, s.target));
    fs := es + [Acts(w, s.target)];
  }

  /** A call that asks for `t` is admitted to it. */
  lemma Claiming(cfg: Config, s0: Sys, es: seq<Event>, s: Sys, w: R.Worker, task: Task) returns (fs: seq<Event>)
    requires Reaches(cfg, s0, es, s) && Waits(s, w, task)
    requires var t := task.start.t; t !in s.gate.pushed && !Cooling(s.gate, cfg.cooldown, s.clock, t)
    ensures var t := task.start.t;
            var failed := if cfg.cooldown > 0 then s.gate.failed - {t} else s.gate.failed;
            Reaches(cfg, s0, fs, Moved(s, GateState(s.gate.pushed + {t}, failed), s.target, w, task, Claimed(t)))
  {
    fs := Acting(cfg, s0, es, s, w, task, Asking(task.start));
  }

  /** Stamp and record a failure. */
  lemma Recorded(cfg: Config, s0: Sys, es: seq<Event>, s: Sys, w: R.Worker, task: Task, t: Ref, cause: Cause)
      returns (fs: seq<Event>)
    requires Reaches(cfg, s0, es, s) && At(s, w, task, Stamping(t, cause))
    ensures var o := Some(FailureError(cfg, s.clock, cause));
            Reaches(cfg, s0, fs, Moved(s, Fail(s.gate, cfg.cooldown, s.clock, t), s.target, w, task, Leaving(t, o)))
  {
    var s1 := Moved(s, s.gate, s.target, w, task, Recording(t, cause, s.clock));
    var o := Some(FailureError(cfg, s.clock, cause));
    fs := Acting(cfg, s0, es, s, w, task, Stamping(t, cause));
    fs := Acting(cfg, s0, fs, s1, w, task, Recording(t, cause, s.clock));
    assert s1.procs[w := Proc(task, Leaving(t, o))] == s.procs[w := Proc(task, Leaving(t, o))];
  }

  lemma Released(cfg: Config, s0: Sys, es: seq<Event>, s: Sys, w: R.Worker, task: Task, t: Ref, o: Outcome)
      returns (fs: seq<Event>)
    requires Reaches(cfg, s0, es, s) && At(s, w, task, Leaving(t, o))
    ensures Reaches(cfg, s0, fs, Moved(s, Finish(s.gate, t), s.target, w, task, Done(o)))
  {
    fs := Acting(cfg, s0, es, s, w, task, Leaving(t, o));
  }

  lemma Bounced(cfg: Config, s0: Sys, es: seq<Event>, s: Sys, w: R.Worker, task: Task, t: Ref, p: Payload, u: Ref)
      returns (fs: seq<Event>)
    requires Reaches(cfg, s0, es, s) && At(s, w, task, Moving(t, p, u)) && t != u
    requires s.gate.failed == map[] && u in s.gate.pushed
    ensures Reaches(cfg, s0, fs, Moved(s, GateState(s.gate.pushed - {t}, map[]), s.target, w, task, Leaving(t, None)))
  {
    assert Reassign(s.gate, cfg.cooldown, s.clock, t, u) == Decision(GateState(s.gate.pushed - {t}, map[]), Skip);
    fs := Acting(cfg, s0, es, s, w, task, Moving(t, p, u));
  }

  // ---- Two calls on one target ----

  /** Nothing is claimed and nothing has failed. */
  predicate Quiet(s: Sys) { s.gate == EMPTY }

  lemma Pulling(cfg: Config, s0: Sys, es: seq<Event>, s: Sys, w: R.Worker, task: Task, t: Ref) returns (fs: seq<Event>)
    requires Reaches(cfg, s0, es, s) && At(s, w, task, Claimed(t))
    ensures Reaches(cfg, s0, fs, Moved(s, s.gate, s.target, w, task, AfterPull(t, task.pull(s.target))))
  {
    fs := Acting(cfg, s0, es, s, w, task, Claimed(t));
  }

  /** The first call is admitted and pulls. */
  lemma Opening(cfg: Config, s0: Sys, w: R.Worker, c: Task) returns (es: seq<Event>)
    requires Quiet(s0) && Waits(s0, w, c)
    ensures var t := c.start.t;
            Reaches(cfg, s0, es, Moved(s0, GateState({t}, map[]), s0.target, w, c, AfterPull(t, c.pull(s0.target))))
  {
    var t, pc := c.start.t, AfterPull(c.start.t, c.pull(s0.target));
    var s1 := Moved(s0, GateState({t}, map[]), s0.target, w, c, Claimed(t));
    var none: map<Ref, int> := map[];
    assert {} + {t} == {t} && none - {t} == none;
    Stays(cfg, s0);
    es := Claiming(cfg, s0, [], s0, w, c);
    es := Pulling(cfg, s0, es, s1, w, c, t);
    assert s1.procs[w := Proc(c, pc)] == s0.procs[w := Proc(c, pc)];
  }

  /** A claim, the late release of another call, and a second claim of the same target. */
  lemma ThroughWindow(
      cfg: Config, s: Sys, x: R.Worker, c: Task, o: Outcome, v: R.Worker, a: Task, w: R.Worker, b: Task, t: Ref)
      returns (es: seq<Event>, s': Sys)
    requires x != v && v != w && w != x && At(s, x, c, Leaving(t, o)) && Waits(s, v, a) && Waits(s, w, b)
    requires a.start.t == b.start.t == t && t !in s.gate.pushed && !Cooling(s.gate, cfg.cooldown, s.clock, t)
    ensures Reaches(cfg, s, es, s') && s'.target == s.target && Holds(s', v, a) && Holds(s', w, b)
  {
    var failed := if cfg.cooldown > 0 then s.gate.failed - {t} else s.gate.failed;
    var s1 := Moved(s, GateState(s.gate.pushed + {t}, failed), s.target, v, a, Claimed(t));
    var s2 := Moved(s1, GateState(s.gate.pushed, failed), s.target, x, c, Done(o));
    Stays(cfg, s);
    es := Claiming(cfg, s, [], s, v, a);
    assert s.gate.pushed + {t} - {t} == s.gate.pushed;
    es := Released(cfg, s, es, s1, x, c, t, o);
    es := Claiming(cfg, s, es, s2, w, b);
    var failed' := if cfg.cooldown > 0 then failed - {t} else failed;
    s' := Moved(s2, GateState(s.gate.pushed + {t}, failed'), s.target, w, b, Claimed(t));
  }

  /** After a failure, whatever its cause, whose deferred release comes late: not before the retry
      time, or at any moment when there is no cooldown. */
  lemma TwoCallsAfterFailure(
      cfg: Config, s0: Sys, x: R.Worker, c: Task, cause: Cause, v: R.Worker, a: Task, w: R.Worker, b: Task)
      returns (es: seq<Event>, s: Sys)
    requires Quiet(s0) && x != v && v != w && w != x && Waits(s0, x, c) && Waits(s0, v, a) && Waits(s0, w, b)
    requires c.start.t == a.start.t == b.start.t && c.pull(s0.target) == Abort(cause)
    ensures Reaches(cfg, s0, es, s) && s.target == s0.target && Holds(s, v, a) && Holds(s, w, b)
  {
    var t := c.start.t;
    es := Opening(cfg, s0, x, c);
    var s1 := Moved(s0, GateState({t}, map[]), s0.target, x, c, Stamping(t, cause));
    var fs;
    fs, s := AfterStamp(cfg, s1, x, c, t, cause, v, a, w, b);
    Onward(cfg, s0, es, s1, fs, s);
    es := es + fs;
  }

  lemma AfterStamp(
      cfg: Config, s1: Sys, x: R.Worker, c: Task, t: Ref, cause: Cause, v: R.Worker, a: Task, w: R.Worker, b: Task)
      returns (es: seq<Event>, s: Sys)
    requires s1.gate == GateState({t}, map[]) && x != v && v != w && w != x
    requires At(s1, x, c, Stamping(t, cause)) && Waits(s1, v, a) && Waits(s1, w, b) && a.start.t == b.start.t == t
    ensures Reaches(cfg, s1, es, s) && s.target == s1.target && Holds(s, v, a) && Holds(s, w, b)
  {
    var wait, o := if cfg.cooldown > 0 then cfg.cooldown else 0, Some(FailureError(cfg, s1.clock, cause));
    var s2 := Moved(s1, Fail(s1.gate, cfg.cooldown, s1.clock, t), s1.target, x, c, Leaving(t, o));
    var s3 := s2.(clock := s1.clock + wait);
    Stays(cfg, s1);
    es := Recorded(cfg, s1, [], s1, x, c, t, cause);
    Then(cfg, s1, es, s2, Ticks(wait));
    es := es + [Ticks(wait)];
    var fs;
    fs, s := ThroughWindow(cfg, s3, x, c, o, v, a, w, b, t);
    Onward(cfg, s1, es, s3, fs, s);
    es := es + fs;
  }

  /** After a call that is bounced off another call's target on its way, whatever the cooldown. */
  lemma TwoCallsAfterBounce(
      cfg: Config, s0: Sys, x: R.Worker, c: Task, p: Payload, y: R.Worker, e: Task, v: R.Worker, a: Task, w: R.Worker,
          b: Task)
      returns (es: seq<Event>, s: Sys)
    requires Quiet(s0) && x != y && x != v && x != w && y != v && y != w && v != w
    requires Waits(s0, x, c) && Waits(s0, y, e) && Waits(s0, v, a) && Waits(s0, w, b)
    requires c.start.t == a.start.t == b.start.t && e.start.t != c.start.t && c.pull(s0.target) == Carry(p, e.start.t)
    ensures Reaches(cfg, s0, es, s) && s.target == s0.target && Holds(s, v, a) && Holds(s, w, b)
  {
    var t, u := c.start.t, e.start.t;
    es := Opening(cfg, s0, x, c);
    var s1 := Moved(s0, GateState({t}, map[]), s0.target, x, c, Moving(t, p, u));
    var fs;
    fs, s := AfterMove(cfg, s1, x, c, t, p, y, e, v, a, w, b);
    Onward(cfg, s0, es, s1, fs, s);
    es := es + fs;
  }

  lemma AfterMove(
      cfg: Config, s1: Sys, x: R.Worker, c: Task, t: Ref, p: Payload, y: R.Worker, e: Task,
      v: R.Worker, a: Task, w: R.Worker, b: Task)
      returns (es: seq<Event>, s: Sys)
    requires s1.gate == GateState({t}, map[]) && x != y && x != v && x != w && y != v && y != w && v != w
    requires Waits(s1, y, e) && Waits(s1, v, a) && Waits(s1, w, b) && a.start.t == b.start.t == t && e.start.t != t
    requires At(s1, x, c, Moving(t, p, e.start.t))
    ensures Reaches(cfg, s1, es, s) && s.target == s1.target && Holds(s, v, a) && Holds(s, w, b)
  {
    var none: map<Ref, int> := map[];
    var u := e.start.t;
    var s2 := Moved(s1, GateState({t, u}, none), s1.target, y, e, Claimed(u));
    var s3 := Moved(s2, GateState({u}, none), s1.target, x, c, Leaving(t, None));
    assert {t} + {u} == {t, u} && {t, u} - {t} == {u} && none - {u} == none;
    Stays(cfg, s1);
    es := Claiming(cfg, s1, [], s1, y, e);
    es := Bounced(cfg, s1, es, s2, x, c, t, p, u);
    var fs;
    fs, s := ThroughWindow(cfg, s3, x, c, None, v, a, w, b, t);
    Onward(cfg, s1, es, s3, fs, s);
    es := es + fs;
  }

  // ---- Two pushes to one tag ----

  /** The call gets through to its push, and the first attempt succeeds. */
  predicate GetsThrough(env: Env) { !env.digestFails && !env.targetHeadFails && env.attempt(1).error.None? }

  /** From the look at the absent tag to the decision to write. */
  lemma Deciding(cfg: Config, s0: Sys, es: seq<Event>, s: Sys, w: R.Worker, task: Task, t: Ref, p: Payload)
      returns (fs: seq<Event>)
    requires Reaches(cfg, s0, es, s) && At(s, w, task, Ready(t, p)) && GetsThrough(task.env)
    requires t.Tagged? && t !in s.target.tags
    ensures Reaches(cfg, s0, fs, Moved(s, s.gate, s.target, w, task, Ensuring(t, p)))
  {
    assert Decide(cfg, task.env, s.target, t, cfg.lib.hash(p.root)) == Write;
    fs := Acting(cfg, s0, es, s, w, task, Ready(t, p));
  }

  /** A first attempt that succeeds leaves the tag with the digest of the payload. */
  lemma FirstAttempt(lib: Library, env: Env, target: Store, t: Ref, p: Payload)
    requires t.Tagged? && env.attempt(1).error.None?
    ensures Land(lib, target, t, p, AttemptAt(lib, env, t, p, 1)).tags == target.tags[t := lib.hash(p.root)]
  {
    LandTags(lib, target, t, p, AttemptAt(lib, env, t, p, 1));
  }

  /** From the decision to write to the first push attempt, into an implicit repository. */
  lemma Pushing(cfg: Config, s0: Sys, es: seq<Event>, s: Sys, w: R.Worker, task: Task, t: Ref, p: Payload)
      returns (fs: seq<Event>, s': Sys)
    requires Reaches(cfg, s0, es, s) && At(s, w, task, Ensuring(t, p)) && GetsThrough(task.env)
    requires t.Tagged? && !cfg.dryRun && cfg.repositories.Implicit?
    ensures es <= fs && Reaches(cfg, s0, fs, s') && s'.target.tags == s.target.tags[t := cfg.lib.hash(p.root)]
    ensures forall v :: v in s.procs && v != w ==> v in s'.procs && s'.procs[v] == s.procs[v]
  {
    var s1 := Moved(s, s.gate, s.target, w, task, Sending(t, p, 1));
    fs := Ensured(cfg, s0, es, s, w, task, t, p);
    fs := Attempted(cfg, s0, fs, s1, w, task, t, p);
    FirstAttempt(cfg.lib, task.env, s.target, t, p);
    s' := Moved(s1, s1.gate, Land(cfg.lib, s.target, t, p, AttemptAt(cfg.lib, task.env, t, p, 1)), w, task,
                AfterAttempt(cfg, task.env, t, p, 1));
  }

  lemma Ensured(cfg: Config, s0: Sys, es: seq<Event>, s: Sys, w: R.Worker, task: Task, t: Ref, p: Payload)
      returns (fs: seq<Event>)
    requires Reaches(cfg, s0, es, s) && At(s, w, task, Ensuring(t, p)) && !cfg.dryRun && cfg.repositories.Implicit?
    ensures es <= fs && Reaches(cfg, s0, fs, Moved(s, s.gate, s.target, w, task, Sending(t, p, 1)))
  {
    fs := Acting(cfg, s0, es, s, w, task, Ensuring(t, p));
  }

  lemma Attempted(cfg: Config, s0: Sys, es: seq<Event>, s: Sys, w: R.Worker, task: Task, t: Ref, p: Payload)
      returns (fs: seq<Event>)
    requires Reaches(cfg, s0, es, s) && At(s, w, task, Sending(t, p, 1))
    ensures es <= fs
    ensures var after := Land(cfg.lib, s.target, t, p, AttemptAt(cfg.lib, task.env, t, p, 1));
            Reaches(cfg, s0, fs, Moved(s, s.gate, after, w, task, AfterAttempt(cfg, task.env, t, p, 1)))
  {
    fs := Acting(cfg, s0, es, s, w, task, Sending(t, p, 1));
  }

  /** Two calls that both find the tag absent push one after the other. */
  lemma BothPush(cfg: Config, s: Sys, v: R.Worker, j: Task, w: R.Worker, k: Task, t: Ref, p: Payload, q: Payload)
      returns (fs: seq<Event>, gs: seq<Event>, s3: Sys, s4: Sys)
    requires v != w && At(s, v, j, Ready(t, p)) && At(s, w, k, Ready(t, q)) && t.Tagged? && t !in s.target.tags
    requires GetsThrough(j.env) && GetsThrough(k.env) && !cfg.dryRun && cfg.repositories.Implicit?
    ensures fs <= gs && Reaches(cfg, s, fs, s3) && Reaches(cfg, s, gs, s4)
    ensures s3.target.tags == s.target.tags[t := cfg.lib.hash(p.root)]
    ensures s4.target.tags == s.target.tags[t := cfg.lib.hash(p.root)][t := cfg.lib.hash(q.root)]
  {
    var s1 := Moved(s, s.gate, s.target, v, j, Ensuring(t, p));
    var s2 := Moved(s1, s.gate, s.target, w, k, Ensuring(t, q));
    Stays(cfg, s);
    fs := Deciding(cfg, s, [], s, v, j, t, p);
    fs := Deciding(cfg, s, fs, s1, w, k, t, q);
    fs, s3 := Pushing(cfg, s, fs, s2, v, j, t, p);
    gs, s4 := Pushing(cfg, s, fs, s3, w, k, t, q);
  }

  /** A call, what it pushes, and the digest of that. */
  datatype Delivery = Delivery(c: Task, p: Payload, d: Digest)

  /** The call would deliver its payload to the absent tag `t`. */
  ghost predicate Delivers(cfg: Config, target: Store, x: Delivery, t: Ref) {
    && x.c.start.Enter? && x.c.start.t == t && x.c.pull(target) == Carry(x.p, t)
    && GetsThrough(x.c.env) && cfg.lib.hash(x.p.root) == x.d
  }

  predicate Writable(cfg: Config, target: Store, t: Ref) {
    t.Tagged? && t !in target.tags && !cfg.dryRun && cfg.repositories.Implicit?
  }

  /** Two calls that have been admitted to one absent tag: the second overwrites the first. */
  lemma BothDeliver(cfg: Config, s: Sys, v: R.Worker, a: Delivery, w: R.Worker, b: Delivery, t: Ref)
      returns (fs: seq<Event>, gs: seq<Event>, s3: Sys, s4: Sys)
    requires v != w && Holds(s, v, a.c) && Holds(s, w, b.c) && Writable(cfg, s.target, t)
    requires Delivers(cfg, s.target, a, t) && Delivers(cfg, s.target, b, t)
    ensures fs <= gs && Reaches(cfg, s, fs, s3) && Reaches(cfg, s, gs, s4)
    ensures s3.target.tags == s.target.tags[t := a.d] && s4.target.tags == s.target.tags[t := b.d]
  {
    var s1 := Moved(s, s.gate, s.target, v, a.c, Ready(t, a.p));
    var s2 := Moved(s1, s.gate, s.target, w, b.c, Ready(t, b.p));
    Stays(cfg, s);
    var es := Pulling(cfg, s, [], s, v, a.c, t);
    es := Pulling(cfg, s, es, s1, w, b.c, t);
    fs, gs, s3, s4 := BothPush(cfg, s2, v, a.c, w, b.c, t, a.p, b.p);
    Onward(cfg, s, es, s2, fs, s3);
    Onward(cfg, s, es, s2, gs, s4);
    fs, gs := es + fs, es + gs;
    assert s.target.tags[t := a.d][t := b.d] == s.target.tags[t := b.d];
  }

  // ---- From the empty system ----

  ghost predicate AllGenuine(cfg: Config, tasks: seq<Task>) { forall c :: c in tasks ==> Genuine(cfg, c) }

  lemma Called(cfg: Config, s0: Sys, es: seq<Event>, s: Sys, w: R.Worker, tasks: seq<Task>, i: nat)
      returns (fs: seq<Event>)
    requires Reaches(cfg, s0, es, s) && s.PcOf(w).Done? && i < |tasks| && AllGenuine(cfg, tasks)
    ensures Reaches(cfg, s0, fs, Moved(s, s.gate, s.target, w, tasks[i], Asking(tasks[i].start)))
  {
    assert tasks[i] in tasks;
    Then(cfg, s0, es, s, Calls(w, tasks[i]));
    fs := es + [Calls(w, tasks[i])];
  }

  /** Four calls have been made; none is admitted yet. */
  lemma FourCalls(cfg: Config, s0: Sys, cs: seq<Task>) returns (es: seq<Event>, s: Sys)
    requires |cs| == 4 && s0.procs == map[] && AllGenuine(cfg, cs) && forall i :: 0 <= i < 4 ==> cs[i].start.Enter?
    ensures Reaches(cfg, s0, es, s) && s.gate == s0.gate && s.target == s0.target
    ensures Waits(s, 0, cs[0]) && Waits(s, 1, cs[1]) && Waits(s, 2, cs[2]) && Waits(s, 3, cs[3])
  {
    Stays(cfg, s0);
    var s1 := Moved(s0, s0.gate, s0.target, 0, cs[0], Asking(cs[0].start));
    var s2 := Moved(s1, s0.gate, s0.target, 1, cs[1], Asking(cs[1].start));
    var s3 := Moved(s2, s0.gate, s0.target, 2, cs[2], Asking(cs[2].start));
    s := Moved(s3, s0.gate, s0.target, 3, cs[3], Asking(cs[3].start));
    es := Called(cfg, s0, [], s0, 0, cs, 0);
    es := Called(cfg, s0, es, s1, 1, cs, 1);
    es := Called(cfg, s0, es, s2, 2, cs, 2);
    es := Called(cfg, s0, es, s3, 3, cs, 3);
  }

  /** Mirror calls that overwrite each other: a third call to the same target fails, and its deferred
      release comes late.  The fourth plays no part. */
  lemma OverwrittenAfterFailure(cfg: Config, s: Sys, c: Task, cause: Cause, a: Delivery, b: Delivery, t: Ref)
      returns (fs: seq<Event>, gs: seq<Event>, s3: Sys, s4: Sys)
    requires Quiet(s) && s.procs == map[] && Writable(cfg, s.target, t)
    requires Delivers(cfg, s.target, a, t) && Delivers(cfg, s.target, b, t)
    requires c.start.Enter? && c.start.t == t && c.pull(s.target) == Abort(cause)
    requires AllGenuine(cfg, [c, c, a.c, b.c])
    ensures fs <= gs && Reaches(cfg, s, fs, s3) && Reaches(cfg, s, gs, s4)
    ensures s3.target.tags == s.target.tags[t := a.d] && s4.target.tags == s.target.tags[t := b.d]
  {
    var es, s1 := FourCalls(cfg, s, [c, c, a.c, b.c]);
    var hs, s2 := TwoCallsAfterFailure(cfg, s1, 0, c, cause, 2, a.c, 3, b.c);
    Onward(cfg, s, es, s1, hs, s2);
    fs, gs, s3, s4 := BothDeliver(cfg, s2, 2, a, 3, b, t);
    Onward(cfg, s, es + hs, s2, fs, s3);
    Onward(cfg, s, es + hs, s2, gs, s4);
    fs, gs := es + hs + fs, es + hs + gs;
  }

  /** The call `c` asks for `t` and moves on to the target of `e`. */
  ghost predicate Bounces(target: Store, c: Task, p: Payload, e: Task, t: Ref) {
    && c.start.Enter? && e.start.Enter? && c.start.t == t && e.start.t != t
    && c.pull(target) == Carry(p, e.start.t)
  }

  /** The same through a call that is bounced off the target of a fourth, for every cooldown and
      with every deferred release as prompt as can be. */
  lemma OverwrittenAfterBounce(cfg: Config, s: Sys, c: Task, p: Payload, e: Task, a: Delivery, b: Delivery, t: Ref)
      returns (fs: seq<Event>, gs: seq<Event>, s3: Sys, s4: Sys)
    requires Quiet(s) && s.procs == map[] && Writable(cfg, s.target, t) && Bounces(s.target, c, p, e, t)
    requires Delivers(cfg, s.target, a, t) && Delivers(cfg, s.target, b, t)
    requires AllGenuine(cfg, [c, e, a.c, b.c])
    ensures fs <= gs && Reaches(cfg, s, fs, s3) && Reaches(cfg, s, gs, s4)
    ensures s3.target.tags == s.target.tags[t := a.d] && s4.target.tags == s.target.tags[t := b.d]
  {
    var es, s1 := FourCalls(cfg, s, [c, e, a.c, b.c]);
    var hs, s2 := TwoCallsAfterBounce(cfg, s1, 0, c, p, 1, e, 2, a.c, 3, b.c);
    Onward(cfg, s, es, s1, hs, s2);
    fs, gs, s3, s4 := BothDeliver(cfg, s2, 2, a, 3, b, t);
    Onward(cfg, s, es + hs, s2, fs, s3);
    Onward(cfg, s, es + hs, s2, gs, s4);
    fs, gs := es + hs + fs, es + hs + gs;
  }
}
