/** Mirror calls as programs that run concurrently, one atomic action at a time.

    Every critical section, every look at the final target, every push attempt and every
    reading of the clock is an action of its own, on the tables and the target as they are at
    that moment; between two actions of a call, any other call and the operator may act. */
module Programs {
  import opened Text
  import opened Refs
  import opened Gate
  import opened Registry
  import opened Mirroring
  import opened MirrorFacts
  import R = Runs
  import Retry

  /** A call as far as the protocol is concerned: its faults, what it asks for, and what its pull
      makes of the target that it sees. */
  datatype Task = Task(env: Env, start: Start, pull: Store -> Middle)

  /** The Mirror call for a request. */
  function TaskOf(cfg: Config, job: Job): Task {
    var start := StartOf(cfg, job.src, job.meta);
    Task(job.env, start, seen => PullFor(cfg, job, start, seen))
  }

  function PullFor(cfg: Config, job: Job, start: Start, seen: Store): Middle {
    match start
    case Quit(_) => Leave
    case Enter(s, full, t) => MiddleOf(cfg, job.env, job.source, seen, s, full, t)
  }

  ghost predicate Genuine(cfg: Config, task: Task) { exists job :: task == TaskOf(cfg, job) }

  /** What a call does next. */
  datatype Pc =
    | Asking(start: Start)
    | Claimed(t: Ref)
    | Moving(t: Ref, p: Payload, final: Ref)
    | Ready(t: Ref, p: Payload)
    | Ensuring(t: Ref, p: Payload)
    | Sending(t: Ref, p: Payload, k: nat)
    | Stamping(t: Ref, cause: Cause)
    | Recording(t: Ref, cause: Cause, at: int)
    | Leaving(t: Ref, outcome: Outcome)
    | Done(outcome: Outcome)

  datatype Proc = Proc(task: Task, pc: Pc)

  datatype Sys = Sys(gate: GateState, target: Store, clock: int, procs: map<R.Worker, Proc>) {
    function PcOf(w: R.Worker): Pc {
      if w in procs then procs[w].pc else Done(None)
    }
  }

  /** `seen` is the target as the reads of a pull find it, in whatever states those are made. */
  datatype Event =
    | Calls(w: R.Worker, task: Task)
    | Acts(w: R.Worker, seen: Store)
    | Resets
    | Ticks(dt: nat)

  /** All calls of the run are Mirror calls. */
  ghost predicate MirrorCalls(cfg: Config, es: seq<Event>) {
    forall i :: 0 <= i < |es| && es[i].Calls? ==> Genuine(cfg, es[i].task)
  }

  datatype Effect = Effect(pc: Pc, gate: GateState, target: Store)

  function InCooldownUntil(at: int): Outcome { Some(RetryError(InCooldown, at)) }

  function AfterBegin(v: Verdict, t: Ref): Pc {
    match v
    case Admit => Claimed(t)
    case Skip => Done(None)
    case Reject(at) => Done(InCooldownUntil(at))
  }

  function AfterReassign(v: Verdict, t: Ref, p: Payload, final: Ref): Pc {
    match v
    case Admit => Ready(final, p)
    case Skip => Leaving(t, None)
    case Reject(at) => Leaving(t, InCooldownUntil(at))
  }

  function AfterPull(t: Ref, m: Middle): Pc {
    match m
    case Leave => Leaving(t, None)
    case Abort(cause) => Stamping(t, cause)
    case Carry(p, final) => if final == t then Ready(t, p) else Moving(t, p, final)
  }

  function AfterDecision(t: Ref, p: Payload, last: Last): Pc {
    match last
    case Refuse(cause) => Stamping(t, cause)
    case Settled => Leaving(t, None)
    case Write => Ensuring(t, p)
  }

  function AfterAttempt(cfg: Config, env: Env, t: Ref, p: Payload, k: nat): Pc {
    match AttemptAt(cfg.lib, env, t, p, k).error
    case None => Leaving(t, None)
    case Some(e) =>
      if k >= Retry.Attempts(cfg.attempts) || !Retry.Retryable(e) || (cfg.backoff > 0 && env.interrupted(k))
      then Stamping(t, PushFailed)
      else Sending(t, p, k + 1)
  }

  /** The first action of a call asks for its target, if it gets that far. */
  function Ask(cooldown: int, clock: int, g: GateState, target: Store, start: Start): Effect {
    match start
    case Quit(o) => Effect(Done(o), g, target)
    case Enter(_, _, t) =>
      var r := Begin(g, cooldown, clock, t);
      Effect(AfterBegin(r.verdict, t), r.gate, target)
  }

  /** One action of a call. */
  function Act(cfg: Config, clock: int, g: GateState, target: Store, task: Task, pc: Pc, seen: Store): Effect {
    match pc
    case Asking(start) => Ask(cfg.cooldown, clock, g, target, start)
    case Claimed(t) => Effect(AfterPull(t, task.pull(seen)), g, target)
    case Moving(t, p, final) =>
      var r := Reassign(g, cfg.cooldown, clock, t, final);
      Effect(AfterReassign(r.verdict, t, p, final), r.gate, target)
    case Ready(t, p) =>
      Effect(AfterDecision(t, p, Decide(cfg, task.env, target, t, cfg.lib.hash(p.root))), g, target)
    case Ensuring(t, p) =>
      var e := Ensure(cfg, task.env, target, t.repo);
      Effect(if !e.ok then Stamping(t, EnsureRepository) else if cfg.dryRun then Leaving(t, None) else Sending(t, p, 1),
             g, e.target)
    case Sending(t, p, k) =>
      Effect(AfterAttempt(cfg, task.env, t, p, k), g,
          Land(cfg.lib, target, t, p, AttemptAt(cfg.lib, task.env, t, p, k)))
    case Stamping(t, cause) => Effect(Recording(t, cause, clock), g, target)
    case Recording(t, cause, at) =>
      Effect(Leaving(t, Some(FailureError(cfg, at, cause))), Fail(g, cfg.cooldown, at, t), target)
    case Leaving(t, o) => Effect(Done(o), Finish(g, t), target)
    case Done(_) => Effect(pc, g, target)
  }

  /** One step of the whole system; a worker takes a new call only when its last one is done. */
  function Next(cfg: Config, s: Sys, e: Event): Sys {
    match e
    case Calls(w, task) =>
      if s.PcOf(w).Done? then s.(procs := s.procs[w := Proc(task, Asking(task.start))]) else s
    case Acts(w, seen) =>
      if w !in s.procs then s
      else
        var f := Act(cfg, s.clock, s.gate, s.target, s.procs[w].task, s.procs[w].pc, seen);
        Sys(f.gate, f.target, s.clock, s.procs[w := s.procs[w].(pc := f.pc)])
    case Resets => s.(gate := Reset(s.gate, cfg.cooldown))
    case Ticks(dt) => s.(clock := s.clock + dt)
  }

  function Exec(cfg: Config, s: Sys, es: seq<Event>): Sys
    decreases |es|
  {
    if es == [] then s else Exec(cfg, Next(cfg, s, es[0]), es[1..])
  }

  function Initial(clock: int, target: Store): Sys { Sys(EMPTY, target, clock, map[]) }

  // ---- Runs as chains of states ----

  /** Which events may be taken in which states. */
  type Discipline = (Sys, Event) -> bool

  /** The `i`-th event may be taken in the `i`-th state and leads to the next. */
  ghost predicate Linked(cfg: Config, ok: Discipline, ss: seq<Sys>, es: seq<Event>, i: nat)
    requires i < |es| && i + 1 < |ss|
  {
    ss[i + 1] == Next(cfg, ss[i], es[i]) && ok(ss[i], es[i])
  }

  ghost predicate Path(cfg: Config, ok: Discipline, ss: seq<Sys>, es: seq<Event>) {
    |ss| == |es| + 1 && forall i :: 0 <= i < |es| ==> Linked(cfg, ok, ss, es, i)
  }

  /** The events may be taken and lead from one state to the other. */
  ghost predicate Leads(cfg: Config, ok: Discipline, s: Sys, es: seq<Event>, s': Sys) {
    exists ss :: Path(cfg, ok, ss, es) && ss[0] == s && ss[|es|] == s'
  }

  lemma LeadsMeans(cfg: Config, ok: Discipline, s: Sys, es: seq<Event>, s': Sys)
    requires Leads(cfg, ok, s, es, s')
    ensures Exec(cfg, s, es) == s'
  {
    var ss :| Path(cfg, ok, ss, es) && ss[0] == s && ss[|es|] == s';
    PathExec(cfg, ok, ss, es);
  }

  lemma {:induction false} PathExec(cfg: Config, ok: Discipline, ss: seq<Sys>, es: seq<Event>)
    requires Path(cfg, ok, ss, es)
    ensures Exec(cfg, ss[0], es) == ss[|es|]
    decreases |es|
  {
    if es != [] {
      assert Linked(cfg, ok, ss, es, 0);
      PathTail(cfg, ok, ss, es);
      PathExec(cfg, ok, ss[1..], es[1..]);
    }
  }

  lemma PathTail(cfg: Config, ok: Discipline, ss: seq<Sys>, es: seq<Event>)
    requires Path(cfg, ok, ss, es) && es != []
    ensures Path(cfg, ok, ss[1..], es[1..])
  {
    forall i | 0 <= i < |es| - 1 ensures Linked(cfg, ok, ss[1..], es[1..], i) {
      assert Linked(cfg, ok, ss, es, i + 1);
    }
  }

  lemma Stay(cfg: Config, ok: Discipline, s: Sys)
    ensures Leads(cfg, ok, s, [], s)
  {
    var es: seq<Event> := [];
    assert Path(cfg, ok, [s], es) && [s][|es|] == s;
  }

  lemma OneMore(cfg: Config, ok: Discipline, a: Sys, es: seq<Event>, b: Sys, e: Event)
    requires Leads(cfg, ok, a, es, b) && ok(b, e)
    ensures Leads(cfg, ok, a, es + [e], Next(cfg, b, e))
  {
    var ss :| Path(cfg, ok, ss, es) && ss[0] == a && ss[|es|] == b;
    var ss', es' := ss + [Next(cfg, b, e)], es + [e];
    forall i | 0 <= i < |es'| ensures Linked(cfg, ok, ss', es', i) {
      if i < |es| { assert Linked(cfg, ok, ss, es, i); }
    }
    assert Path(cfg, ok, ss', es') && ss'[0] == a && ss'[|es'|] == Next(cfg, b, e);
  }

  lemma Joined(cfg: Config, ok: Discipline, a: Sys, es: seq<Event>, b: Sys, fs: seq<Event>, c: Sys)
    requires Leads(cfg, ok, a, es, b) && Leads(cfg, ok, b, fs, c)
    ensures Leads(cfg, ok, a, es + fs, c)
  {
    var ss :| Path(cfg, ok, ss, es) && ss[0] == a && ss[|es|] == b;
    var ts :| Path(cfg, ok, ts, fs) && ts[0] == b && ts[|fs|] == c;
    var us, gs := ss + ts[1..], es + fs;
    forall i | 0 <= i < |gs| ensures Linked(cfg, ok, us, gs, i) {
      if i < |es| {
        assert Linked(cfg, ok, ss, es, i);
      } else {
        assert Linked(cfg, ok, ts, fs, i - |es|);
      }
    }
    assert Path(cfg, ok, us, gs) && us[0] == a && us[|gs|] == c;
  }

  // ---- Every run of the programs is a run of the protocol ----

  function RunConfig(cfg: Config): R.Config { R.Config(cfg.cooldown, cfg.allowRepush) }

  /** The phase of the protocol that a call is in. */
  ghost predicate Fits(hash: Object -> Digest, pc: Pc, phase: R.Phase) {
    match pc
    case Asking(_) => phase.Idle?
    case Done(_) => phase.Idle?
    case Claimed(t) => phase == R.Holding(t)
    case Moving(t, _, _) => phase == R.Holding(t)
    case Ready(t, _) => phase == R.Holding(t)
    case Ensuring(t, p) => phase == R.Pushing(t, hash(p.root))
    case Sending(t, p, _) => phase == R.Pushing(t, hash(p.root))
    case Stamping(t, _) => (phase.Holding? || phase.Pushing?) && phase.t == t
    case Recording(t, _, at) => phase == R.Failing(t, at)
    case Leaving(t, _) => (phase.Holding? || phase.Pushing? || phase.Released?) && phase.t == t
  }

  ghost predicate Simulates(cfg: Config, s: Sys, r: R.Sys) {
    && r.gate == s.gate && r.clock == s.clock && r.tags == s.target.tags
    && forall w :: Fits(cfg.lib.hash, s.PcOf(w), r.PhaseOf(w))
  }

  predicate Commits(lib: Library, t: Ref, p: Payload, a: Attempt) {
    a.error.None? || (a.landed.Everything? && Acceptable(lib, t, p))
  }

  /** The step of the protocol that the next action of a call is, if it is one. */
  function StepOf(cfg: Config, target: Store, w: R.Worker, task: Task, pc: Pc): seq<R.Event> {
    match pc
    case Asking(start) => if start.Enter? then [R.Begins(w, start.t)] else []
    case Claimed(_) => []
    case Moving(_, _, final) => [R.Reassigns(w, final)]
    case Ready(t, p) =>
      var d := cfg.lib.hash(p.root);
      if Decide(cfg, task.env, target, t, d).Write? then [R.Heads(w, d)] else []
    case Ensuring(_, _) => []
    case Sending(t, p, k) => [R.Pushes(w, Commits(cfg.lib, t, p, AttemptAt(cfg.lib, task.env, t, p, k)))]
    case Stamping(_, _) => [R.Stamps(w)]
    case Recording(_, _, _) => [R.Fails(w)]
    case Leaving(_, _) => [R.Returns(w)]
    case Done(_) => []
  }

  function StepsOf(cfg: Config, s: Sys, e: Event): seq<R.Event> {
    match e
    case Calls(_, _) => []
    case Acts(w, _) => if w in s.procs then StepOf(cfg, s.target, w, s.procs[w].task, s.procs[w].pc) else []
    case Resets => [R.Resets]
    case Ticks(dt) => [R.Ticks(dt)]
  }

  function Trace(cfg: Config, s: Sys, es: seq<Event>): seq<R.Event>
    decreases |es|
  {
    if es == [] then [] else StepsOf(cfg, s, es[0]) + Trace(cfg, Next(cfg, s, es[0]), es[1..])
  }

  lemma OneStep(c: R.Config, r: R.Sys, e: R.Event)
    ensures R.Exec(c, r, [e]) == R.Next(c, r, e)
  {
    assert [e][1..] == [];
  }

  lemma LandTags(lib: Library, target: Store, t: Ref, p: Payload, a: Attempt)
    ensures Land(lib, target, t, p, a).tags ==
            if t.Tagged? && Commits(lib, t, p, a) then target.tags[t := lib.hash(p.root)] else target.tags
  {
    UploadKeeps(target, t.repo, lib.hash, p.parts + [p.root]);
    UploadKeeps(target, t.repo, lib.hash, p.parts);
  }

  lemma OthersStay(c: R.Config, r: R.Sys, e: R.Event, v: R.Worker)
    requires !e.Resets? && !e.Ticks? && v != e.w
    ensures R.Next(c, r, e).PhaseOf(v) == r.PhaseOf(v)
  {
  }

  /** The step `e` of worker `w` does to the tables, the tags and that worker what its action does. */
  ghost predicate Mirrors(
      cfg: Config, r: R.Sys, target: Store, w: R.Worker, task: Task, pc: Pc, seen: Store, e: R.Event) {
    var r', f := R.Next(RunConfig(cfg), r, e), Act(cfg, r.clock, r.gate, target, task, pc, seen);
    && r'.gate == f.gate && r'.clock == r.clock && r'.tags == f.target.tags
    && Fits(cfg.lib.hash, f.pc, r'.PhaseOf(w)) && !e.Resets? && !e.Ticks? && e.w == w
  }

  lemma AskingIsStep(cfg: Config, r: R.Sys, target: Store, w: R.Worker, task: Task, seen: Store, start: Start)
    requires r.PhaseOf(w).Idle? && r.tags == target.tags && start.Enter?
    ensures Mirrors(cfg, r, target, w, task, Asking(start), seen, R.Begins(w, start.t))
  {
  }

  lemma MovingIsStep(
      cfg: Config, r: R.Sys, target: Store, w: R.Worker, task: Task, seen: Store, t: Ref, p: Payload, final: Ref)
    requires r.PhaseOf(w) == R.Holding(t) && r.tags == target.tags
    ensures Mirrors(cfg, r, target, w, task, Moving(t, p, final), seen, R.Reassigns(w, final))
  {
  }

  lemma ReadyIsStep(cfg: Config, r: R.Sys, target: Store, w: R.Worker, task: Task, seen: Store, t: Ref, p: Payload)
    requires r.PhaseOf(w) == R.Holding(t) && r.tags == target.tags
    requires Decide(cfg, task.env, target, t, cfg.lib.hash(p.root)).Write?
    ensures Mirrors(cfg, r, target, w, task, Ready(t, p), seen, R.Heads(w, cfg.lib.hash(p.root)))
  {
    assert R.MayPush(RunConfig(cfg), r.tags, t, cfg.lib.hash(p.root));
  }

  lemma SendingIsStep(
      cfg: Config, r: R.Sys, target: Store, w: R.Worker, task: Task, seen: Store, t: Ref, p: Payload, k: nat)
    requires r.PhaseOf(w) == R.Pushing(t, cfg.lib.hash(p.root)) && r.tags == target.tags
    ensures Mirrors(cfg, r, target, w, task, Sending(t, p, k), seen,
                    R.Pushes(w, Commits(cfg.lib, t, p, AttemptAt(cfg.lib, task.env, t, p, k))))
  {
    LandTags(cfg.lib, target, t, p, AttemptAt(cfg.lib, task.env, t, p, k));
  }

  lemma EndIsStep(cfg: Config, r: R.Sys, target: Store, w: R.Worker, task: Task, seen: Store, pc: Pc, e: R.Event)
    requires Fits(cfg.lib.hash, pc, r.PhaseOf(w)) && r.tags == target.tags
    requires pc.Stamping? || pc.Recording? || pc.Leaving?
    requires StepOf(cfg, target, w, task, pc) == [e]
    ensures Mirrors(cfg, r, target, w, task, pc, seen, e)
  {
  }

  lemma LocalStep(cfg: Config, r: R.Sys, target: Store, w: R.Worker, task: Task, pc: Pc, seen: Store, e: R.Event)
    requires Fits(cfg.lib.hash, pc, r.PhaseOf(w)) && r.tags == target.tags
    requires StepOf(cfg, target, w, task, pc) == [e]
    ensures Mirrors(cfg, r, target, w, task, pc, seen, e)
  {
    match pc
    case Asking(start) => AskingIsStep(cfg, r, target, w, task, seen, start);
    case Moving(t, p, final) => MovingIsStep(cfg, r, target, w, task, seen, t, p, final);
    case Ready(t, p) => ReadyIsStep(cfg, r, target, w, task, seen, t, p);
    case Sending(t, p, k) => SendingIsStep(cfg, r, target, w, task, seen, t, p, k);
    case _ => EndIsStep(cfg, r, target, w, task, seen, pc, e);
  }

  /** An action that is a step of the protocol has the effect of that step. */
  lemma ActionIsStep(cfg: Config, s: Sys, r: R.Sys, w: R.Worker, seen: Store, e: R.Event)
    requires Simulates(cfg, s, r) && w in s.procs
    requires StepOf(cfg, s.target, w, s.procs[w].task, s.procs[w].pc) == [e]
    ensures Simulates(cfg, Next(cfg, s, Acts(w, seen)), R.Next(RunConfig(cfg), r, e))
  {
    assert Fits(cfg.lib.hash, s.PcOf(w), r.PhaseOf(w));
    LocalStep(cfg, r, s.target, w, s.procs[w].task, s.procs[w].pc, seen, e);
    var s', r' := Next(cfg, s, Acts(w, seen)), R.Next(RunConfig(cfg), r, e);
    forall v ensures Fits(cfg.lib.hash, s'.PcOf(v), r'.PhaseOf(v)) {
      if v != w {
        OthersStay(RunConfig(cfg), r, e, v);
        assert Fits(cfg.lib.hash, s.PcOf(v), r.PhaseOf(v));
      }
    }
  }

  lemma SilentLocal(
      cfg: Config, clock: int, g: GateState, target: Store, w: R.Worker, task: Task, pc: Pc, seen: Store,
          phase: R.Phase)
    requires Fits(cfg.lib.hash, pc, phase) && StepOf(cfg, target, w, task, pc) == []
    ensures var f := Act(cfg, clock, g, target, task, pc, seen);
            f.gate == g && f.target.tags == target.tags && Fits(cfg.lib.hash, f.pc, phase)
  {
    match pc
    case Claimed(t) => AfterPullHolds(cfg.lib.hash, t, task.pull(seen));
    case _ =>
  }

  lemma AfterPullHolds(hash: Object -> Digest, t: Ref, m: Middle)
    ensures Fits(hash, AfterPull(t, m), R.Holding(t))
  {
  }

  lemma SilentAction(cfg: Config, s: Sys, r: R.Sys, w: R.Worker, seen: Store)
    requires Simulates(cfg, s, r) && w in s.procs
    requires StepOf(cfg, s.target, w, s.procs[w].task, s.procs[w].pc) == []
    ensures Simulates(cfg, Next(cfg, s, Acts(w, seen)), r)
  {
    assert Fits(cfg.lib.hash, s.PcOf(w), r.PhaseOf(w));
    SilentLocal(cfg, s.clock, s.gate, s.target, w, s.procs[w].task, s.procs[w].pc, seen, r.PhaseOf(w));
    var s' := Next(cfg, s, Acts(w, seen));
    forall v ensures Fits(cfg.lib.hash, s'.PcOf(v), r.PhaseOf(v)) {
      if v != w { assert Fits(cfg.lib.hash, s.PcOf(v), r.PhaseOf(v)); }
    }
  }

  /** A new call, a reset and the clock change no phase. */
  lemma OtherEvents(cfg: Config, s: Sys, r: R.Sys, e: Event)
    requires Simulates(cfg, s, r) && !e.Acts?
    ensures Simulates(cfg, Next(cfg, s, e), if e.Calls? then r else R.Next(RunConfig(cfg), r, StepsOf(cfg, s, e)[0]))
  {
    var s', r' := Next(cfg, s, e), if e.Calls? then r else R.Next(RunConfig(cfg), r, StepsOf(cfg, s, e)[0]);
    forall v ensures Fits(cfg.lib.hash, s'.PcOf(v), r'.PhaseOf(v)) {
      assert Fits(cfg.lib.hash, s.PcOf(v), r.PhaseOf(v));
    }
  }

  lemma SimulatesStep(cfg: Config, s: Sys, r: R.Sys, e: Event)
    requires Simulates(cfg, s, r)
    ensures Simulates(cfg, Next(cfg, s, e), R.Exec(RunConfig(cfg), r, StepsOf(cfg, s, e)))
  {
    var steps := StepsOf(cfg, s, e);
    if |steps| == 1 {
      assert steps == [steps[0]];
      OneStep(RunConfig(cfg), r, steps[0]);
    }
    if !e.Acts? {
      OtherEvents(cfg, s, r, e);
    } else if e.w in s.procs {
      if steps == [] { SilentAction(cfg, s, r, e.w, e.seen); } else { ActionIsStep(cfg, s, r, e.w, e.seen, steps[0]); }
    }
  }

  lemma {:induction false} SimulatesRun(cfg: Config, s: Sys, r: R.Sys, es: seq<Event>)
    requires Simulates(cfg, s, r)
    ensures Simulates(cfg, Exec(cfg, s, es), R.Exec(RunConfig(cfg), r, Trace(cfg, s, es)))
    decreases |es|
  {
    if es != [] {
      var steps := StepsOf(cfg, s, es[0]);
      SimulatesStep(cfg, s, r, es[0]);
      SimulatesRun(cfg, Next(cfg, s, es[0]), R.Exec(RunConfig(cfg), r, steps), es[1..]);
      R.ExecAppend(RunConfig(cfg), r, steps, Trace(cfg, Next(cfg, s, es[0]), es[1..]));
    }
  }

  /** Any number of Mirror calls, interleaved action by action with each other and with the
      operator, is a run of the protocol: the same tables, clock and tags, and every call in a
      phase that fits what it does next. */
  lemma MirrorsAreRuns(cfg: Config, clock: int, target: Store, es: seq<Event>)
    ensures Simulates(cfg, Exec(cfg, Initial(clock, target), es),
                      R.Exec(RunConfig(cfg), R.Initial(clock, target.tags), Trace(cfg, Initial(clock, target), es)))
  {
    SimulatesRun(cfg, Initial(clock, target), R.Initial(clock, target.tags), es);
  }

  // ---- What the protocol says about the programs ----

  /** Unconditionally: when every call is done, nothing is claimed. */
  lemma NothingStaysClaimed(cfg: Config, clock: int, target: Store, es: seq<Event>)
    requires forall w :: Exec(cfg, Initial(clock, target), es).PcOf(w).Done?
    ensures Exec(cfg, Initial(clock, target), es).gate.pushed == {}
  {
    MirrorsAreRuns(cfg, clock, target, es);
    var s := Exec(cfg, Initial(clock, target), es);
    var trace := Trace(cfg, Initial(clock, target), es);
    var r := R.Exec(RunConfig(cfg), R.Initial(clock, target.tags), trace);
    R.NoLeakedClaims(RunConfig(cfg), clock, target.tags, trace);
    forall w | w in r.workers ensures !r.workers[w].Live() {
      assert Fits(cfg.lib.hash, s.PcOf(w), r.PhaseOf(w));
    }
  }

  /** The target to which an event admits a call, if it admits one. */
  function Admits(cfg: Config, s: Sys, e: Event): set<Ref> {
    if !e.Acts? || e.w !in s.procs then {}
    else match s.procs[e.w].pc
      case Asking(start) =>
        if start.Enter? && Begin(s.gate, cfg.cooldown, s.clock, start.t).verdict.Admit? then {start.t} else {}
      case Moving(t, _, final) =>
        if Reassign(s.gate, cfg.cooldown, s.clock, t, final).verdict.Admit? then {final} else {}
      case _ => {}
  }

  /** No call is admitted to a target that another call is about to release for good. */
  ghost predicate Undisturbed(cfg: Config, s: Sys, e: Event) {
    forall w, t :: t in Admits(cfg, s, e) ==> !(s.PcOf(w).Leaving? && s.PcOf(w).t == t)
  }

  ghost predicate UndisturbedAll(cfg: Config, s: Sys, es: seq<Event>)
    decreases |es|
  {
    es != [] ==> Undisturbed(cfg, s, es[0]) && UndisturbedAll(cfg, Next(cfg, s, es[0]), es[1..])
  }

  lemma UndisturbedRespects(cfg: Config, s: Sys, r: R.Sys, e: Event)
    requires Simulates(cfg, s, r) && Undisturbed(cfg, s, e)
    ensures R.RespectsAll(RunConfig(cfg), r, StepsOf(cfg, s, e))
  {
    var c, steps := RunConfig(cfg), StepsOf(cfg, s, e);
    if |steps| == 1 {
      forall w, t | t in R.Claimed(c, r, steps[0]) ensures !R.InWindow(r, w, t) {
        assert e.Acts? && Fits(cfg.lib.hash, s.PcOf(e.w), r.PhaseOf(e.w)) && t in Admits(cfg, s, e);
        assert Fits(cfg.lib.hash, s.PcOf(w), r.PhaseOf(w));
      }
      assert steps[1..] == [];
      assert R.RespectsAll(c, R.Next(c, r, steps[0]), []);
    }
  }

  /** What a call holds: the target it works on from its admission until it stamps a failure or
      leaves. */
  predicate WorksOn(pc: Pc, t: Ref) {
    match pc
    case Claimed(u) => u == t
    case Moving(u, _, _) => u == t
    case Ready(u, _) => u == t
    case Ensuring(u, _) => u == t
    case Sending(u, _, _) => u == t
    case Stamping(u, _) => u == t
    case Recording(u, _, _) => u == t
    case _ => false
  }

  lemma WorkingIsLive(cfg: Config, s: Sys, r: R.Sys, v: R.Worker, t: Ref)
    requires Simulates(cfg, s, r) && WorksOn(s.PcOf(v), t)
    ensures v in r.workers && r.workers[v].Live() && r.workers[v].t == t
  {
    assert Fits(cfg.lib.hash, s.PcOf(v), r.PhaseOf(v));
  }

  // ---- Undisturbed runs ----

  /** Behind the system stands a state of the protocol in which claims are exclusive and whoever
      pushes a tag that may not be overwritten finds it absent or equal. */
  ghost predicate Sound(cfg: Config, s: Sys) {
    exists r :: Simulates(cfg, s, r) && R.Exclusive(RunConfig(cfg), r) && R.PushersAgree(RunConfig(cfg), r)
  }

  lemma InitiallySound(cfg: Config, clock: int, target: Store)
    ensures Sound(cfg, Initial(clock, target))
  {
    assert Simulates(cfg, Initial(clock, target), R.Initial(clock, target.tags));
  }

  lemma SoundStep(cfg: Config, s: Sys, e: Event)
    requires Sound(cfg, s) && Undisturbed(cfg, s, e)
    ensures Sound(cfg, Next(cfg, s, e))
    ensures forall t :: t in s.target.tags && !Overwritable(cfg, t) ==>
              t in Next(cfg, s, e).target.tags && Next(cfg, s, e).target.tags[t] == s.target.tags[t]
  {
    var c := RunConfig(cfg);
    var r :| Simulates(cfg, s, r) && R.Exclusive(c, r) && R.PushersAgree(c, r);
    SimulatesStep(cfg, s, r, e);
    UndisturbedRespects(cfg, s, r, e);
    R.ExclusiveRun(c, r, StepsOf(cfg, s, e));
    R.TagsKept(c, r, StepsOf(cfg, s, e));
  }

  /** Every state that an undisturbed run reaches from a sound one, such as the empty system, is
      sound. */
  lemma {:induction false} SoundRun(cfg: Config, s: Sys, es: seq<Event>)
    requires Sound(cfg, s) && UndisturbedAll(cfg, s, es)
    ensures Sound(cfg, Exec(cfg, s, es))
    decreases |es|
  {
    if es != [] {
      SoundStep(cfg, s, es[0]);
      SoundRun(cfg, Next(cfg, s, es[0]), es[1..]);
    }
  }

  /** In a sound state at most one call works on a target. */
  lemma OneCallPerTarget(cfg: Config, s: Sys, v: R.Worker, w: R.Worker, t: Ref)
    requires Sound(cfg, s) && WorksOn(s.PcOf(v), t) && WorksOn(s.PcOf(w), t)
    ensures v == w
  {
    var r :| Simulates(cfg, s, r) && R.Exclusive(RunConfig(cfg), r) && R.PushersAgree(RunConfig(cfg), r);
    WorkingIsLive(cfg, s, r, v, t);
    WorkingIsLive(cfg, s, r, w, t);
  }

  /** In every undisturbed run of any number of Mirror calls, a tag that may not be overwritten
      keeps its digest once it is there, whatever the sources, faults and partial pushes. */
  lemma {:induction false} ConcurrentTagImmutability(cfg: Config, s: Sys, es: seq<Event>, t: Ref)
    requires Sound(cfg, s) && UndisturbedAll(cfg, s, es)
    requires t in s.target.tags && !Overwritable(cfg, t)
    ensures t in Exec(cfg, s, es).target.tags && Exec(cfg, s, es).target.tags[t] == s.target.tags[t]
    decreases |es|
  {
    if es != [] {
      SoundStep(cfg, s, es[0]);
      ConcurrentTagImmutability(cfg, Next(cfg, s, es[0]), es[1..], t);
    }
  }

  /** From the empty system: a tag that may not be overwritten keeps its digest from the moment it
      is there, in every undisturbed run. */
  lemma MirrorsKeepTags(cfg: Config, clock: int, target: Store, es: seq<Event>, fs: seq<Event>, t: Ref)
    requires UndisturbedAll(cfg, Initial(clock, target), es)
    requires UndisturbedAll(cfg, Exec(cfg, Initial(clock, target), es), fs)
    requires t in Exec(cfg, Initial(clock, target), es).target.tags && !Overwritable(cfg, t)
    ensures var s := Exec(cfg, Initial(clock, target), es);
            t in Exec(cfg, s, fs).target.tags && Exec(cfg, s, fs).target.tags[t] == s.target.tags[t]
  {
    InitiallySound(cfg, clock, target);
    SoundRun(cfg, Initial(clock, target), es);
    ConcurrentTagImmutability(cfg, Exec(cfg, Initial(clock, target), es), fs, t);
  }

  // ---- Content addressing ----

  lemma NextAddressed(cfg: Config, s: Sys, e: Event)
    requires Addressed(s.target.content, cfg.lib.hash)
    ensures Addressed(Next(cfg, s, e).target.content, cfg.lib.hash)
  {
    if e.Acts? && e.w in s.procs && s.procs[e.w].pc.Sending? {
      var pc := s.procs[e.w].pc;
      UploadAddressed(s.target, pc.t.repo, cfg.lib.hash, pc.p.parts + [pc.p.root]);
      UploadAddressed(s.target, pc.t.repo, cfg.lib.hash, pc.p.parts);
    }
  }

  /** Every interleaving keeps every object of the target under its own digest. */
  lemma {:induction false} RunStaysAddressed(cfg: Config, s: Sys, es: seq<Event>)
    requires Addressed(s.target.content, cfg.lib.hash)
    ensures Addressed(Exec(cfg, s, es).target.content, cfg.lib.hash)
    decreases |es|
  {
    if es != [] {
      NextAddressed(cfg, s, es[0]);
      RunStaysAddressed(cfg, Next(cfg, s, es[0]), es[1..]);
    }
  }

  // ---- The cooldown, as the programs see it ----

  /** A failure of `t`, stamped `at`, is on record. */
  ghost predicate OnRecord(cfg: Config, s: Sys, t: Ref, at: int) {
    Sound(cfg, s) && t in s.gate.failed && s.gate.failed[t] == at
  }

  ghost predicate NoReset(es: seq<Event>) { forall i :: 0 <= i < |es| ==> !es[i].Resets? }

  lemma OneStepKeepsRecord(cfg: Config, s: Sys, r: R.Sys, e: Event, t: Ref)
    requires cfg.cooldown > 0 && Simulates(cfg, s, r) && R.Exclusive(RunConfig(cfg), r) && !e.Resets?
    requires t in s.gate.failed && s.clock < s.gate.failed[t] + cfg.cooldown
    ensures var g := R.Exec(RunConfig(cfg), r, StepsOf(cfg, s, e)).gate;
            t in g.failed && g.failed[t] == s.gate.failed[t]
  {
    var steps := StepsOf(cfg, s, e);
    if |steps| == 1 {
      assert steps == [steps[0]];
      OneStep(RunConfig(cfg), r, steps[0]);
      R.RecordKeptStep(RunConfig(cfg), r, steps[0], t);
    }
  }

  lemma OnRecordStep(cfg: Config, s: Sys, e: Event, t: Ref, at: int)
    requires cfg.cooldown > 0 && OnRecord(cfg, s, t, at) && s.clock < at + cfg.cooldown
    requires Undisturbed(cfg, s, e) && !e.Resets?
    ensures OnRecord(cfg, Next(cfg, s, e), t, at)
  {
    var r :| Simulates(cfg, s, r) && R.Exclusive(RunConfig(cfg), r) && R.PushersAgree(RunConfig(cfg), r);
    SoundStep(cfg, s, e);
    SimulatesStep(cfg, s, r, e);
    OneStepKeepsRecord(cfg, s, r, e, t);
  }

  lemma ClockStep(cfg: Config, s: Sys, e: Event)
    ensures s.clock <= Next(cfg, s, e).clock
  {
  }

  lemma {:induction false} ClockMonotone(cfg: Config, s: Sys, es: seq<Event>)
    ensures s.clock <= Exec(cfg, s, es).clock
    decreases |es|
  {
    if es != [] {
      ClockStep(cfg, s, es[0]);
      ClockMonotone(cfg, Next(cfg, s, es[0]), es[1..]);
    }
  }

  lemma {:induction false} OnRecordRun(cfg: Config, s: Sys, es: seq<Event>, t: Ref, at: int)
    requires cfg.cooldown > 0 && OnRecord(cfg, s, t, at) && UndisturbedAll(cfg, s, es) && NoReset(es)
    requires Exec(cfg, s, es).clock < at + cfg.cooldown
    ensures OnRecord(cfg, Exec(cfg, s, es), t, at)
    decreases |es|
  {
    if es != [] {
      ClockMonotone(cfg, s, es);
      OnRecordStep(cfg, s, es[0], t, at);
      OnRecordRun(cfg, Next(cfg, s, es[0]), es[1..], t, at);
    }
  }

  /** A call that is about to ask for `t`. */
  predicate Wants(pc: Pc, t: Ref) {
    match pc
    case Asking(start) => start.Enter? && start.t == t
    case Moving(u, _, final) => final == t && u != t
    case _ => false
  }

  /** What a call returns, or will return after its deferred release. */
  function Returned(pc: Pc): Option<Outcome> {
    match pc
    case Leaving(_, o) => Some(o)
    case Done(o) => Some(o)
    case _ => None
  }

  // ---- With the cooldown off no call returns a retry error ----

  predicate NoRetry(o: Outcome) { o.Some? ==> o.value.Plain? }

  /** Neither what a call returns nor what it is about to return is a retry error. */
  predicate Untimed(pc: Pc) {
    match pc
    case Asking(start) => start.Quit? ==> NoRetry(start.outcome)
    case Leaving(_, o) => NoRetry(o)
    case Done(o) => NoRetry(o)
    case _ => true
  }

  /** A Mirror call never gives up with a retry error before it has asked. */
  lemma StartUntimed(cfg: Config, job: Job)
    ensures Untimed(Asking(TaskOf(cfg, job).start))
  {
  }

  lemma GenuineUntimed(cfg: Config, task: Task)
    requires Genuine(cfg, task)
    ensures Untimed(Asking(task.start))
  {
    var job :| task == TaskOf(cfg, job);
    StartUntimed(cfg, job);
  }

  lemma ActUntimed(cfg: Config, clock: int, g: GateState, target: Store, task: Task, pc: Pc, seen: Store)
    requires cfg.cooldown <= 0 && Untimed(pc)
    ensures Untimed(Act(cfg, clock, g, target, task, pc, seen).pc)
  {
  }

  lemma NextUntimed(cfg: Config, s: Sys, e: Event)
    requires cfg.cooldown <= 0 && (forall w :: Untimed(s.PcOf(w))) && (e.Calls? ==> Untimed(Asking(e.task.start)))
    ensures forall w :: Untimed(Next(cfg, s, e).PcOf(w))
  {
    if e.Acts? && e.w in s.procs {
      assert Untimed(s.PcOf(e.w));
      ActUntimed(cfg, s.clock, s.gate, s.target, s.procs[e.w].task, s.procs[e.w].pc, e.seen);
    }
    forall w ensures Untimed(Next(cfg, s, e).PcOf(w)) {
      assert Untimed(s.PcOf(w));
    }
  }

  /** With no positive cooldown no run leaves any Mirror call with a retry error. */
  lemma {:induction false} NoRetryErrors(cfg: Config, s: Sys, es: seq<Event>)
    requires cfg.cooldown <= 0 && (forall w :: Untimed(s.PcOf(w))) && MirrorCalls(cfg, es)
    ensures forall w :: Untimed(Exec(cfg, s, es).PcOf(w))
    decreases |es|
  {
    if es != [] {
      if es[0].Calls? { GenuineUntimed(cfg, es[0].task); }
      NextUntimed(cfg, s, es[0]);
      NoRetryErrors(cfg, Next(cfg, s, es[0]), es[1..]);
    }
  }

  /** The call of `v` does not work on `t`, and if it asks for it, it returns the retry error. */
  ghost predicate KeptOut(cfg: Config, s: Sys, v: R.Worker, t: Ref, until: int) {
    && !WorksOn(s.PcOf(v), t)
    && (Wants(s.PcOf(v), t) ==>
          forall seen :: Returned(Next(cfg, s, Acts(v, seen)).PcOf(v)) == Some(InCooldownUntil(until)))
  }

  lemma NobodyWorksOnRecord(cfg: Config, s: Sys, v: R.Worker, t: Ref)
    requires Sound(cfg, s) && t in s.gate.failed
    ensures !WorksOn(s.PcOf(v), t)
  {
    var r :| Simulates(cfg, s, r) && R.Exclusive(RunConfig(cfg), r) && R.PushersAgree(RunConfig(cfg), r);
    if WorksOn(s.PcOf(v), t) { WorkingIsLive(cfg, s, r, v, t); }
  }

  lemma BothGatesReject(g: GateState, cooldown: int, clock: int, u: Ref, t: Ref)
    requires Cooling(g, cooldown, clock, t) && u != t
    ensures Begin(g, cooldown, clock, t).verdict == Reject(g.failed[t] + cooldown)
    ensures Reassign(g, cooldown, clock, u, t).verdict == Reject(g.failed[t] + cooldown)
  {
  }

  lemma RejectedStart(cooldown: int, clock: int, g: GateState, target: Store, start: Start)
    requires start.Enter? && Cooling(g, cooldown, clock, start.t)
    ensures Ask(cooldown, clock, g, target, start).pc == Done(InCooldownUntil(g.failed[start.t] + cooldown))
  {
  }

  lemma RejectedMove(
      cfg: Config, clock: int, g: GateState, target: Store, task: Task, seen: Store, u: Ref, p: Payload, t: Ref)
    requires Cooling(g, cfg.cooldown, clock, t) && u != t
    ensures Act(cfg, clock, g, target, task, Moving(u, p, t), seen).pc ==
            Leaving(u, InCooldownUntil(g.failed[t] + cfg.cooldown))
  {
    BothGatesReject(g, cfg.cooldown, clock, u, t);
  }

  lemma RejectedCall(cfg: Config, clock: int, g: GateState, target: Store, task: Task, pc: Pc, seen: Store, t: Ref)
    requires Cooling(g, cfg.cooldown, clock, t) && Wants(pc, t)
    ensures Returned(Act(cfg, clock, g, target, task, pc, seen).pc) == Some(InCooldownUntil(g.failed[t] + cfg.cooldown))
  {
    match pc
    case Asking(start) => RejectedStart(cfg.cooldown, clock, g, target, start);
    case Moving(u, p, final) => RejectedMove(cfg, clock, g, target, task, seen, u, p, final);
  }

  lemma RecordKeepsOut(cfg: Config, s: Sys, v: R.Worker, t: Ref, at: int)
    requires cfg.cooldown > 0 && OnRecord(cfg, s, t, at) && s.clock < at + cfg.cooldown
    ensures KeptOut(cfg, s, v, t, at + cfg.cooldown)
  {
    NobodyWorksOnRecord(cfg, s, v, t);
    if Wants(s.PcOf(v), t) {
      forall seen ensures Returned(Next(cfg, s, Acts(v, seen)).PcOf(v)) == Some(InCooldownUntil(at + cfg.cooldown)) {
        RejectedCall(cfg, s.clock, s.gate, s.target, s.procs[v].task, s.procs[v].pc, seen, t);
      }
    }
  }

  lemma RecordingRecords(cfg: Config, s: Sys, w: R.Worker, seen: Store, t: Ref, cause: Cause, at: int)
    requires cfg.cooldown > 0 && Sound(cfg, s) && s.PcOf(w) == Recording(t, cause, at)
    ensures OnRecord(cfg, Next(cfg, s, Acts(w, seen)), t, at)
  {
    SoundStep(cfg, s, Acts(w, seen));
  }

  /** Once a call has recorded a failure of `t` stamped `at`, then in every undisturbed run, until
      `at + cooldown` and while nobody resets: no call works on `t`, and every call that asks for
      `t` returns the retry error with exactly that time. */
  lemma ConcurrentCooldown(
      cfg: Config, s: Sys, w: R.Worker, seen: Store, t: Ref, cause: Cause, at: int, es: seq<Event>, v: R.Worker)
    requires cfg.cooldown > 0 && Sound(cfg, s) && s.PcOf(w) == Recording(t, cause, at)
    requires UndisturbedAll(cfg, Next(cfg, s, Acts(w, seen)), es) && NoReset(es)
    ensures var s' := Exec(cfg, Next(cfg, s, Acts(w, seen)), es);
            s'.clock < at + cfg.cooldown ==> KeptOut(cfg, s', v, t, at + cfg.cooldown)
  {
    var s' := Exec(cfg, Next(cfg, s, Acts(w, seen)), es);
    RecordingRecords(cfg, s, w, seen, t, cause, at);
    if s'.clock < at + cfg.cooldown {
      OnRecordRun(cfg, Next(cfg, s, Acts(w, seen)), es, t, at);
      RecordKeepsOut(cfg, s', v, t, at);
    }
  }
}
