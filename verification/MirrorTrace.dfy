/** A Mirror program that runs alone is the Mirror call. */
module MirrorTrace {
  import opened Text
  import opened Refs
  import opened Gate
  import opened Registry
  import opened Mirroring
  import opened Programs
  import R = Runs
  import Retry

  /** The clock readings of a call, in the order in which it takes them. */
  predicate Ordered(clock: int, env: Env) { clock <= env.beginAt <= env.reassignAt <= env.failAt }

  /** A system in which worker `w` is at `pc` of `task`. */
  function With(s: Sys, g: GateState, target: Store, clock: int, w: R.Worker, task: Task, pc: Pc): Sys {
    Sys(g, target, clock, s.procs[w := Proc(task, pc)])
  }

  /** Nobody but `w` acts, and it sees the target as it is. */
  ghost function Alone(w: R.Worker): Discipline { (s: Sys, e: Event) => e.Ticks? || e == Acts(w, s.target) }

  lemma Follows(cfg: Config, w: R.Worker, a: Sys, es: seq<Event>, b: Sys, fs: seq<Event>, c: Sys)
    requires Leads(cfg, Alone(w), a, es, b) && Leads(cfg, Alone(w), b, fs, c)
    ensures Leads(cfg, Alone(w), a, es + fs, c)
  {
    Joined(cfg, Alone(w), a, es, b, fs, c);
  }

  lemma One(cfg: Config, w: R.Worker, s: Sys, e: Event)
    requires e.Ticks? || e == Acts(w, s.target)
    ensures Leads(cfg, Alone(w), s, [e], Next(cfg, s, e))
  {
    Stay(cfg, Alone(w), s);
    OneMore(cfg, Alone(w), s, [], s, e);
    assert [] + [e] == [e];
  }

  lemma Action(cfg: Config, s: Sys, g: GateState, target: Store, clock: int, w: R.Worker, task: Task, pc: Pc)
    ensures var f := Act(cfg, clock, g, target, task, pc, target);
            Leads(cfg, Alone(w), With(s, g, target, clock, w, task, pc), [Acts(w, target)],
                  With(s, f.gate, f.target, clock, w, task, f.pc))
  {
    One(cfg, w, With(s, g, target, clock, w, task, pc), Acts(w, target));
    var f := Act(cfg, clock, g, target, task, pc, target);
    assert s.procs[w := Proc(task, pc)][w := Proc(task, f.pc)] == s.procs[w := Proc(task, f.pc)];
  }

  lemma Wait(cfg: Config, s: Sys, g: GateState, target: Store, clock: int, w: R.Worker, task: Task, pc: Pc, until: int)
    requires clock <= until
    ensures Leads(cfg, Alone(w), With(s, g, target, clock, w, task, pc), [Ticks(until - clock)],
            With(s, g, target, until, w, task, pc))
  {
    One(cfg, w, With(s, g, target, clock, w, task, pc), Ticks(until - clock));
  }

  /** Stamp, record, release: the failing end of a call. */
  lemma FailRun(
      cfg: Config, s: Sys, g: GateState, target: Store, clock: int, w: R.Worker, task: Task, t: Ref, cause: Cause)
      returns (es: seq<Event>)
    requires clock <= task.env.failAt
    ensures var call := Failing(cfg, task.env, g, target, t, cause, None);
            Leads(cfg, Alone(w), With(s, g, target, clock, w, task, Stamping(t, cause)), es,
                  With(s, call.gate, target, task.env.failAt, w, task, Done(call.outcome)))
  {
    var at, a := task.env.failAt, Acts(w, target);
    var g' := Fail(g, cfg.cooldown, at, t);
    var o := Some(FailureError(cfg, at, cause));
    var s0 := With(s, g, target, clock, w, task, Stamping(t, cause));
    var s1 := With(s, g, target, at, w, task, Stamping(t, cause));
    var s2 := With(s, g, target, at, w, task, Recording(t, cause, at));
    var s3 := With(s, g', target, at, w, task, Leaving(t, o));
    Wait(cfg, s, g, target, clock, w, task, Stamping(t, cause), at);
    Action(cfg, s, g, target, at, w, task, Stamping(t, cause));
    Action(cfg, s, g, target, at, w, task, Recording(t, cause, at));
    Action(cfg, s, g', target, at, w, task, Leaving(t, o));
    var tick := [Ticks(at - clock)];
    Follows(cfg, w, s0, tick, s1, [a], s2);
    Follows(cfg, w, s0, tick + [a], s2, [a], s3);
    Follows(cfg, w, s0, tick + [a] + [a], s3, [a], With(s, Finish(g', t), target, at, w, task, Done(o)));
    es := tick + [a] + [a] + [a];
  }

  function RunOf(cfg: Config, task: Task, t: Ref, p: Payload, k: nat): Retry.Run
    requires 1 <= k <= Retry.Attempts(cfg.attempts)
  {
    Retry.RunFrom(Retry.Attempts(cfg.attempts), cfg.backoff, Errors(cfg.lib, task.env, t, p), task.env.interrupted, k)
  }

  function AfterRun(t: Ref, run: Retry.Run): Pc {
    if run.result.Done? then Leaving(t, None) else Stamping(t, PushFailed)
  }

  lemma AttemptOf(cfg: Config, task: Task, t: Ref, p: Payload, k: nat)
    requires 1 <= k <= Retry.Attempts(cfg.attempts)
    ensures var next := AfterAttempt(cfg, task.env, t, p, k);
            if next.Sending? then
              next == Sending(t, p, k + 1) && k < Retry.Attempts(cfg.attempts)
                  && RunOf(cfg, task, t, p, k) == RunOf(cfg, task, t, p, k + 1)
            else RunOf(cfg, task, t, p, k).calls == k && next == AfterRun(t, RunOf(cfg, task, t, p, k))
  {
    assert Errors(cfg.lib, task.env, t, p)(k) == AttemptAt(cfg.lib, task.env, t, p, k).error;
  }

  lemma AttemptRun(
      cfg: Config, s: Sys, g: GateState, target: Store, clock: int, w: R.Worker, task: Task, t: Ref, p: Payload, k: nat)
    requires 1 <= k
    ensures Leads(cfg, Alone(w),
            With(s, g, LandAll(cfg.lib, task.env, target, t, p, k - 1), clock, w, task, Sending(t, p, k)),
                  [Acts(w, LandAll(cfg.lib, task.env, target, t, p, k - 1))],
                  With(s, g, LandAll(cfg.lib, task.env, target, t, p, k), clock, w, task,
                      AfterAttempt(cfg, task.env, t, p, k)))
  {
    Action(cfg, s, g, LandAll(cfg.lib, task.env, target, t, p, k - 1), clock, w, task, Sending(t, p, k));
  }

  lemma OneMoreAttempt(
      cfg: Config, s: Sys, g: GateState, target: Store, clock: int, w: R.Worker, task: Task, t: Ref, p: Payload, k: nat,
      rest: seq<Event>, end: Sys)
    requires 1 <= k && AfterAttempt(cfg, task.env, t, p, k) == Sending(t, p, k + 1)
    requires Leads(cfg, Alone(w),
             With(s, g, LandAll(cfg.lib, task.env, target, t, p, k), clock, w, task, Sending(t, p, k + 1)),
             rest, end)
    ensures Leads(cfg, Alone(w),
            With(s, g, LandAll(cfg.lib, task.env, target, t, p, k - 1), clock, w, task, Sending(t, p, k)),
                  [Acts(w, LandAll(cfg.lib, task.env, target, t, p, k - 1))] + rest, end)
  {
    AttemptRun(cfg, s, g, target, clock, w, task, t, p, k);
    Follows(cfg, w, With(s, g, LandAll(cfg.lib, task.env, target, t, p, k - 1), clock, w, task, Sending(t, p, k)),
            [Acts(w, LandAll(cfg.lib, task.env, target, t, p, k - 1))],
            With(s, g, LandAll(cfg.lib, task.env, target, t, p, k), clock, w, task, Sending(t, p, k + 1)), rest, end);
  }

  /** The push attempts from the `k`-th on leave the target and the call where the retry loop does. */
  lemma {:induction false} PushesRun(
      cfg: Config, s: Sys, g: GateState, target: Store, clock: int, w: R.Worker, task: Task, t: Ref, p: Payload, k: nat)
      returns (es: seq<Event>)
    requires 1 <= k <= Retry.Attempts(cfg.attempts)
    ensures var run := RunOf(cfg, task, t, p, k);
            Leads(cfg, Alone(w), With(s, g, LandAll(cfg.lib, task.env, target, t, p, k - 1), clock, w, task,
                Sending(t, p, k)),
                es,
                  With(s, g, LandAll(cfg.lib, task.env, target, t, p, run.calls), clock, w, task, AfterRun(t, run)))
    decreases Retry.Attempts(cfg.attempts) - k
  {
    AttemptOf(cfg, task, t, p, k);
    AttemptRun(cfg, s, g, target, clock, w, task, t, p, k);
    es := [Acts(w, LandAll(cfg.lib, task.env, target, t, p, k - 1))];
    if AfterAttempt(cfg, task.env, t, p, k).Sending? {
      var rest := PushesRun(cfg, s, g, target, clock, w, task, t, p, k + 1);
      var run := RunOf(cfg, task, t, p, k);
      OneMoreAttempt(cfg, s, g, target, clock, w, task, t, p, k, rest,
                     With(s, g, LandAll(cfg.lib, task.env, target, t, p, run.calls), clock, w, task, AfterRun(t, run)));
      es := es + rest;
    }
  }

  /** From the first push attempt to the end. */
  lemma SendRun(
      cfg: Config, s: Sys, g: GateState, target: Store, clock: int, w: R.Worker, task: Task, t: Ref, p: Payload)
      returns (es: seq<Event>, clock': int)
    requires clock <= task.env.failAt
    ensures var call := Push(cfg, task.env, g, target, t, p);
            Leads(cfg, Alone(w), With(s, g, target, clock, w, task, Sending(t, p, 1)), es,
                  With(s, call.gate, call.target, clock', w, task, Done(call.outcome)))
  {
    var run := PushRun(cfg, task.env, t, p);
    assert run == RunOf(cfg, task, t, p, 1);
    var after := LandAll(cfg.lib, task.env, target, t, p, run.calls);
    assert LandAll(cfg.lib, task.env, target, t, p, 0) == target;
    var s0 := With(s, g, target, clock, w, task, Sending(t, p, 1));
    es := PushesRun(cfg, s, g, target, clock, w, task, t, p, 1);
    if run.result.Done? {
      clock' := clock;
      Action(cfg, s, g, after, clock, w, task, Leaving(t, None));
      Follows(cfg, w, s0, es, With(s, g, after, clock, w, task, Leaving(t, None)), [Acts(w, after)],
              With(s, Finish(g, t), after, clock, w, task, Done(None)));
      es := es + [Acts(w, after)];
    } else {
      clock' := task.env.failAt;
      var rest := FailRun(cfg, s, g, after, clock, w, task, t, PushFailed);
      var call := Failing(cfg, task.env, g, after, t, PushFailed, None);
      Follows(cfg, w, s0, es, With(s, g, after, clock, w, task, Stamping(t, PushFailed)), rest,
              With(s, call.gate, after, clock', w, task, Done(call.outcome)));
      es := es + rest;
    }
  }

  lemma LeaveRun(
      cfg: Config, s: Sys, g: GateState, target: Store, clock: int, w: R.Worker, task: Task, t: Ref, o: Outcome)
    ensures Leads(cfg, Alone(w), With(s, g, target, clock, w, task, Leaving(t, o)), [Acts(w, target)],
                  With(s, Finish(g, t), target, clock, w, task, Done(o)))
  {
    Action(cfg, s, g, target, clock, w, task, Leaving(t, o));
  }

  /** From the repository on. */
  lemma EnsureRun(
      cfg: Config, s: Sys, g: GateState, target: Store, clock: int, w: R.Worker, task: Task, t: Ref, p: Payload)
      returns (es: seq<Event>, clock': int)
    requires clock <= task.env.failAt && Decide(cfg, task.env, target, t, cfg.lib.hash(p.root)).Write?
    ensures var call := Conclude(cfg, task.env, g, target, t, p);
            Leads(cfg, Alone(w), With(s, g, target, clock, w, task, Ensuring(t, p)), es,
                  With(s, call.gate, call.target, clock', w, task, Done(call.outcome)))
  {
    var e := Ensure(cfg, task.env, target, t.repo);
    var call := Conclude(cfg, task.env, g, target, t, p);
    var s0 := With(s, g, target, clock, w, task, Ensuring(t, p));
    var first := [Acts(w, target)];
    Action(cfg, s, g, target, clock, w, task, Ensuring(t, p));
    var pc: Pc;
    clock' := clock;
    if !e.ok {
      pc, clock' := Stamping(t, EnsureRepository), task.env.failAt;
      es := FailRun(cfg, s, g, e.target, clock, w, task, t, EnsureRepository);
    } else if cfg.dryRun {
      pc, es := Leaving(t, None), [Acts(w, e.target)];
      LeaveRun(cfg, s, g, e.target, clock, w, task, t, None);
    } else {
      pc := Sending(t, p, 1);
      es, clock' := SendRun(cfg, s, g, e.target, clock, w, task, t, p);
    }
    Follows(cfg, w, s0, first, With(s, g, e.target, clock, w, task, pc), es,
            With(s, call.gate, call.target, clock', w, task, Done(call.outcome)));
    es := first + es;
  }

  /** From the look at the final target on. */
  lemma ConcludeRun(
      cfg: Config, s: Sys, g: GateState, target: Store, clock: int, w: R.Worker, task: Task, t: Ref, p: Payload)
      returns (es: seq<Event>, clock': int)
    requires clock <= task.env.failAt
    ensures var call := Conclude(cfg, task.env, g, target, t, p);
            Leads(cfg, Alone(w), With(s, g, target, clock, w, task, Ready(t, p)), es,
                  With(s, call.gate, call.target, clock', w, task, Done(call.outcome)))
  {
    var call := Conclude(cfg, task.env, g, target, t, p);
    var last := Decide(cfg, task.env, target, t, cfg.lib.hash(p.root));
    Action(cfg, s, g, target, clock, w, task, Ready(t, p));
    clock' := clock;
    match last {
      case Refuse(cause) =>
        es := FailRun(cfg, s, g, target, clock, w, task, t, cause);
        clock' := task.env.failAt;
      case Settled =>
        es := [Acts(w, target)];
        LeaveRun(cfg, s, g, target, clock, w, task, t, None);
      case Write => es, clock' := EnsureRun(cfg, s, g, target, clock, w, task, t, p);
    }
    Follows(cfg, w, With(s, g, target, clock, w, task, Ready(t, p)), [Acts(w, target)],
            With(s, g, target, clock, w, task, AfterDecision(t, p, last)), es,
            With(s, call.gate, call.target, clock', w, task, Done(call.outcome)));
    es := [Acts(w, target)] + es;
  }

  /** A change of target on the way, bounced or admitted. */
  lemma ReassignRun(
      cfg: Config, s: Sys, g: GateState, target: Store, w: R.Worker, task: Task, t: Ref, p: Payload, final: Ref)
      returns (es: seq<Event>, clock': int)
    requires task.env.beginAt <= task.env.reassignAt <= task.env.failAt && final != t
    ensures var call := Admitted(cfg, task.env, g, target, t, Carry(p, final));
            Leads(cfg, Alone(w), With(s, g, target, task.env.beginAt, w, task, Moving(t, p, final)), es,
                  With(s, call.gate, call.target, clock', w, task, Done(call.outcome)))
  {
    var at, pc := task.env.reassignAt, Moving(t, p, final);
    var call := Admitted(cfg, task.env, g, target, t, Carry(p, final));
    var f := Act(cfg, at, g, target, task, pc, target);
    var s0, s1 := With(s, g, target, task.env.beginAt, w, task, pc), With(s, g, target, at, w, task, pc);
    var s2 := With(s, f.gate, target, at, w, task, f.pc);
    var tick, act := [Ticks(at - task.env.beginAt)], [Acts(w, target)];
    Wait(cfg, s, g, target, task.env.beginAt, w, task, pc, at);
    Action(cfg, s, g, target, at, w, task, pc);
    Follows(cfg, w, s0, tick, s1, act, s2);
    if f.pc.Ready? {
      es, clock' := ConcludeRun(cfg, s, f.gate, target, at, w, task, final, p);
    } else {
      es, clock' := act, at;
      LeaveRun(cfg, s, f.gate, target, at, w, task, t, f.pc.outcome);
    }
    Follows(cfg, w, s0, tick + act, s2, es, With(s, call.gate, call.target, clock', w, task, Done(call.outcome)));
    es := tick + act + es;
  }

  lemma AdmittedRun(cfg: Config, s: Sys, g: GateState, target: Store, w: R.Worker, task: Task, t: Ref)
      returns (es: seq<Event>, clock': int)
    requires Ordered(task.env.beginAt, task.env)
    ensures var call := Admitted(cfg, task.env, g, target, t, task.pull(target));
            Leads(cfg, Alone(w), With(s, g, target, task.env.beginAt, w, task, Claimed(t)), es,
                  With(s, call.gate, call.target, clock', w, task, Done(call.outcome)))
  {
    var m := task.pull(target);
    var call := Admitted(cfg, task.env, g, target, t, m);
    Action(cfg, s, g, target, task.env.beginAt, w, task, Claimed(t));
    es, clock' := AfterPullRun(cfg, s, g, target, w, task, t, m);
    Follows(cfg, w, With(s, g, target, task.env.beginAt, w, task, Claimed(t)), [Acts(w, target)],
            With(s, g, target, task.env.beginAt, w, task, AfterPull(t, m)), es,
            With(s, call.gate, call.target, clock', w, task, Done(call.outcome)));
    es := [Acts(w, target)] + es;
  }

  lemma AfterPullRun(cfg: Config, s: Sys, g: GateState, target: Store, w: R.Worker, task: Task, t: Ref, m: Middle)
      returns (es: seq<Event>, clock': int)
    requires Ordered(task.env.beginAt, task.env)
    ensures var call := Admitted(cfg, task.env, g, target, t, m);
            Leads(cfg, Alone(w), With(s, g, target, task.env.beginAt, w, task, AfterPull(t, m)), es,
                  With(s, call.gate, call.target, clock', w, task, Done(call.outcome)))
  {
    clock' := task.env.beginAt;
    match m
    case Leave =>
      es := [Acts(w, target)];
      LeaveRun(cfg, s, g, target, clock', w, task, t, None);
    case Abort(cause) =>
      es := FailRun(cfg, s, g, target, clock', w, task, t, cause);
      clock' := task.env.failAt;
    case Carry(p, final) =>
      if final == t {
        es, clock' := ConcludeRun(cfg, s, g, target, clock', w, task, t, p);
      } else {
        es, clock' := ReassignRun(cfg, s, g, target, w, task, t, p, final);
      }
  }

  /** A call made with nobody else acting. */
  function Perform(cfg: Config, task: Task, g: GateState, target: Store): Call {
    match task.start
    case Quit(outcome) => Call(outcome, g, target, None)
    case Enter(_, _, t) => Entered(cfg, task.env, g, target, t, task.pull(target))
  }

  lemma StartRun(cfg: Config, s: Sys, g: GateState, target: Store, w: R.Worker, task: Task)
      returns (es: seq<Event>, clock': int)
    requires Ordered(task.env.beginAt, task.env)
    ensures var call := Perform(cfg, task, g, target);
            Leads(cfg, Alone(w), With(s, g, target, task.env.beginAt, w, task, Asking(task.start)), es,
                  With(s, call.gate, call.target, clock', w, task, Done(call.outcome)))
  {
    var at, call := task.env.beginAt, Perform(cfg, task, g, target);
    var f := Act(cfg, at, g, target, task, Asking(task.start), target);
    Action(cfg, s, g, target, at, w, task, Asking(task.start));
    es, clock' := [Acts(w, target)], at;
    if f.pc.Claimed? {
      var rest;
      rest, clock' := AdmittedRun(cfg, s, f.gate, target, w, task, f.pc.t);
      Follows(cfg, w, With(s, g, target, at, w, task, Asking(task.start)), es,
              With(s, f.gate, target, at, w, task, f.pc), rest,
              With(s, call.gate, call.target, clock', w, task, Done(call.outcome)));
      es := es + rest;
    }
  }

  /** A worker that makes a call, with nobody else acting and the clock as the call reads it, ends
      where the call does; no other worker has moved. */
  lemma TaskAlone(cfg: Config, s: Sys, w: R.Worker, task: Task) returns (es: seq<Event>, clock': int)
    requires s.PcOf(w).Done? && Ordered(s.clock, task.env)
    ensures var call := Perform(cfg, task, s.gate, s.target);
            Leads(cfg, Alone(w), Next(cfg, s, Calls(w, task)), es,
                  Sys(call.gate, call.target, clock', s.procs[w := Proc(task, Done(call.outcome))]))
  {
    var at, call := task.env.beginAt, Perform(cfg, task, s.gate, s.target);
    var s1 := With(s, s.gate, s.target, s.clock, w, task, Asking(task.start));
    var s2 := With(s, s.gate, s.target, at, w, task, Asking(task.start));
    var tick := [Ticks(at - s.clock)];
    Wait(cfg, s, s.gate, s.target, s.clock, w, task, Asking(task.start), at);
    es, clock' := StartRun(cfg, s, s.gate, s.target, w, task);
    Follows(cfg, w, s1, tick, s2, es, With(s, call.gate, call.target, clock', w, task, Done(call.outcome)));
    es := tick + es;
  }

  lemma PerformIsRun(cfg: Config, job: Job, g: GateState, target: Store)
    ensures Perform(cfg, TaskOf(cfg, job), g, target) == job.Run(cfg, g, target)
  {
  }

  /** A Mirror call with nobody else acting ends with the outcome, the tables and the target of the
      Mirror function. */
  lemma MirrorAlone(cfg: Config, s: Sys, w: R.Worker, job: Job) returns (es: seq<Event>, clock': int)
    requires s.PcOf(w).Done? && Ordered(s.clock, job.env)
    ensures var call, task := job.Run(cfg, s.gate, s.target), TaskOf(cfg, job);
            Leads(cfg, Alone(w), Next(cfg, s, Calls(w, task)), es,
                  Sys(call.gate, call.target, clock', s.procs[w := Proc(task, Done(call.outcome))]))
  {
    PerformIsRun(cfg, job, s.gate, s.target);
    es, clock' := TaskAlone(cfg, s, w, TaskOf(cfg, job));
  }
}
