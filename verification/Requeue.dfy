/** Retry errors, the requeue they cause, and the admission gate they come back to. */
module Requeue {
  import opened Text
  import opened Refs
  import opened Gate
  import opened Registry
  import opened Mirroring
  import opened MirrorFacts
  import opened Reconcile
  import P = Programs
  import R = Runs

  /** `at` is the end of the cooldown that the failure record of `t` starts. */
  predicate EndsCooldown(g: GateState, cooldown: int, t: Ref, at: int) {
    cooldown > 0 && t in g.failed && g.failed[t] + cooldown == at
  }

  lemma ConcludeRetry(cfg: Config, env: Env, g: GateState, target: Store, t: Ref, p: Payload)
    ensures var call := Conclude(cfg, env, g, target, t, p);
            IsRetry(call.outcome) ==> EndsCooldown(call.gate, cfg.cooldown, t, call.outcome.value.retryAt)
  {
  }

  /** The target whose cooldown an admitted call reports. */
  lemma AdmittedRetry(cfg: Config, env: Env, g: GateState, target: Store, t: Ref, m: Middle)
    ensures var call := Admitted(cfg, env, g, target, t, m);
            IsRetry(call.outcome) ==>
              || EndsCooldown(call.gate, cfg.cooldown, t, call.outcome.value.retryAt)
              || (m.Carry? && EndsCooldown(call.gate, cfg.cooldown, m.final, call.outcome.value.retryAt))
  {
    if m.Carry? {
      ConcludeRetry(cfg, env, g, target, t, m.payload);
      ConcludeRetry(cfg, env, Reassign(g, cfg.cooldown, env.reassignAt, t, m.final).gate, target, m.final, m.payload);
    }
  }

  /** At or after the end of a cooldown a target is rejected, by admission and by a change of
      target alike, exactly on a failure record that is still cooling, hence newer. */
  lemma RejectedOnlyByNewer(g: GateState, g': GateState, cooldown: int, held: Ref, t: Ref, at: int, later: int)
    requires EndsCooldown(g, cooldown, t, at) && at <= later && held != t
    ensures Begin(g', cooldown, later, t).verdict.Reject? <==> t in g'.failed && later - cooldown < g'.failed[t]
    ensures Reassign(g', cooldown, later, held, t).verdict.Reject? <==>
            t in g'.failed && later - cooldown < g'.failed[t]
    ensures t in g'.failed && later - cooldown < g'.failed[t] ==> g.failed[t] < g'.failed[t]
  {
  }

  /** From `at` on, both gates to `t` reject only on a failure newer than the one in `g`. */
  ghost predicate OpensAt(g: GateState, cooldown: int, t: Ref, at: int) {
    && EndsCooldown(g, cooldown, t, at)
    && (forall g', later :: at <= later && Begin(g', cooldown, later, t).verdict.Reject? ==>
          t in g'.failed && g.failed[t] < g'.failed[t])
    && (forall g', later, held :: at <= later && Reassign(g', cooldown, later, held, t).verdict.Reject? ==>
          t in g'.failed && g.failed[t] < g'.failed[t])
  }

  lemma CooldownOpens(g: GateState, cooldown: int, t: Ref, at: int)
    requires EndsCooldown(g, cooldown, t, at)
    ensures OpensAt(g, cooldown, t, at)
  {
  }

  lemma EnteredRetry(cfg: Config, env: Env, g: GateState, target: Store, first: Ref, m: Middle) returns (t: Ref)
    ensures t == first || (m.Carry? && t == m.final)
    ensures var call := Entered(cfg, env, g, target, first, m);
            IsRetry(call.outcome) ==> EndsCooldown(call.gate, cfg.cooldown, t, call.outcome.value.retryAt)
  {
    AdmittedRetry(cfg, env, Begin(g, cfg.cooldown, env.beginAt, first).gate, target, first, m);
    var call := Entered(cfg, env, g, target, first, m);
    var ends := IsRetry(call.outcome) && !EndsCooldown(call.gate, cfg.cooldown, first, call.outcome.value.retryAt);
    t := if m.Carry? && ends then m.final else first;
  }

  /** `t` is the target that the call asks for, or the one it moves to. */
  predicate Concerns(cfg: Config, job: Job, target: Store, t: Ref) {
    match StartOf(cfg, job.src, job.meta)
    case Quit(_) => false
    case Enter(s, full, first) =>
      var m := MiddleOf(cfg, job.env, job.source, target, s, full, first);
      t == first || (m.Carry? && t == m.final)
  }

  /** Every retry error of a call carries the time at which the gate to one of the call's own
      targets opens again. */
  lemma RetryTarget(cfg: Config, job: Job, g: GateState, target: Store) returns (t: Ref)
    ensures var call := job.Run(cfg, g, target);
            IsRetry(call.outcome) ==>
              Concerns(cfg, job, target, t) && OpensAt(call.gate, cfg.cooldown, t, call.outcome.value.retryAt)
  {
    var call := job.Run(cfg, g, target);
    match StartOf(cfg, job.src, job.meta)
    case Quit(_) => t := Tagged("", "");
    case Enter(s, full, first) =>
      t := EnteredRetry(cfg, job.env, g, target, first, MiddleOf(cfg, job.env, job.source, target, s, full, first));
      if IsRetry(call.outcome) { CooldownOpens(call.gate, cfg.cooldown, t, call.outcome.value.retryAt); }
  }

  /** A requeue is issued exactly for a retry time still ahead, and lands at the end of the
      cooldown recorded for one of the call's own targets; from then on both gates reject that
      target only on a failure newer than that record. */
  lemma RequeueMeetsGate(cfg: Config, job: Job, g: GateState, target: Store, now: int) returns (t: Ref)
    ensures var call := job.Run(cfg, g, target);
            var result := MirrorResultForError(call.outcome, now);
            && (result.requeueAfter.Some? <==> IsRetry(call.outcome) && now < call.outcome.value.retryAt)
            && (result.requeueAfter.Some? ==>
                  && result.err.None? && Concerns(cfg, job, target, t)
                  && OpensAt(call.gate, cfg.cooldown, t, now + result.requeueAfter.value))
  {
    t := RetryTarget(cfg, job, g, target);
  }

  // ---- One call at a time ----

  lemma ConcludeKeepsTags(cfg: Config, env: Env, g: GateState, target: Store, t: Ref, p: Payload, u: Ref)
    requires u in target.tags && !Overwritable(cfg, u)
    ensures var after := Conclude(cfg, env, g, target, t, p).target; u in after.tags && after.tags[u] == target.tags[u]
  {
    if Decide(cfg, env, target, t, cfg.lib.hash(p.root)).Write? {
      assert u != t;
      PushKeepsTags(cfg, env, g, Ensure(cfg, env, target, t.repo).target, t, p, u);
    }
  }

  lemma PushKeepsTags(cfg: Config, env: Env, g: GateState, target: Store, t: Ref, p: Payload, u: Ref)
    requires u in target.tags && u != t
    ensures var after := Push(cfg, env, g, target, t, p).target; u in after.tags && after.tags[u] == target.tags[u]
  {
    LandAllTags(cfg.lib, env, target, t, p, PushRun(cfg, env, t, p).calls);
  }

  lemma RunKeepsTags(cfg: Config, g: GateState, target: Store, j: Job, u: Ref)
    requires u in target.tags && !Overwritable(cfg, u)
    ensures var after := j.Run(cfg, g, target).target; u in after.tags && after.tags[u] == target.tags[u]
  {
    MirrorArrives(cfg, j.env, j.source, g, target, j.src, j.meta);
    match ArrivalOf(cfg, j.env, j.source, g, target, j.src, j.meta)
    case Nowhere =>
    case Arrived(g', final, p) => ConcludeKeepsTags(cfg, j.env, g', target, final, p, u);
  }

  /** Calls made one after the other. */
  function History(cfg: Config, g: GateState, target: Store, jobs: seq<Job>): (GateState, Store)
    decreases |jobs|
  {
    if jobs == [] then (g, target)
    else
      var call := jobs[0].Run(cfg, g, target);
      History(cfg, call.gate, call.target, jobs[1..])
  }

  /** Calls that do not overlap need no condition: whatever the sources, faults and partial
      pushes, a tag that may not be overwritten keeps its digest through every history. */
  lemma {:induction false} SequentialTagImmutability(cfg: Config, g: GateState, target: Store, jobs: seq<Job>, u: Ref)
    requires u in target.tags && !Overwritable(cfg, u)
    ensures var after := History(cfg, g, target, jobs).1; u in after.tags && after.tags[u] == target.tags[u]
    decreases |jobs|
  {
    if jobs != [] {
      var call := jobs[0].Run(cfg, g, target);
      RunKeepsTags(cfg, g, target, jobs[0], u);
      SequentialTagImmutability(cfg, call.gate, call.target, jobs[1..], u);
    }
  }

  // ---- One pod: a call per image, then one requeue ----

  /** The `i`-th call of a history. */
  function CallAt(cfg: Config, g: GateState, target: Store, jobs: seq<Job>, i: nat): Call
    requires i < |jobs|
  {
    var (g', target') := History(cfg, g, target, jobs[..i]);
    jobs[i].Run(cfg, g', target')
  }

  function Outcomes(cfg: Config, g: GateState, target: Store, jobs: seq<Job>): seq<Outcome> {
    seq(|jobs|, i requires 0 <= i < |jobs| => CallAt(cfg, g, target, jobs, i).outcome)
  }

  /** A reported retry error is the first one among the answers. */
  lemma ReportedRetry(answers: seq<Outcome>) returns (i: nat)
    ensures IsRetry(Report(answers)) ==>
              i < |answers| && answers[i] == Report(answers) && forall j :: 0 <= j < i ==> !IsRetry(answers[j])
    ensures !IsRetry(Report(answers)) ==> forall j :: 0 <= j < |answers| ==> !IsRetry(answers[j])
  {
    FirstWhereMeaning(answers, IsRetry);
    FirstWhereMeaning(answers, IsError);
    i := 0;
    if FirstWhere(answers, IsRetry).Some? {
      i :| 0 <= i < |answers| && answers[i] == FirstWhere(answers, IsRetry) && forall j :: 0 <= j < i ==>
          !IsRetry(answers[j]);
    }
  }

  /** The requeue of a pod, after one call per image, lands at the end of the cooldown that the
      first call to report one left behind for a target of its own image. */
  lemma PodRequeueMeetsGate(cfg: Config, g: GateState, target: Store, jobs: seq<Job>, now: int) returns (i: nat, t: Ref)
    ensures var answers := Outcomes(cfg, g, target, jobs);
            var result := MirrorResultForError(Report(answers), now);
            result.requeueAfter.Some? ==>
              && result.err.None? && i < |jobs|
              && IsRetry(answers[i]) && (forall j :: 0 <= j < i ==> !IsRetry(answers[j]))
              && Concerns(cfg, jobs[i], History(cfg, g, target, jobs[..i]).1, t)
              && OpensAt(CallAt(cfg, g, target, jobs, i).gate, cfg.cooldown, t, now + result.requeueAfter.value)
  {
    i := ReportedRetry(Outcomes(cfg, g, target, jobs));
    t := Tagged("", "");
    if i < |jobs| {
      var (g', target') := History(cfg, g, target, jobs[..i]);
      t := RetryTarget(cfg, jobs[i], g', target');
    }
  }

  // ---- Calls that run concurrently ----

  /** The next action of the call of `w` makes it return a retry error with time `at`. */
  predicate ReturnsRetry(cfg: Config, s: P.Sys, w: R.Worker, seen: Store, at: int) {
    && P.Returned(s.PcOf(w)).None?
    && var o := P.Returned(P.Next(cfg, s, P.Acts(w, seen)).PcOf(w));
       o.Some? && IsRetry(o.value) && o.value.value.retryAt == at
  }

  lemma ActRetry(cfg: Config, clock: int, g: GateState, target: Store, task: P.Task, pc: P.Pc, seen: Store)
      returns (t: Ref)
    requires P.Returned(pc).None? && P.Untimed(pc)
    ensures var f := P.Act(cfg, clock, g, target, task, pc, seen);
            P.Returned(f.pc).Some? && IsRetry(P.Returned(f.pc).value) ==>
              && (P.WorksOn(pc, t) || P.Wants(pc, t))
              && EndsCooldown(f.gate, cfg.cooldown, t, P.Returned(f.pc).value.value.retryAt)
  {
    match pc
    case Asking(start) => t := if start.Enter? then start.t else Tagged("", "");
    case Moving(_, _, final) => t := final;
    case Recording(u, _, _) => t := u;
    case _ => t := Tagged("", "");
  }

  /** The call of `w` is the Mirror call of `job`. */
  ghost predicate CallOf(cfg: Config, s: P.Sys, w: R.Worker, job: Job) {
    && w in s.procs && s.procs[w].task == P.TaskOf(cfg, job)
    && (s.procs[w].pc.Asking? ==> s.procs[w].pc.start == s.procs[w].task.start)
  }

  /** Whenever an action makes a Mirror call return a retry error, whatever all other calls did
      before, the error carries the time at which the gate to a target opens that this very call
      works on or asks for. */
  lemma ConcurrentRetryTarget(cfg: Config, s: P.Sys, w: R.Worker, job: Job, seen: Store, at: int) returns (t: Ref)
    requires CallOf(cfg, s, w, job) && ReturnsRetry(cfg, s, w, seen, at)
    ensures P.WorksOn(s.PcOf(w), t) || P.Wants(s.PcOf(w), t)
    ensures OpensAt(P.Next(cfg, s, P.Acts(w, seen)).gate, cfg.cooldown, t, at)
  {
    P.StartUntimed(cfg, job);
    t := ActRetry(cfg, s.clock, s.gate, s.target, s.procs[w].task, s.procs[w].pc, seen);
    CooldownOpens(P.Next(cfg, s, P.Acts(w, seen)).gate, cfg.cooldown, t, at);
  }

  /** The action with which a call of a pod returned its answer. */
  datatype Return = Return(s: P.Sys, job: Job, seen: Store)

  /** The answers of a pod's calls, made one after the other by worker `w` in the middle of the
      calls of all others. */
  ghost predicate Answered(cfg: Config, w: R.Worker, rets: seq<Return>, answers: seq<Outcome>) {
    && |rets| == |answers|
    && forall i :: 0 <= i < |answers| && IsRetry(answers[i]) ==>
         && CallOf(cfg, rets[i].s, w, rets[i].job)
         && ReturnsRetry(cfg, rets[i].s, w, rets[i].seen, answers[i].value.retryAt)
  }

  /** The requeue of a pod lands at the end of the cooldown that the first of its calls to report
      one found or left behind, for a target of its own image, in the middle of all other calls. */
  lemma ConcurrentPodRequeue(cfg: Config, w: R.Worker, rets: seq<Return>, answers: seq<Outcome>, now: int)
      returns (i: nat, t: Ref)
    requires Answered(cfg, w, rets, answers)
    ensures var result := MirrorResultForError(Report(answers), now);
            result.requeueAfter.Some? ==>
              && result.err.None? && i < |answers|
              && IsRetry(answers[i]) && (forall j :: 0 <= j < i ==> !IsRetry(answers[j]))
              && (P.WorksOn(rets[i].s.PcOf(w), t) || P.Wants(rets[i].s.PcOf(w), t))
              && OpensAt(P.Next(cfg, rets[i].s, P.Acts(w, rets[i].seen)).gate, cfg.cooldown, t,
                    now + result.requeueAfter.value)
  {
    i := ReportedRetry(answers);
    t := Tagged("", "");
    if IsRetry(Report(answers)) {
      t := ConcurrentRetryTarget(cfg, rets[i].s, w, rets[i].job, rets[i].seen, answers[i].value.retryAt);
    }
  }
}
