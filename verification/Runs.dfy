/** Any number of concurrent Mirror calls and an operator, interleaved step by step.

    Every critical section is one step.  A failing call reads the clock before it takes the
    lock, and the deferred release is a step of its own, so a call that released its claim
    early still has a second release of the same target ahead of it. */
module Runs {
  import opened Text
  import opened Refs
  import opened Gate

  type Worker = nat
  type Digest = string

  /** How a call came to release its claim before its deferred release. */
  datatype Release = ByFailure(at: int) | Bounced

  datatype Phase =
    | Idle
    | Holding(t: Ref)
    | Pushing(t: Ref, d: Digest)
    | Failing(t: Ref, at: int)
    | Released(t: Ref, how: Release)
  {
    predicate Live() { Holding? || Pushing? || Failing? }
  }

  datatype Config = Config(cooldown: int, allowRepush: bool)

  datatype Sys = Sys(gate: GateState, workers: map<Worker, Phase>, clock: int, tags: map<Ref, Digest>) {
    function PhaseOf(w: Worker): Phase {
      if w in workers then workers[w] else Idle
    }
    function With(w: Worker, p: Phase): Sys {
      this.(workers := workers[w := p])
    }
  }

  datatype Event =
    | Begins(w: Worker, t: Ref)
    | Reassigns(w: Worker, t: Ref)
    | Heads(w: Worker, d: Digest)
    | Pushes(w: Worker, committed: bool)
    | Stamps(w: Worker)
    | Fails(w: Worker)
    | Returns(w: Worker)
    | Resets
    | Ticks(dt: nat)

  function Initial(clock: int, tags: map<Ref, Digest>): Sys {
    Sys(EMPTY, map[], clock, tags)
  }

  predicate IsLatest(tag: string) { EqualFold(tag, "latest") }

  /** Targets whose digest a later push may not change. */
  predicate Immutable(c: Config, t: Ref) {
    t.Tagged? && !IsLatest(t.tag) && !c.allowRepush
  }

  /** Whether a call that looked `t` up in the tag table goes on to push digest `d`; a target
      pinned by digest has no entry there and may always go on. */
  predicate MayPush(c: Config, tags: map<Ref, Digest>, t: Ref, d: Digest) {
    t.Pinned? || t !in tags || (tags[t] != d && !Immutable(c, t))
  }

  /** One step; an event that its worker cannot take leaves the system as it is. */
  function Next(c: Config, s: Sys, e: Event): Sys {
    match e
    case Begins(w, t) =>
      if s.PhaseOf(w) != Idle then s
      else
        var r := Begin(s.gate, c.cooldown, s.clock, t);
        var s' := s.(gate := r.gate);
        if r.verdict.Admit? then s'.With(w, Holding(t)) else s'
    case Reassigns(w, t) =>
      var p := s.PhaseOf(w);
      if !p.Holding? then s
      else
        var r := Reassign(s.gate, c.cooldown, s.clock, p.t, t);
        s.(gate := r.gate).With(w, if r.verdict.Admit? then Holding(t) else Released(p.t, Bounced))
    case Heads(w, d) =>
      var p := s.PhaseOf(w);
      if p.Holding? && MayPush(c, s.tags, p.t, d) then s.With(w, Pushing(p.t, d)) else s
    case Pushes(w, committed) =>
      var p := s.PhaseOf(w);
      if p.Pushing? && p.t.Tagged? && committed then s.(tags := s.tags[p.t := p.d]) else s
    case Stamps(w) =>
      var p := s.PhaseOf(w);
      if p.Holding? || p.Pushing? then s.With(w, Failing(p.t, s.clock)) else s
    case Fails(w) =>
      var p := s.PhaseOf(w);
      if p.Failing? then s.(gate := Fail(s.gate, c.cooldown, p.at, p.t)).With(w, Released(p.t, ByFailure(p.at))) else s
    case Returns(w) =>
      var p := s.PhaseOf(w);
      if p.Idle? || p.Failing? then s else s.(gate := Finish(s.gate, p.t)).With(w, Idle)
    case Resets => s.(gate := Reset(s.gate, c.cooldown))
    case Ticks(dt) => s.(clock := s.clock + dt)
  }

  function Exec(c: Config, s: Sys, es: seq<Event>): Sys
    decreases |es|
  {
    if es == [] then s else Exec(c, Next(c, s, es[0]), es[1..])
  }

  lemma {:induction false} ExecAppend(c: Config, s: Sys, es: seq<Event>, fs: seq<Event>)
    ensures Exec(c, s, es + fs) == Exec(c, Exec(c, s, es), fs)
    decreases |es|
  {
    if es == [] {
      assert es + fs == fs;
    } else {
      assert (es + fs)[1..] == es[1..] + fs;
      ExecAppend(c, Next(c, s, es[0]), es[1..], fs);
    }
  }

  lemma ExecSnoc(c: Config, s: Sys, es: seq<Event>, e: Event)
    ensures Exec(c, s, es + [e]) == Next(c, Exec(c, s, es), e)
  {
    ExecAppend(c, s, es, [e]);
    assert [e][1..] == [];
  }

  // ---- No claim outlives its call, in any interleaving ----

  ghost predicate NoLeak(s: Sys) {
    forall t :: t in s.gate.pushed ==> exists w :: w in s.workers && s.workers[w].Live() && s.workers[w].t == t
  }

  lemma NoLeakStep(c: Config, s: Sys, e: Event)
    requires NoLeak(s)
    ensures NoLeak(Next(c, s, e))
  {
    var s' := Next(c, s, e);
    forall t | t in s'.gate.pushed
      ensures exists w :: w in s'.workers && s'.workers[w].Live() && s'.workers[w].t == t
    {
      if t in s.gate.pushed {
        var w :| w in s.workers && s.workers[w].Live() && s.workers[w].t == t;
        assert w in s'.workers && s'.workers[w].Live() && s'.workers[w].t == t;
      } else {
        var w := e.w;
        assert w in s'.workers && s'.workers[w].Live() && s'.workers[w].t == t;
      }
    }
  }

  lemma {:induction false} NoLeakRun(c: Config, s: Sys, es: seq<Event>)
    requires NoLeak(s)
    ensures NoLeak(Exec(c, s, es))
    decreases |es|
  {
    if es != [] {
      NoLeakStep(c, s, es[0]);
      NoLeakRun(c, Next(c, s, es[0]), es[1..]);
    }
  }

  /** Unconditionally, double releases included: every claimed target is held by a live call,
      so nothing is claimed once no call is running. */
  lemma NoLeakedClaims(c: Config, clock: int, tags: map<Ref, Digest>, es: seq<Event>)
    ensures var s := Exec(c, Initial(clock, tags), es);
            && NoLeak(s)
            && ((forall w :: w in s.workers ==> !s.workers[w].Live()) ==> s.gate.pushed == {})
  {
    NoLeakRun(c, Initial(clock, tags), es);
  }

  // ---- With the cooldown off nothing is ever recorded or rejected ----

  lemma {:induction false} NoCooldownNoRecord(c: Config, s: Sys, es: seq<Event>)
    requires c.cooldown <= 0 && s.gate.failed == map[]
    ensures Exec(c, s, es).gate.failed == map[]
    decreases |es|
  {
    if es != [] {
      NoCooldownNoRecord(c, Next(c, s, es[0]), es[1..]);
    }
  }

  /** With no positive cooldown no run ever records a failure or produces a retry error. */
  lemma NoCooldownNoRetry(c: Config, clock: int, tags: map<Ref, Digest>, es: seq<Event>, w: Worker, t: Ref)
    requires c.cooldown <= 0
    ensures var s := Exec(c, Initial(clock, tags), es);
            && s.gate.failed == map[]
            && !Begin(s.gate, c.cooldown, s.clock, t).verdict.Reject?
            && (s.PhaseOf(w).Holding? ==> !Reassign(s.gate, c.cooldown, s.clock, s.PhaseOf(w).t, t).verdict.Reject?)
  {
    NoCooldownNoRecord(c, Initial(clock, tags), es);
  }

  // ---- Exclusive claims ----

  /** The target to which event `e` admits its worker, if it admits one. */
  function Claimed(c: Config, s: Sys, e: Event): set<Ref> {
    match e
    case Begins(w, t) =>
      if s.PhaseOf(w) == Idle && Begin(s.gate, c.cooldown, s.clock, t).verdict.Admit? then {t} else {}
    case Reassigns(w, t) =>
      var p := s.PhaseOf(w);
      if p.Holding? && p.t != t && Reassign(s.gate, c.cooldown, s.clock, p.t, t).verdict.Admit? then {t} else {}
    case _ => {}
  }

  /** `w` has released `t` early and has not yet run its deferred release. */
  predicate InWindow(s: Sys, w: Worker, t: Ref) {
    w in s.workers && s.workers[w].Released? && s.workers[w].t == t
  }

  /** No claim of a target lands between the two releases of another call. */
  ghost predicate Respects(c: Config, s: Sys, e: Event) {
    forall w, t :: t in Claimed(c, s, e) ==> !InWindow(s, w, t)
  }

  ghost predicate RespectsAll(c: Config, s: Sys, es: seq<Event>)
    decreases |es|
  {
    es != [] ==> Respects(c, s, es[0]) && RespectsAll(c, Next(c, s, es[0]), es[1..])
  }

  ghost predicate OneHolder(s: Sys) {
    forall w, v | w in s.workers && v in s.workers ::
      s.workers[w].Live() && s.workers[v].Live() && s.workers[w].t == s.workers[v].t ==> w == v
  }

  /** Busy calls have different targets, every live call owns its claim, and a failure record
      never stands beside a claim. */
  ghost predicate Exclusive(c: Config, s: Sys) {
    && (forall w, v | w in s.workers && v in s.workers ::
          !s.workers[w].Idle? && !s.workers[v].Idle? && s.workers[w].t == s.workers[v].t ==> w == v)
    && (forall w :: w in s.workers && s.workers[w].Live() ==> s.workers[w].t in s.gate.pushed)
    && s.gate.pushed !! s.gate.failed.Keys
    && (c.cooldown <= 0 ==> s.gate.failed == map[])
  }

  lemma ClaimedIsFree(c: Config, s: Sys, e: Event, t: Ref, w: Worker)
    requires Exclusive(c, s) && Respects(c, s, e)
    requires t in Claimed(c, s, e) && w in s.workers && !s.workers[w].Idle?
    ensures s.workers[w].t != t
  {
    assert !InWindow(s, w, t);
  }

  /** What becomes of a state in which worker `w` alone is admitted to the free target `t`. */
  lemma ExclusiveAdmit(c: Config, s: Sys, e: Event, t: Ref)
    requires Exclusive(c, s) && Respects(c, s, e) && t in Claimed(c, s, e)
    ensures Exclusive(c, Next(c, s, e))
  {
    forall w | w in s.workers && !s.workers[w].Idle? ensures s.workers[w].t != t {
      ClaimedIsFree(c, s, e, t, w);
    }
  }

  lemma ExclusiveStep(c: Config, s: Sys, e: Event)
    requires Exclusive(c, s) && Respects(c, s, e)
    ensures Exclusive(c, Next(c, s, e))
  {
    if (e.Begins? || e.Reassigns?) && e.t in Claimed(c, s, e) {
      ExclusiveAdmit(c, s, e, e.t);
    } else if e.Begins? || e.Reassigns? {
      ExclusiveBounce(c, s, e);
    }
  }

  lemma ExclusiveBounce(c: Config, s: Sys, e: Event)
    requires Exclusive(c, s) && (e.Begins? || e.Reassigns?) && e.t !in Claimed(c, s, e)
    ensures Exclusive(c, Next(c, s, e))
  {
  }

  lemma {:induction false} ExclusiveRun(c: Config, s: Sys, es: seq<Event>)
    requires Exclusive(c, s) && RespectsAll(c, s, es)
    ensures Exclusive(c, Exec(c, s, es))
    decreases |es|
  {
    if es != [] {
      ExclusiveStep(c, s, es[0]);
      ExclusiveRun(c, Next(c, s, es[0]), es[1..]);
    }
  }

  lemma {:induction false} RespectsAppend(c: Config, s: Sys, es: seq<Event>, fs: seq<Event>)
    ensures RespectsAll(c, s, es + fs) <==> RespectsAll(c, s, es) && RespectsAll(c, Exec(c, s, es), fs)
    decreases |es|
  {
    if es == [] {
      assert es + fs == fs;
    } else {
      assert (es + fs)[1..] == es[1..] + fs;
      RespectsAppend(c, Next(c, s, es[0]), es[1..], fs);
    }
  }

  /** In a run where no claim lands in a release window, a target has at most one holder, its
      holder owns the claim, and no claimed target has a failure record. */
  lemma ExclusiveClaims(c: Config, clock: int, tags: map<Ref, Digest>, es: seq<Event>)
    requires RespectsAll(c, Initial(clock, tags), es)
    ensures var s := Exec(c, Initial(clock, tags), es);
            && OneHolder(s)
            && (forall w :: w in s.workers && s.workers[w].Live() ==> s.workers[w].t in s.gate.pushed)
            && s.gate.pushed !! s.gate.failed.Keys
  {
    ExclusiveRun(c, Initial(clock, tags), es);
  }

  /** A rightful holder never carries a failure record over to its new target. */
  lemma RecordNeverMoves(c: Config, clock: int, tags: map<Ref, Digest>, es: seq<Event>, w: Worker, t: Ref)
    requires RespectsAll(c, Initial(clock, tags), es)
    requires Exec(c, Initial(clock, tags), es).PhaseOf(w).Holding?
    ensures var s := Exec(c, Initial(clock, tags), es);
            var r := Reassign(s.gate, c.cooldown, s.clock, s.PhaseOf(w).t, t);
            r.gate.failed == s.gate.failed || r.gate.failed == s.gate.failed - {t}
  {
    ExclusiveRun(c, Initial(clock, tags), es);
  }

  // ---- The window condition is exact ----

  ghost function FreshWorker(ws: set<Worker>): (w: Worker)
    ensures forall v :: v in ws ==> v < w
  {
    if ws == {} then 0
    else
      var m := Greatest(ws);
      m + 1
  }

  ghost function Greatest(ws: set<Worker>): (w: Worker)
    requires ws != {}
    ensures w in ws && forall v :: v in ws ==> v <= w
  {
    var x :| x in ws;
    if ws == {x} then x
    else
      assert ws == (ws - {x}) + {x};
      var m := Greatest(ws - {x});
      if m < x then x else m
  }

  /** After a claim inside the window of `w`, the deferred release of `w` leaves the claimant
      holding `t` without a claim, and no window of `t` open. */
  lemma ReleaseDropsClaim(c: Config, s: Sys, e: Event, w: Worker, t: Ref)
    requires Exclusive(c, s) && t in Claimed(c, s, e) && InWindow(s, w, t)
    ensures var s2 := Next(c, Next(c, s, e), Returns(w));
            && e.w in s2.workers && s2.workers[e.w] == Holding(t)
            && t !in s2.gate.pushed && t !in s2.gate.failed
            && (forall x :: !InWindow(s2, x, t))
            && s2.workers.Keys == s.workers.Keys + {e.w}
  {
    var s2 := Next(c, Next(c, s, e), Returns(w));
    assert e.w != w;
    forall x ensures !InWindow(s2, x, t) {
      if x in s.workers && x != w && x != e.w { assert s2.workers[x] == s.workers[x]; }
    }
  }

  /** A claim inside the release window of `w` can be followed by the deferred release of `w`
      and by a second claim, both legal, after which the target has two holders. */
  lemma WindowClaimBreaks(c: Config, s: Sys, e: Event, w: Worker, t: Ref) returns (fs: seq<Event>)
    requires Exclusive(c, s)
    requires t in Claimed(c, s, e) && InWindow(s, w, t)
    ensures RespectsAll(c, Next(c, s, e), fs)
    ensures !OneHolder(Exec(c, Next(c, s, e), fs))
  {
    var s1 := Next(c, s, e);
    var s2 := Next(c, s1, Returns(w));
    ReleaseDropsClaim(c, s, e, w, t);
    var v := FreshWorker(s2.workers.Keys);
    var s3 := Next(c, s2, Begins(v, t));
    fs := [Returns(w), Begins(v, t)];
    assert s3.workers[e.w] == Holding(t) && s3.workers[v] == Holding(t);
    assert fs[1..] == [Begins(v, t)] && fs[1..][1..] == [];
    assert Exec(c, s1, fs) == Exec(c, s2, fs[1..]) == Exec(c, s3, []) == s3;
    assert RespectsAll(c, s3, []);
    assert RespectsAll(c, s2, fs[1..]);
    assert Respects(c, s1, Returns(w));
  }

  /** After any run that respected the windows, the next event keeps every window-respecting
      continuation exclusive if and only if it does not claim a target in a release window. */
  lemma ExclusionExact(c: Config, clock: int, tags: map<Ref, Digest>, es: seq<Event>, e: Event)
    requires RespectsAll(c, Initial(clock, tags), es)
    ensures var s := Exec(c, Initial(clock, tags), es);
            Respects(c, s, e) <==>
            forall fs :: RespectsAll(c, Next(c, s, e), fs) ==> OneHolder(Exec(c, Next(c, s, e), fs))
  {
    var s := Exec(c, Initial(clock, tags), es);
    ExclusiveRun(c, Initial(clock, tags), es);
    if Respects(c, s, e) {
      ExclusiveStep(c, s, e);
      forall fs | RespectsAll(c, Next(c, s, e), fs)
        ensures OneHolder(Exec(c, Next(c, s, e), fs))
      {
        ExclusiveRun(c, Next(c, s, e), fs);
      }
    } else {
      var w, t :| t in Claimed(c, s, e) && InWindow(s, w, t);
      var fs := WindowClaimBreaks(c, s, e, w, t);
    }
  }

  // ---- Cooldown safety ----

  ghost predicate NoReset(es: seq<Event>) {
    forall i :: 0 <= i < |es| ==> !es[i].Resets?
  }

  lemma {:induction false} ClockMonotone(c: Config, s: Sys, es: seq<Event>)
    ensures s.clock <= Exec(c, s, es).clock
    decreases |es|
  {
    if es != [] {
      ClockMonotone(c, Next(c, s, es[0]), es[1..]);
    }
  }

  lemma RecordKeptStep(c: Config, s: Sys, e: Event, t: Ref)
    requires c.cooldown > 0 && Exclusive(c, s) && !e.Resets?
    requires t in s.gate.failed && s.clock < s.gate.failed[t] + c.cooldown
    ensures t in Next(c, s, e).gate.failed && Next(c, s, e).gate.failed[t] == s.gate.failed[t]
  {
  }

  lemma {:induction false} RecordKept(c: Config, s: Sys, es: seq<Event>, t: Ref)
    requires c.cooldown > 0 && Exclusive(c, s) && RespectsAll(c, s, es) && NoReset(es)
    requires t in s.gate.failed && Exec(c, s, es).clock < s.gate.failed[t] + c.cooldown
    ensures var s' := Exec(c, s, es); t in s'.gate.failed && s'.gate.failed[t] == s.gate.failed[t]
    decreases |es|
  {
    if es != [] {
      ClockMonotone(c, s, es);
      RecordKeptStep(c, s, es[0], t);
      ExclusiveStep(c, s, es[0]);
      RecordKept(c, Next(c, s, es[0]), es[1..], t);
    }
  }

  /** The verdict of the critical section that an admission event would enter. */
  function VerdictOf(c: Config, s: Sys, e: Event): Verdict
    requires e.Begins? || (e.Reassigns? && s.PhaseOf(e.w).Holding?)
  {
    if e.Begins? then Begin(s.gate, c.cooldown, s.clock, e.t).verdict
    else Reassign(s.gate, c.cooldown, s.clock, s.PhaseOf(e.w).t, e.t).verdict
  }

  /** Once worker `w` has recorded a failure of its target, stamped `at`, then until
      `at + cooldown`, and while nobody resets, no event admits anyone to that target, nobody
      holds it, and every attempt to enter is rejected with exactly that retry time. */
  lemma CooldownSafety(c: Config, clock: int, tags: map<Ref, Digest>, es: seq<Event>, w: Worker, fs: seq<Event>)
    requires c.cooldown > 0
    requires Exec(c, Initial(clock, tags), es).PhaseOf(w).Failing?
    requires RespectsAll(c, Initial(clock, tags), es + [Fails(w)] + fs) && NoReset(fs)
    ensures var p := Exec(c, Initial(clock, tags), es).PhaseOf(w);
            var s := Exec(c, Initial(clock, tags), es + [Fails(w)] + fs);
            s.clock < p.at + c.cooldown ==>
              && (forall v :: v in s.workers && s.workers[v].Live() ==> s.workers[v].t != p.t)
              && (forall e :: p.t !in Claimed(c, s, e))
              && (forall e: Event :: (e.Begins? || (e.Reassigns? && s.PhaseOf(e.w).Holding?)) && e.t == p.t ==>
                    VerdictOf(c, s, e) == Reject(p.at + c.cooldown))
  {
    var s0 := Initial(clock, tags);
    var s1 := Exec(c, s0, es);
    var p := s1.PhaseOf(w);
    var s2 := Next(c, s1, Fails(w));
    RespectsAppend(c, s0, es + [Fails(w)], fs);
    RespectsAppend(c, s0, es, [Fails(w)]);
    ExecAppend(c, s0, es + [Fails(w)], fs);
    ExecAppend(c, s0, es, [Fails(w)]);
    assert Exec(c, s1, [Fails(w)]) == s2 by { assert [Fails(w)][1..] == []; }
    ExclusiveRun(c, s0, es + [Fails(w)]);
    var s := Exec(c, s2, fs);
    ExclusiveRun(c, s2, fs);
    if s.clock < p.at + c.cooldown {
      RecordKept(c, s2, fs, p.t);
      forall e: Event | (e.Begins? || (e.Reassigns? && s.PhaseOf(e.w).Holding?)) && e.t == p.t
        ensures VerdictOf(c, s, e) == Reject(p.at + c.cooldown)
      {
        if e.Reassigns? {
          assert s.PhaseOf(e.w).t in s.gate.pushed;
        }
      }
      forall e ensures p.t !in Claimed(c, s, e) {}
    }
  }

  ghost predicate NoFailure(es: seq<Event>) {
    forall i :: 0 <= i < |es| ==> !es[i].Fails?
  }

  lemma {:induction false} NoRecordKept(c: Config, s: Sys, es: seq<Event>)
    requires s.gate.failed == map[] && NoFailure(es)
    ensures Exec(c, s, es).gate.failed == map[]
    decreases |es|
  {
    if es != [] {
      NoRecordKept(c, Next(c, s, es[0]), es[1..]);
    }
  }

  /** A reset reopens every target: from any state whatever, until the next failure nobody is
      rejected, and the reset itself touches no claim. */
  lemma ResetReopens(c: Config, s: Sys, es: seq<Event>, e: Event)
    requires c.cooldown > 0 && NoFailure(es)
    requires e.Begins? || (e.Reassigns? && Exec(c, Next(c, s, Resets), es).PhaseOf(e.w).Holding?)
    ensures !VerdictOf(c, Exec(c, Next(c, s, Resets), es), e).Reject?
    ensures Next(c, s, Resets).gate.pushed == s.gate.pushed
  {
    NoRecordKept(c, Next(c, s, Resets), es);
  }

  // ---- The cooldown closes the windows that failures open ----

  /** An event that neither resets while a failed call is still releasing, nor claims a target
      in a window other than one opened by a failure whose retry time is still ahead. */
  ghost predicate Timely(c: Config, s: Sys, e: Event) {
    && (e.Resets? ==> forall w :: w in s.workers ==> !(s.workers[w].Released? && s.workers[w].how.ByFailure?))
    && (forall w, t :: t in Claimed(c, s, e) && InWindow(s, w, t) ==>
          s.workers[w].how.ByFailure? && s.clock < s.workers[w].how.at + c.cooldown)
  }

  ghost predicate TimelyAll(c: Config, s: Sys, es: seq<Event>)
    decreases |es|
  {
    es != [] ==> Timely(c, s, es[0]) && TimelyAll(c, Next(c, s, es[0]), es[1..])
  }

  ghost predicate WindowsRecorded(c: Config, s: Sys) {
    forall w | w in s.workers && s.workers[w].Released? && s.workers[w].how.ByFailure? ::
      s.clock < s.workers[w].how.at + c.cooldown ==>
      s.workers[w].t in s.gate.failed && s.gate.failed[s.workers[w].t] == s.workers[w].how.at
  }

  lemma TimelyRespects(c: Config, s: Sys, e: Event)
    requires c.cooldown > 0 && Exclusive(c, s) && WindowsRecorded(c, s) && Timely(c, s, e)
    ensures Respects(c, s, e)
  {
    forall w, t | t in Claimed(c, s, e)
      ensures !InWindow(s, w, t)
    {
    }
  }

  lemma WindowsRecordedStep(c: Config, s: Sys, e: Event)
    requires c.cooldown > 0 && Exclusive(c, s) && WindowsRecorded(c, s) && Timely(c, s, e)
    ensures WindowsRecorded(c, Next(c, s, e))
  {
  }

  lemma {:induction false} TimelyRunRespects(c: Config, s: Sys, es: seq<Event>)
    requires c.cooldown > 0 && Exclusive(c, s) && WindowsRecorded(c, s) && TimelyAll(c, s, es)
    ensures RespectsAll(c, s, es)
    decreases |es|
  {
    if es != [] {
      TimelyRespects(c, s, es[0]);
      ExclusiveStep(c, s, es[0]);
      WindowsRecordedStep(c, s, es[0]);
      TimelyRunRespects(c, Next(c, s, es[0]), es[1..]);
    }
  }

  /** With a positive cooldown the code itself keeps claims out of the windows that failures
      open: it is enough that deferred releases run before the retry time and without a reset. */
  lemma CooldownClosesWindows(c: Config, clock: int, tags: map<Ref, Digest>, es: seq<Event>)
    requires c.cooldown > 0 && TimelyAll(c, Initial(clock, tags), es)
    ensures RespectsAll(c, Initial(clock, tags), es)
    ensures OneHolder(Exec(c, Initial(clock, tags), es))
  {
    TimelyRunRespects(c, Initial(clock, tags), es);
    ExclusiveRun(c, Initial(clock, tags), es);
  }

  // ---- Tag immutability over whole runs ----

  /** Whoever is about to push an immutable tag finds it absent or equal. */
  ghost predicate PushersAgree(c: Config, s: Sys) {
    forall w :: w in s.workers && s.workers[w].Pushing? && Immutable(c, s.workers[w].t) && s.workers[w].t in s.tags ==>
      s.tags[s.workers[w].t] == s.workers[w].d
  }

  lemma PushersAgreeStep(c: Config, s: Sys, e: Event)
    requires Exclusive(c, s) && PushersAgree(c, s)
    ensures PushersAgree(c, Next(c, s, e))
    ensures forall t :: t in s.tags && Immutable(c, t) ==> t in Next(c, s, e).tags && Next(c, s, e).tags[t] == s.tags[t]
  {
  }

  lemma {:induction false} TagsKept(c: Config, s: Sys, es: seq<Event>)
    requires Exclusive(c, s) && PushersAgree(c, s) && RespectsAll(c, s, es)
    ensures PushersAgree(c, Exec(c, s, es))
    ensures forall t :: t in s.tags && Immutable(c, t) ==>
            t in Exec(c, s, es).tags && Exec(c, s, es).tags[t] == s.tags[t]
    decreases |es|
  {
    if es != [] {
      PushersAgreeStep(c, s, es[0]);
      ExclusiveStep(c, s, es[0]);
      TagsKept(c, Next(c, s, es[0]), es[1..]);
    }
  }

  /** A tag other than `latest`, once present, keeps its digest for the rest of every
      window-respecting run, however often pushes commit, fail and are retried. */
  lemma TagImmutability(c: Config, clock: int, tags: map<Ref, Digest>, es: seq<Event>, fs: seq<Event>, t: Ref)
    requires Immutable(c, t)
    requires RespectsAll(c, Initial(clock, tags), es + fs)
    requires t in Exec(c, Initial(clock, tags), es).tags
    ensures t in Exec(c, Initial(clock, tags), es + fs).tags
    ensures Exec(c, Initial(clock, tags), es + fs).tags[t] == Exec(c, Initial(clock, tags), es).tags[t]
  {
    var s0 := Initial(clock, tags);
    RespectsAppend(c, s0, es, fs);
    ExecAppend(c, s0, es, fs);
    ExclusiveRun(c, s0, es);
    TagsKept(c, s0, es);
    TagsKept(c, Exec(c, s0, es), fs);
  }

  /** A call that is bounced off another call's target stands in the window of its own. */
  lemma BouncedWindow(c: Config, clock: int, tags: map<Ref, Digest>, t: Ref, u: Ref) returns (es: seq<Event>)
    requires t != u
    ensures var s := Exec(c, Initial(clock, tags), es);
            && s.gate == GateState({u}, map[]) && s.tags == tags
            && s.PhaseOf(0) == Released(t, Bounced) && s.PhaseOf(2) == Idle && s.PhaseOf(3) == Idle
  {
    var s0 := Initial(clock, tags);
    var s1 := Next(c, s0, Begins(0, t));
    assert s1 == Sys(GateState({t}, map[]), map[0 := Holding(t)], clock, tags);
    var s2 := Next(c, s1, Begins(1, u));
    assert s2 == Sys(GateState({t, u}, map[]), map[0 := Holding(t), 1 := Holding(u)], clock, tags);
    var s3 := Next(c, s2, Reassigns(0, u));
    assert s3.gate.pushed == {u};
    es := [Begins(0, t), Begins(1, u), Reassigns(0, u)];
    assert es[1..][1..][1..] == [] && es[1..][0] == es[1] && es[1..][1..][0] == es[2];
    assert Exec(c, s0, es) == Exec(c, s1, es[1..]) == Exec(c, s2, es[1..][1..]) == Exec(c, s3, es[1..][1..][1..]);
  }

  /** A run in which two calls hold `t` at once, for every cooldown: a bounced call releases
      `t` twice, and the second release drops the claim of its successor. */
  lemma TwoHoldersThroughWindow(c: Config, clock: int, tags: map<Ref, Digest>, t: Ref, u: Ref) returns (es: seq<Event>)
    requires t != u
    ensures var s := Exec(c, Initial(clock, tags), es);
            s.tags == tags && s.PhaseOf(2) == Holding(t) && s.PhaseOf(3) == Holding(t)
  {
    es := BouncedWindow(c, clock, tags, t, u);
    var s := Exec(c, Initial(clock, tags), es);
    ExecSnoc(c, Initial(clock, tags), es, Begins(2, t));
    ExecSnoc(c, Initial(clock, tags), es + [Begins(2, t)], Returns(0));
    ExecSnoc(c, Initial(clock, tags), es + [Begins(2, t)] + [Returns(0)], Begins(3, t));
    es := es + [Begins(2, t)] + [Returns(0)] + [Begins(3, t)];
  }

  /** Without the window condition immutability fails, for every cooldown and every immutable
      tag: both holders find the tag absent, and the second push overwrites the first. */
  lemma TagOverwrittenThroughWindow(
      c: Config, clock: int, tags: map<Ref, Digest>, t: Ref, u: Ref, d: Digest, d': Digest)
      returns (es: seq<Event>, fs: seq<Event>)
    requires Immutable(c, t) && t !in tags && t != u && d != d'
    ensures var s := Exec(c, Initial(clock, tags), es); t in s.tags && s.tags[t] == d
    ensures var s := Exec(c, Initial(clock, tags), es + fs); t in s.tags && s.tags[t] == d'
  {
    var s0 := Initial(clock, tags);
    es := TwoHoldersThroughWindow(c, clock, tags, t, u);
    var s1 := Exec(c, s0, es);
    ExecSnoc(c, s0, es, Heads(2, d));
    es := es + [Heads(2, d)];
    assert Exec(c, s0, es) == s1.With(2, Pushing(t, d));
    ExecSnoc(c, s0, es, Heads(3, d'));
    es := es + [Heads(3, d')];
    assert Exec(c, s0, es) == s1.With(2, Pushing(t, d)).With(3, Pushing(t, d'));
    ExecSnoc(c, s0, es, Pushes(2, true));
    es := es + [Pushes(2, true)];
    fs := [Pushes(3, true)];
    ExecSnoc(c, s0, es, Pushes(3, true));
  }

  // ---- The window condition is exact for tags as well ----

  /** A holder that has lost its claim is admitted to any free target without claiming it. */
  lemma ClaimlessReassign(c: Config, s: Sys, x: Worker, u: Ref)
    requires s.PhaseOf(x).Holding? && s.PhaseOf(x).t != u
    requires s.PhaseOf(x).t !in s.gate.pushed && s.PhaseOf(x).t !in s.gate.failed
    requires u !in s.gate.pushed && u !in s.gate.failed
    ensures Next(c, s, Reassigns(x, u)) == s.With(x, Holding(u))
  {
  }

  /** A target of a repository name that is longer than all others. */
  function LongName(n: nat): Ref { Tagged(seq(n, i => 'a'), "v") }

  ghost function LongestRepo(ts: set<Ref>): (n: nat)
    ensures forall t :: t in ts ==> |t.repo| <= n
  {
    if ts == {} then 0
    else
      var x :| x in ts;
      assert ts == (ts - {x}) + {x};
      var n := LongestRepo(ts - {x});
      if n < |x.repo| then |x.repo| else n
  }

  lemma FreshTag(c: Config, ts: set<Ref>) returns (u: Ref)
    requires !c.allowRepush
    ensures u !in ts && Immutable(c, u)
  {
    u := LongName(LongestRepo(ts) + 1);
    assert u.tag[0] == 'v';
  }

  /** Every target that occurs in a state. */
  ghost function Known(s: Sys): set<Ref> {
    s.gate.pushed + s.gate.failed.Keys + s.tags.Keys
    + set w | w in s.workers && !s.workers[w].Idle? :: s.workers[w].t
  }

  /** Two workers on one target, both admitted before either looked: the second push overwrites. */
  lemma TwoPushes(c: Config, s: Sys, x: Worker, v: Worker, u: Ref, d: Digest, d': Digest)
      returns (fs: seq<Event>, g: Event)
    requires x != v && s.PhaseOf(x) == Holding(u) && s.PhaseOf(v) == Holding(u)
    requires u.Tagged? && u !in s.tags
    ensures RespectsAll(c, s, fs + [g])
    ensures Exec(c, s, fs).tags == s.tags[u := d] && Exec(c, s, fs + [g]).tags == s.tags[u := d][u := d']
  {
    var s1 := s.With(x, Pushing(u, d));
    var s2 := s1.With(v, Pushing(u, d'));
    var s3 := s2.(tags := s.tags[u := d]);
    var s4 := s3.(tags := s.tags[u := d][u := d']);
    assert Next(c, s, Heads(x, d)) == s1 && Next(c, s1, Heads(v, d')) == s2;
    assert Next(c, s2, Pushes(x, true)) == s3 && Next(c, s3, Pushes(v, true)) == s4;
    fs, g := [Heads(x, d)] + [Heads(v, d')] + [Pushes(x, true)], Pushes(v, true);
    ExecThree(c, s, Heads(x, d), Heads(v, d'), Pushes(x, true));
    ExecSnoc(c, s, fs, g);
    ClaimsNothing(c, s, fs + [g]);
  }

  lemma ExecThree(c: Config, s: Sys, e1: Event, e2: Event, e3: Event)
    ensures Exec(c, s, [e1] + [e2] + [e3]) == Next(c, Next(c, Next(c, s, e1), e2), e3)
  {
    ExecSnoc(c, s, [], e1);
    assert [] + [e1] == [e1];
    ExecSnoc(c, s, [e1], e2);
    ExecSnoc(c, s, [e1] + [e2], e3);
  }

  /** Events that admit nobody respect every window. */
  lemma {:induction false} ClaimsNothing(c: Config, s: Sys, es: seq<Event>)
    requires forall i :: 0 <= i < |es| ==> !es[i].Begins? && !es[i].Reassigns?
    ensures RespectsAll(c, s, es)
    decreases |es|
  {
    if es != [] {
      ClaimsNothing(c, Next(c, s, es[0]), es[1..]);
    }
  }

  /** From a claim inside the window of `w` to two holders of any free target: the deferred release
      drops the claim, the claimant moves on without one, and another call claims the same target. */
  lemma TwoHoldersAnywhere(c: Config, s: Sys, e: Event, w: Worker, t: Ref, u: Ref) returns (fs: seq<Event>, v: Worker)
    requires Exclusive(c, s) && t in Claimed(c, s, e) && InWindow(s, w, t)
    requires u != t && u !in Known(s)
    ensures RespectsAll(c, Next(c, s, e), fs)
    ensures var s' := Exec(c, Next(c, s, e), fs);
            v != e.w && s'.PhaseOf(e.w) == Holding(u) && s'.PhaseOf(v) == Holding(u) && s'.tags == s.tags
  {
    var s1 := Next(c, s, e);
    var s2 := Next(c, s1, Returns(w));
    ReleaseDropsClaim(c, s, e, w, t);
    NoWindowOfFresh(c, s, e, w, t, u);
    ClaimlessReassign(c, s2, e.w, u);
    var s3 := s2.With(e.w, Holding(u));
    v := FreshWorker(s3.workers.Keys);
    var s4 := Next(c, s3, Begins(v, u));
    fs := [Returns(w)] + [Reassigns(e.w, u)] + [Begins(v, u)];
    ExecThree(c, s1, Returns(w), Reassigns(e.w, u), Begins(v, u));
    assert s4.PhaseOf(v) == Holding(u) && s4.PhaseOf(e.w) == Holding(u);
    ClaimsOnly(c, s2, Reassigns(e.w, u));
    ClaimsOnly(c, s3, Begins(v, u));
    RespectsThree(c, s1, Returns(w), Reassigns(e.w, u), Begins(v, u));
  }

  /** An event that can only admit to a target without an open window respects the windows. */
  lemma ClaimsOnly(c: Config, s: Sys, e: Event)
    requires (e.Begins? || e.Reassigns?) && forall x :: !InWindow(s, x, e.t)
    ensures Respects(c, s, e)
  {
  }

  lemma RespectsThree(c: Config, s: Sys, e1: Event, e2: Event, e3: Event)
    requires Respects(c, s, e1) && Respects(c, Next(c, s, e1), e2) && Respects(c, Next(c, Next(c, s, e1), e2), e3)
    ensures RespectsAll(c, s, [e1] + [e2] + [e3])
  {
    assert ([e1] + [e2] + [e3])[1..] == [e2] + [e3] && ([e2] + [e3])[1..] == [e3] && [e3][1..] == [];
    assert RespectsAll(c, Next(c, Next(c, Next(c, s, e1), e2), e3), []);
    assert RespectsAll(c, Next(c, Next(c, s, e1), e2), [e3]);
  }

  /** A target that does not occur before the claim is free after the release. */
  lemma NoWindowOfFresh(c: Config, s: Sys, e: Event, w: Worker, t: Ref, u: Ref)
    requires Exclusive(c, s) && t in Claimed(c, s, e) && InWindow(s, w, t) && u != t && u !in Known(s)
    ensures var s2 := Next(c, Next(c, s, e), Returns(w));
            && u !in s2.gate.pushed && u !in s2.gate.failed && s2.tags == s.tags
            && forall x :: !InWindow(s2, x, u)
  {
    assert e.w != w;
    forall x | x in s.workers && !s.workers[x].Idle? ensures s.workers[x].t != u {
      assert s.workers[x].t in Known(s);
    }
  }

  /** No immutable tag changes between two moments of the run. */
  ghost predicate KeepsTags(c: Config, s: Sys, s': Sys) {
    forall t :: t in s.tags && Immutable(c, t) ==> t in s'.tags && s'.tags[t] == s.tags[t]
  }

  /** A claim inside a release window, of whatever target, can be followed by legal steps in which
      an immutable tag that was absent is pushed and then overwritten. */
  lemma WindowClaimOverwrites(c: Config, s: Sys, e: Event, w: Worker, t: Ref) returns (fs: seq<Event>, gs: seq<Event>)
    requires Exclusive(c, s) && t in Claimed(c, s, e) && InWindow(s, w, t) && !c.allowRepush
    ensures RespectsAll(c, Next(c, s, e), fs + gs)
    ensures !KeepsTags(c, Exec(c, Next(c, s, e), fs), Exec(c, Next(c, s, e), fs + gs))
  {
    var s1 := Next(c, s, e);
    var u := FreshTag(c, Known(s) + {t});
    var hs, v := TwoHoldersAnywhere(c, s, e, w, t, u);
    var s2 := Exec(c, s1, hs);
    var ps, g := TwoPushes(c, s2, e.w, v, u, "a", "b");
    fs, gs := hs + ps, [g];
    RespectsAppend(c, s1, hs, ps + [g]);
    assert fs + gs == hs + (ps + [g]);
    ExecAppend(c, s1, hs, ps);
    ExecAppend(c, s1, hs, ps + [g]);
    var a, b := Exec(c, s1, fs), Exec(c, s1, fs + gs);
    assert u in a.tags && a.tags[u] == "a" && b.tags[u] == "b";
  }

  /** After any run that respected the windows, and unless pushes may overwrite, the next event
      keeps every immutable tag in every window-respecting continuation, from the moment the tag
      is there, if and only if it does not claim a target in a release window. */
  lemma ImmutabilityExact(c: Config, clock: int, tags: map<Ref, Digest>, es: seq<Event>, e: Event)
    requires !c.allowRepush && RespectsAll(c, Initial(clock, tags), es)
    ensures var s := Exec(c, Initial(clock, tags), es);
            Respects(c, s, e) <==>
            forall fs, gs :: RespectsAll(c, Next(c, s, e), fs + gs) ==>
              KeepsTags(c, Exec(c, Next(c, s, e), fs), Exec(c, Next(c, s, e), fs + gs))
  {
    var s := Exec(c, Initial(clock, tags), es);
    ExclusiveRun(c, Initial(clock, tags), es);
    TagsKept(c, Initial(clock, tags), es);
    if Respects(c, s, e) {
      ExclusiveStep(c, s, e);
      PushersAgreeStep(c, s, e);
      forall fs, gs | RespectsAll(c, Next(c, s, e), fs + gs)
        ensures KeepsTags(c, Exec(c, Next(c, s, e), fs), Exec(c, Next(c, s, e), fs + gs))
      {
        TagsKeptBetween(c, Next(c, s, e), fs, gs);
      }
    } else {
      var w, t :| t in Claimed(c, s, e) && InWindow(s, w, t);
      var fs, gs := WindowClaimOverwrites(c, s, e, w, t);
    }
  }

  lemma TagsKeptBetween(c: Config, s: Sys, fs: seq<Event>, gs: seq<Event>)
    requires Exclusive(c, s) && PushersAgree(c, s) && RespectsAll(c, s, fs + gs)
    ensures KeepsTags(c, Exec(c, s, fs), Exec(c, s, fs + gs))
  {
    RespectsAppend(c, s, fs, gs);
    ExecAppend(c, s, fs, gs);
    ExclusiveRun(c, s, fs);
    TagsKept(c, s, fs);
    TagsKept(c, Exec(c, s, fs), gs);
  }
}
