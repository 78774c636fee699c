/** The mutex-protected admission state of the pusher: which targets are being processed
    and when each target last failed.  One function per critical section. */
module Gate {
  import opened Refs

  datatype GateState = GateState(pushed: set<Ref>, failed: map<Ref, int>)

  /** What a critical section tells its caller. */
  datatype Verdict = Admit | Skip | Reject(retryAt: int)

  datatype Decision = Decision(gate: GateState, verdict: Verdict)

  const EMPTY := GateState({}, map[])

  predicate Cooling(g: GateState, cooldown: int, now: int, t: Ref) {
    cooldown > 0 && t in g.failed && now < g.failed[t] + cooldown
  }

  function Begin(g: GateState, cooldown: int, now: int, t: Ref): Decision {
    if Cooling(g, cooldown, now, t) then Decision(g, Reject(g.failed[t] + cooldown))
    else
      var failed := if cooldown > 0 then g.failed - {t} else g.failed;
      if t in g.pushed then Decision(GateState(g.pushed, failed), Skip)
      else Decision(GateState(g.pushed + {t}, failed), Admit)
  }

  function Finish(g: GateState, t: Ref): GateState {
    g.(pushed := g.pushed - {t})
  }

  function Reassign(g: GateState, cooldown: int, now: int, held: Ref, wanted: Ref): Decision {
    if held == wanted then Decision(g, Admit)
    else if Cooling(g, cooldown, now, wanted) then
      Decision(g.(pushed := g.pushed - {held}), Reject(g.failed[wanted] + cooldown))
    else
      var cleared := if cooldown > 0 then g.failed - {wanted} else g.failed;
      var failed := if cooldown > 0 && held in cleared then cleared[wanted := cleared[held]] - {held} else cleared;
      if wanted in g.pushed then Decision(GateState(g.pushed - {held}, failed), Skip)
      else if held in g.pushed then Decision(GateState(g.pushed - {held} + {wanted}, failed), Admit)
      else Decision(GateState(g.pushed, failed), Admit)
  }

  /** `at` is the clock as read before the lock is taken. */
  function Fail(g: GateState, cooldown: int, at: int, t: Ref): GateState {
    GateState(g.pushed - {t}, if cooldown > 0 then g.failed[t := at] else g.failed)
  }

  function Reset(g: GateState, cooldown: int): GateState {
    if cooldown > 0 then g.(failed := map[]) else g
  }
}
