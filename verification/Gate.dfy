/** `internal/registers/gate.go`: write priority. The locked sections of the gate, and the
    protocol they make with one poll loop and any number of overlapping holders, interleaved
    step by step over an explicit clock. */
module Gate {
  import opened Basics

  // ---- the locked sections ---------------------------------------------------------

  /** `cancel` names the registered cycle by its number; `until` is absent when it is the zero
      time. */
  datatype GateState = GateState(cancel: Option<nat>, cycleID: nat, until: Option<int>, holds: nat) {
    /** `suppressedLocked`, its answer and its side effect. */
    predicate Suppressed(now: int) { until.Some? && now < until.value }

    function Swept(now: int): GateState { if Suppressed(now) then this else this.(until := None) }

    /** The locked section of `TryBeginCycle`, when it admits the cycle. */
    function Begun(now: int): GateState { Swept(now).(cycleID := cycleID + 1, cancel := Some(cycleID + 1)) }

    /** The locked section of a cycle's end closure. */
    function Ended(id: nat): GateState { if cycleID == id then this.(cancel := None) else this }

    /** The locked section of `Preempt`; the cancel function it captured is called later. */
    function Preempted(deadline: int): GateState { this.(cancel := None, holds := holds + 1, until := Some(deadline)) }

    function Released(): GateState {
      var h := if holds > 0 then holds - 1 else 0;
      this.(holds := h, until := if h == 0 then None else until)
    }
  }

  class ReadGate {
    var cancel: Option<nat>
    var cycleID: nat
    var until: Option<int>
    const timeout: int
    var holds: nat

    function State(): GateState
      reads this
    {
      GateState(cancel, cycleID, until, holds)
    }

    constructor (timeout: int)
      ensures State() == GateState(None, 0, None, 0)
      ensures this.timeout > 0 && (timeout > 0 ==> this.timeout == timeout)
    {
      this.timeout := if timeout <= 0 then 10_000 * MS else timeout;
      cancel, cycleID, until, holds := None, 0, None, 0;
    }

    method SuppressedLocked(now: int) returns (suppressed: bool)
      modifies this`until
      ensures suppressed == old(State()).Suppressed(now) && State() == old(State()).Swept(now)
    {
      if until == None {
        return false;
      }
      if !(now < until.value) {
        until := None;
        return false;
      }
      suppressed := true;
    }

    method TryBeginCycle(now: int) returns (id: Option<nat>)
      modifies this`cancel, this`cycleID, this`until
      ensures id.Some? <==> !old(State()).Suppressed(now)
      ensures State() == if id.Some? then old(State()).Begun(now) else old(State())
      ensures id.Some? ==> id.value == cycleID
    {
      var suppressed := SuppressedLocked(now);
      if suppressed {
        return None;
      }
      cycleID := cycleID + 1;
      cancel := Some(cycleID);
      id := Some(cycleID);
    }

    method EndCycle(id: nat)
      modifies this`cancel
      ensures State() == old(State()).Ended(id)
    {
      if cycleID == id {
        cancel := None;
      }
    }

    /** Returns the cycle whose cancel function is to be called. */
    method Preempt(now: int) returns (captured: Option<nat>)
      modifies this`cancel, this`holds, this`until
      ensures captured == old(cancel) && State() == old(State()).Preempted(now + timeout)
    {
      captured := cancel;
      cancel := None;
      holds := holds + 1;
      until := Some(now + timeout);
    }

    method Release()
      modifies this`holds, this`until
      ensures State() == old(State()).Released()
    {
      if holds > 0 {
        holds := holds - 1;
      }
      if holds == 0 {
        until := None;
      }
    }
  }

  /** The end of an earlier cycle leaves a later one registered, so that it can be preempted. */
  lemma StaleEndIsHarmless(g: GateState, now: int, id: nat)
    requires id <= g.cycleID
    ensures g.Begun(now).Ended(id) == g.Begun(now) && g.Begun(now).Ended(id).cancel.Some?
  {
  }

  // ---- the protocol ----------------------------------------------------------------

  /** The poll loop's cycle. `Ending`: the end closure has cancelled it, but not deregistered it. */
  datatype CycleState = NoCycle | Live(id: nat, cancelled: bool) | Ending(id: nat)

  /** A caller between its `Preempt` and its `Release`. `Cancelling`: past the locked section,
      with the cancel call still to come. */
  datatype Holder = Cancelling(captured: Option<nat>, until: int) | Holding(until: int)

  /** `newest` is when the window of the newest `Preempt` closes. */
  datatype State = State(now: int, gate: GateState, cycle: CycleState, holders: map<nat, Holder>, newest: int)

  datatype Step =
    | Tick(d: nat)
    | Begin
    | CancelParent
    | EndCancel
    | EndDeregister
    | Ask
    | Preempt(h: nat)
    | CancelCall(h: nat)
    | Release(h: nat)

  const START := State(0, GateState(None, 0, None, 0), NoCycle, map[], 0)

  function Cancelled(c: CycleState, id: Option<nat>): CycleState {
    if c.Live? && id == Some(c.id) then c.(cancelled := true) else c
  }

  /** One atomic step of some goroutine; a step that is not enabled changes nothing. There is
      one poll loop: a cycle begins only when its predecessor has been deregistered. */
  function Apply(timeout: nat, s: State, step: Step): State {
    match step
    case Tick(d) => s.(now := s.now + d)
    case Begin =>
      if s.cycle.NoCycle? && !s.gate.Suppressed(s.now) then
        s.(gate := s.gate.Begun(s.now), cycle := Live(s.gate.cycleID + 1, false))
      else s
    case CancelParent => if s.cycle.Live? then s.(cycle := s.cycle.(cancelled := true)) else s
    case EndCancel => if s.cycle.Live? then s.(cycle := Ending(s.cycle.id)) else s
    case EndDeregister => if s.cycle.Ending? then s.(gate := s.gate.Ended(s.cycle.id), cycle := NoCycle) else s
    case Ask => s.(gate := s.gate.Swept(s.now))
    case Preempt(h) =>
      if h in s.holders then s
      else s.(gate := s.gate.Preempted(s.now + timeout), newest := s.now + timeout,
              holders := s.holders[h := Cancelling(s.gate.cancel, s.now + timeout)])
    case CancelCall(h) =>
      if h in s.holders && s.holders[h].Cancelling? then
        s.(cycle := Cancelled(s.cycle, s.holders[h].captured), holders := s.holders[h := Holding(s.holders[h].until)])
      else s
    case Release(h) =>
      if h in s.holders && s.holders[h].Holding? then s.(gate := s.gate.Released(), holders := s.holders - {h}) else s
  }

  /** Any interleaving. */
  function Run(timeout: nat, steps: seq<Step>): State {
    if steps == [] then START else Apply(timeout, Run(timeout, steps[..|steps| - 1]), steps[|steps| - 1])
  }

  /** h has preempted, has not released, and its own window is still open. */
  predicate Open(s: State, h: nat) { h in s.holders && s.now < s.holders[h].until }

  /** Some `Preempt` that captured this cycle has not yet returned. */
  ghost predicate BeingCancelled(s: State, id: nat) {
    exists h :: h in s.holders && s.holders[h] == Cancelling(Some(id), s.holders[h].until)
  }

  ghost predicate Inv(timeout: nat, s: State) {
    && s.gate.holds == |s.holders|
    && (s.gate.until.Some? ==> s.gate.until.value == s.newest)
    && (s.holders == map[] ==> s.gate.until.None?)
    && (s.holders != map[] && s.now < s.newest ==> s.gate.until.Some?)
    && (s.holders != map[] ==> s.newest <= s.now + timeout)
    && (forall h :: h in s.holders ==> s.holders[h].until <= s.newest)
    && (s.gate.cancel.Some? ==> s.gate.cancel.value == s.gate.cycleID && !s.cycle.NoCycle?)
    && (!s.cycle.NoCycle? ==> s.cycle.id == s.gate.cycleID)
    && (s.cycle.Live? && !s.cycle.cancelled ==> s.gate.cancel == Some(s.cycle.id) || BeingCancelled(s, s.cycle.id))
    && (forall h :: Open(s, h) ==> s.gate.cancel.None?)
  }

  lemma OtherStillCancels(s: State, t: State, id: nat)
    requires BeingCancelled(s, id)
    requires forall h :: h in s.holders && s.holders[h].Cancelling? ==> h in t.holders && t.holders[h] == s.holders[h]
    ensures BeingCancelled(t, id)
  {
    var h :| h in s.holders && s.holders[h] == Cancelling(Some(id), s.holders[h].until);
    assert h in t.holders && t.holders[h] == Cancelling(Some(id), t.holders[h].until);
  }

  lemma PreemptKeepsInv(timeout: nat, s: State, h: nat)
    requires timeout > 0 && Inv(timeout, s) && h !in s.holders
    ensures Inv(timeout, Apply(timeout, s, Preempt(h)))
  {
    var t := Apply(timeout, s, Preempt(h));
    assert t.holders.Keys == s.holders.Keys + {h};
    assert |t.holders| == |s.holders| + 1;
    if t.cycle.Live? && !t.cycle.cancelled {
      if s.gate.cancel == Some(s.cycle.id) {
        assert t.holders[h] == Cancelling(Some(t.cycle.id), t.holders[h].until);
      } else {
        OtherStillCancels(s, t, s.cycle.id);
      }
    }
  }

  lemma CancelCallKeepsInv(timeout: nat, s: State, h: nat)
    requires Inv(timeout, s) && h in s.holders && s.holders[h].Cancelling?
    ensures Inv(timeout, Apply(timeout, s, CancelCall(h)))
  {
    var t := Apply(timeout, s, CancelCall(h));
    assert t.holders.Keys == s.holders.Keys;
    assert |t.holders| == |t.holders.Keys| == |s.holders.Keys| == |s.holders|;
    assert forall k :: Open(t, k) ==> Open(s, k);
    if t.cycle.Live? && !t.cycle.cancelled && s.gate.cancel != Some(s.cycle.id) {
      var k :| k in s.holders && s.holders[k] == Cancelling(Some(s.cycle.id), s.holders[k].until);
      assert k != h;
      assert t.holders[k] == Cancelling(Some(t.cycle.id), t.holders[k].until);
    }
  }

  lemma ReleaseKeepsInv(timeout: nat, s: State, h: nat)
    requires Inv(timeout, s) && h in s.holders && s.holders[h].Holding?
    ensures Inv(timeout, Apply(timeout, s, Release(h)))
  {
    var t := Apply(timeout, s, Release(h));
    assert s.holders.Keys == t.holders.Keys + {h};
    assert |s.holders| == |s.holders.Keys| == |t.holders.Keys| + 1;
    assert |t.holders| == |t.holders.Keys|;
    assert t.holders == map[] <==> |t.holders| == 0;
    assert forall k :: Open(t, k) ==> Open(s, k);
    if t.cycle.Live? && !t.cycle.cancelled && s.gate.cancel != Some(s.cycle.id) {
      OtherStillCancels(s, t, s.cycle.id);
    }
  }

  lemma OtherStepKeepsInv(timeout: nat, s: State, step: Step)
    requires Inv(timeout, s) && (step.Tick? || step.Begin? || step.CancelParent? || step.EndCancel? || step.EndDeregister? || step.Ask?)
    ensures Inv(timeout, Apply(timeout, s, step))
  {
    var t := Apply(timeout, s, step);
    assert t.holders == s.holders;
    assert forall k :: Open(t, k) ==> Open(s, k);
    if s.cycle.Live? && BeingCancelled(s, s.cycle.id) {
      OtherStillCancels(s, t, s.cycle.id);
    }
  }

  lemma StepKeepsInv(timeout: nat, s: State, step: Step)
    requires timeout > 0 && Inv(timeout, s)
    ensures Inv(timeout, Apply(timeout, s, step))
  {
    hide Inv;
    match step
    case Preempt(h) => if h !in s.holders { PreemptKeepsInv(timeout, s, h); }
    case CancelCall(h) => if h in s.holders && s.holders[h].Cancelling? { CancelCallKeepsInv(timeout, s, h); }
    case Release(h) => if h in s.holders && s.holders[h].Holding? { ReleaseKeepsInv(timeout, s, h); }
    case _ => OtherStepKeepsInv(timeout, s, step);
  }

  lemma {:induction false} InvHolds(timeout: nat, steps: seq<Step>)
    requires timeout > 0
    ensures Inv(timeout, Run(timeout, steps))
  {
    if steps != [] {
      InvHolds(timeout, steps[..|steps| - 1]);
      StepKeepsInv(timeout, Run(timeout, steps[..|steps| - 1]), steps[|steps| - 1]);
    }
  }

  /** What an open window means in any state of the protocol. */
  lemma OpenWindow(timeout: nat, s: State, h: nat)
    requires Inv(timeout, s) && Open(s, h)
    ensures Apply(timeout, s, Begin) == s
    ensures s.cycle.Live? && !s.cycle.cancelled ==> BeingCancelled(s, s.cycle.id)
  {
    assert s.holders != map[];
  }

  // ---- results ---------------------------------------------------------------------

  /** Gate safety, over all interleavings: while any holder's own window is open no cycle
      starts, and a cycle that is live and not cancelled then is one that a `Preempt` which has
      not returned yet is about to cancel. */
  lemma {:induction false} GateSafety(timeout: nat, steps: seq<Step>, h: nat)
    requires timeout > 0 && Open(Run(timeout, steps), h)
    ensures var s := Run(timeout, steps);
      && Apply(timeout, s, Begin) == s
      && (s.cycle.Live? && !s.cycle.cancelled ==> BeingCancelled(s, s.cycle.id))
  {
    InvHolds(timeout, steps);
    OpenWindow(timeout, Run(timeout, steps), h);
  }

  /** Accounting: `holds` is the number of outstanding holders, and reads are held off exactly
      while there is one and the newest window is open. So an absent holder never suppresses,
      suppression never outlasts the newest `Preempt` by more than the timeout, and a release
      that never happens cannot wedge polling. */
  lemma {:induction false} GateAccounting(timeout: nat, steps: seq<Step>)
    requires timeout > 0
    ensures var s := Run(timeout, steps);
      && s.gate.holds == |s.holders|
      && (s.gate.Suppressed(s.now) <==> s.holders != map[] && s.now < s.newest)
      && (s.gate.Suppressed(s.now) ==> s.gate.until.value == s.newest <= s.now + timeout)
      && (s.cycle.NoCycle? && (s.holders == map[] || s.now >= s.newest) ==> Apply(timeout, s, Begin).cycle == Live(s.gate.cycleID + 1, false))
  {
    InvHolds(timeout, steps);
  }

  predicate Keeps(steps: seq<Step>, h: nat) { forall i :: 0 <= i < |steps| ==> steps[i] != Release(h) }

  lemma {:induction false} HolderStays(timeout: nat, steps: seq<Step>, more: seq<Step>, h: nat, until: int)
    requires h in Run(timeout, steps).holders && Run(timeout, steps).holders[h].until == until && Keeps(more, h)
    ensures h in Run(timeout, steps + more).holders && Run(timeout, steps + more).holders[h].until == until
    decreases more
  {
    if more == [] {
      assert steps + more == steps;
    } else {
      var n := |more| - 1;
      HolderStays(timeout, steps, more[..n], h, until);
      assert (steps + more)[..|steps| + n] == steps + more[..n];
    }
  }

  /** A window lasts: from a `Preempt` on, reads are held off and no cycle starts for the whole
      timeout, whatever anyone does, as long as that caller does not release. */
  lemma {:induction false} WindowLasts(timeout: nat, steps: seq<Step>, h: nat, more: seq<Step>)
    requires timeout > 0 && h !in Run(timeout, steps).holders && Keeps(more, h)
    requires Run(timeout, steps + [Preempt(h)] + more).now < Run(timeout, steps).now + timeout
    ensures var s := Run(timeout, steps + [Preempt(h)] + more);
      Open(s, h) && s.gate.Suppressed(s.now) && Apply(timeout, s, Begin) == s
  {
    var begun := steps + [Preempt(h)];
    assert begun[..|begun| - 1] == steps;
    HolderStays(timeout, begun, more, h, Run(timeout, steps).now + timeout);
    GateSafety(timeout, begun + more, h);
    GateAccounting(timeout, begun + more);
    InvHolds(timeout, begun + more);
  }

  /** A late release, by a holder whose window is over, never lifts another's live hold. */
  lemma {:induction false} LateReleaseIsHarmless(timeout: nat, steps: seq<Step>, late: nat, live: nat)
    requires timeout > 0 && late != live && Open(Run(timeout, steps), live)
    ensures var s := Apply(timeout, Run(timeout, steps), Release(late));
      s.gate.Suppressed(s.now) && Apply(timeout, s, Begin) == s
  {
    var more := steps + [Release(late)];
    assert more[..|more| - 1] == steps;
    assert Open(Run(timeout, more), live);
    GateSafety(timeout, more, live);
    GateAccounting(timeout, more);
    InvHolds(timeout, more);
  }
}
