/** Write priority from end to end: the protocol of Gate.dfy interleaved with what the admitted
    cycle publishes. The poll loop looks whether its cycle is still live, publishes one value,
    looks again; a `Preempt` may fall anywhere in between. */
module Preemption {
  import opened Basics
  import opened ConfirmedRead
  import opened CheckedPublish
  import Gate
  import Poller

  /** `acts` is what the current cycle has done: it starts over with each cycle. */
  datatype State = State(protocol: Gate.State, acts: seq<Act>) {
    function Cycle(): nat { protocol.gate.cycleID }

    /** The cycle is registered and nobody has cancelled it. */
    predicate Unhindered() { protocol.cycle.Live? && !protocol.cycle.cancelled }
  }

  datatype Move = OfGate(step: Gate.Step) | Look | Emit(act: Act)

  const START := State(Gate.START, [])

  /** One step of some goroutine. The loop publishes only after a look of its own. */
  function Apply(timeout: nat, s: State, move: Move): State {
    match move
    case OfGate(step) =>
      var p := Gate.Apply(timeout, s.protocol, step);
      State(p, if p.gate.cycleID == s.Cycle() then s.acts else [])
    case Look => if s.protocol.cycle.Live? then s.(acts := s.acts + [Checked(!s.protocol.cycle.cancelled)]) else s
    case Emit(act) => if s.protocol.cycle.Live? && IsPublish(act) && Armed(s.acts) then s.(acts := s.acts + [act]) else s
  }

  /** Any interleaving, from any state. */
  function After(timeout: nat, s: State, moves: seq<Move>): State {
    if moves == [] then s else Apply(timeout, After(timeout, s, moves[..|moves| - 1]), moves[|moves| - 1])
  }

  /** The window of h is open in every state on the way. */
  ghost predicate OpenThroughout(timeout: nat, s: State, moves: seq<Move>, h: nat) {
    && Gate.Open(After(timeout, s, moves).protocol, h)
    && (moves != [] ==> OpenThroughout(timeout, s, moves[..|moves| - 1], h))
  }

  // ---- invariants ------------------------------------------------------------------

  ghost predicate Inv(timeout: nat, s: State) { Gate.Inv(timeout, s.protocol) && Guarded(s.acts) }

  lemma MoveKeepsInv(timeout: nat, s: State, move: Move)
    requires timeout > 0 && Inv(timeout, s)
    ensures Inv(timeout, Apply(timeout, s, move))
  {
    hide Gate.Inv, Gate.Apply;
    match move
    case OfGate(step) => Gate.StepKeepsInv(timeout, s.protocol, step);
    case Look => if s.protocol.cycle.Live? { Appended(s.acts, Checked(!s.protocol.cycle.cancelled)); }
    case Emit(act) => Appended(s.acts, act);
  }

  lemma {:induction false} InvAfter(timeout: nat, s: State, moves: seq<Move>)
    requires timeout > 0 && Inv(timeout, s)
    ensures Inv(timeout, After(timeout, s, moves))
    decreases moves
  {
    hide Inv, Apply;
    if moves != [] {
      InvAfter(timeout, s, moves[..|moves| - 1]);
      MoveKeepsInv(timeout, After(timeout, s, moves[..|moves| - 1]), moves[|moves| - 1]);
    }
  }

  lemma StartKeepsInv(timeout: nat)
    ensures Inv(timeout, START)
  {
  }

  // ---- what a cancelled cycle still does -------------------------------------------

  /** Since s: still the same cycle, with nothing but failed looks and publishes added. */
  ghost predicate Winding(s: State, t: State) {
    && s.Cycle() == t.Cycle() && !t.Unhindered()
    && s.acts <= t.acts && TrippedAt(t.acts, |s.acts|)
  }

  lemma CyclesOnlyGrow(timeout: nat, s: State, move: Move)
    ensures s.Cycle() <= Apply(timeout, s, move).Cycle()
  {
  }

  lemma {:induction false} CycleAfter(timeout: nat, s: State, moves: seq<Move>)
    ensures s.Cycle() <= After(timeout, s, moves).Cycle()
    decreases moves
  {
    hide Apply;
    if moves != [] {
      CycleAfter(timeout, s, moves[..|moves| - 1]);
      CyclesOnlyGrow(timeout, After(timeout, s, moves[..|moves| - 1]), moves[|moves| - 1]);
    }
  }

  lemma StepStaysWinding(timeout: nat, p: Gate.State, step: Gate.Step)
    requires !(p.cycle.Live? && !p.cycle.cancelled) && Gate.Apply(timeout, p, step).gate.cycleID == p.gate.cycleID
    ensures var q := Gate.Apply(timeout, p, step).cycle; !(q.Live? && !q.cancelled)
  {
  }

  lemma MoveStaysWinding(timeout: nat, s: State, t: State, move: Move)
    requires Winding(s, t) && Apply(timeout, t, move).Cycle() == t.Cycle()
    ensures Winding(s, Apply(timeout, t, move))
  {
    if move.OfGate? {
      StepStaysWinding(timeout, t.protocol, move.step);
    }
  }

  lemma {:induction false} StaysWinding(timeout: nat, s: State, moves: seq<Move>)
    requires !s.Unhindered() && After(timeout, s, moves).Cycle() == s.Cycle()
    ensures Winding(s, After(timeout, s, moves))
    decreases moves
  {
    hide Winding, Apply;
    if moves == [] {
      WindingAtOnce(s);
    } else {
      var t := After(timeout, s, moves[..|moves| - 1]);
      CycleAfter(timeout, s, moves[..|moves| - 1]);
      CyclesOnlyGrow(timeout, t, moves[|moves| - 1]);
      StaysWinding(timeout, s, moves[..|moves| - 1]);
      MoveStaysWinding(timeout, s, t, moves[|moves| - 1]);
    }
  }

  lemma WindingAtOnce(s: State)
    requires !s.Unhindered()
    ensures Winding(s, s)
  {
  }

  // ---- while a window is open ------------------------------------------------------

  lemma OpenStartsNoCycle(timeout: nat, s: State, move: Move, h: nat)
    requires Inv(timeout, s) && Gate.Open(s.protocol, h)
    ensures Apply(timeout, s, move).Cycle() == s.Cycle()
  {
    Gate.OpenWindow(timeout, s.protocol, h);
  }

  lemma {:induction false} SameCycle(timeout: nat, s: State, moves: seq<Move>, h: nat)
    requires timeout > 0 && Inv(timeout, s) && OpenThroughout(timeout, s, moves, h)
    ensures After(timeout, s, moves).Cycle() == s.Cycle()
    decreases moves
  {
    hide Inv, Apply, Gate.Open;
    if moves != [] {
      var t := After(timeout, s, moves[..|moves| - 1]);
      StillOpen(timeout, s, moves[..|moves| - 1], h);
      InvAfter(timeout, s, moves[..|moves| - 1]);
      SameCycle(timeout, s, moves[..|moves| - 1], h);
      OpenStartsNoCycle(timeout, t, moves[|moves| - 1], h);
    }
  }

  lemma StillOpen(timeout: nat, s: State, moves: seq<Move>, h: nat)
    requires OpenThroughout(timeout, s, moves, h)
    ensures Gate.Open(After(timeout, s, moves).protocol, h)
  {
  }

  /** From s on, the cycle publishes at most one more value, and none without a passed look
      that it has not used yet. */
  ghost predicate AtMostOneMore(s: State, t: State) {
    && t.Cycle() == s.Cycle() && s.acts <= t.acts
    && Publications(t.acts[|s.acts|..]) <= if Armed(s.acts) then 1 else 0
  }

  lemma WindingPublishes(s: State, t: State)
    requires Winding(s, t) && Guarded(t.acts)
    ensures AtMostOneMore(s, t)
  {
    AtMostOneAfterTrip(t.acts, |s.acts|);
    assert t.acts[..|s.acts|] == s.acts;
  }

  lemma HinderedIsBounded(timeout: nat, s: State, moves: seq<Move>, h: nat)
    requires timeout > 0 && Inv(timeout, s) && OpenThroughout(timeout, s, moves, h) && !s.Unhindered()
    ensures AtMostOneMore(s, After(timeout, s, moves))
  {
    SameCycle(timeout, s, moves, h);
    StaysWinding(timeout, s, moves);
    InvAfter(timeout, s, moves);
    WindingPublishes(s, After(timeout, s, moves));
  }

  /** Looks and publishes alternating, as a loop does that nobody has stopped. */
  const TWO_MORE := [Look, Emit(Published("t", "v")), Look, Emit(Published("t", "v"))]

  lemma Onward(timeout: nat, s: State, moves: seq<Move>, move: Move, h: nat)
    requires OpenThroughout(timeout, s, moves, h) && Gate.Open(Apply(timeout, After(timeout, s, moves), move).protocol, h)
    ensures After(timeout, s, moves + [move]) == Apply(timeout, After(timeout, s, moves), move)
    ensures OpenThroughout(timeout, s, moves + [move], h)
  {
    hide Apply, Gate.Open;
    assert (moves + [move])[..|moves|] == moves;
  }

  /** One more look and one more publish. */
  lemma PublishesOne(timeout: nat, s: State, moves: seq<Move>, h: nat, t: State, a: Act)
    requires OpenThroughout(timeout, s, moves, h) && After(timeout, s, moves) == t && t.Unhindered() && IsPublish(a)
    ensures OpenThroughout(timeout, s, moves + [Look] + [Emit(a)], h)
    ensures After(timeout, s, moves + [Look] + [Emit(a)]) == t.(acts := t.acts + [Checked(true)] + [a])
  {
    StillOpen(timeout, s, moves, h);
    Appended(t.acts, Checked(true));
    hide OpenThroughout, After, Gate.Open;
    Onward(timeout, s, moves, Look, h);
    Onward(timeout, s, moves + [Look], Emit(a), h);
  }

  lemma UnhinderedGoesOn(timeout: nat, s: State, h: nat)
    requires Gate.Open(s.protocol, h) && s.Unhindered()
    ensures OpenThroughout(timeout, s, TWO_MORE, h) && !AtMostOneMore(s, After(timeout, s, TWO_MORE))
  {
    var a := Published("t", "v");
    assert OpenThroughout(timeout, s, [], h) && After(timeout, s, []) == s;
    hide OpenThroughout, After, Gate.Open;
    var t := s.(acts := s.acts + [Checked(true)] + [a]);
    PublishesOne(timeout, s, [], h, s, a);
    PublishesOne(timeout, s, [] + [Look] + [Emit(a)], h, t, a);
    assert [] + [Look] + [Emit(a)] + [Look] + [Emit(a)] == TWO_MORE;
    assert (t.acts + [Checked(true)] + [a])[|s.acts|..] == [] + [Checked(true)] + [a] + [Checked(true)] + [a];
    TwoPublishes(a);
  }

  lemma TwoPublishes(a: Act)
    requires IsPublish(a)
    ensures Publications([] + [Checked(true)] + [a] + [Checked(true)] + [a]) == 2
  {
    Appended([], Checked(true));
    Appended([] + [Checked(true)], a);
    Appended([] + [Checked(true)] + [a], Checked(true));
    Appended([] + [Checked(true)] + [a] + [Checked(true)], a);
  }

  // ---- the poll loop is one of the interleaved parties ------------------------------

  function MoveOf(a: Act): Move { if a.Checked? then Look else Emit(a) }

  /** The cancellation of a context that k looks find live, when there have been k. */
  function CancelAt(start: Ctx, k: nat): seq<Move> { if start == CancelledIn(k) then [OfGate(Gate.CancelParent)] else [] }

  /** What a publish phase did, with the cancellation where its context has it. */
  function MovesOf(start: Ctx, acts: seq<Act>): seq<Move> {
    if acts == [] then CancelAt(start, 0)
    else
      var before, a := acts[..|acts| - 1], acts[|acts| - 1];
      MovesOf(start, before) + [MoveOf(a)] + if a.Checked? then CancelAt(start, |Checks(before)| + 1) else []
  }

  /** The state of a cycle whose publish phase has done this much. */
  function Publishing(s: State, ctx: Ctx, acts: seq<Act>): State
    requires s.protocol.cycle.Live?
  {
    State(s.protocol.(cycle := s.protocol.cycle.(cancelled := ctx.Done())), acts)
  }

  lemma AfterMove(timeout: nat, s: State, moves: seq<Move>, move: Move)
    ensures After(timeout, s, moves + [move]) == Apply(timeout, After(timeout, s, moves), move)
  {
    assert (moves + [move])[..|moves|] == moves;
  }

  lemma AfterCancelAt(timeout: nat, s: State, moves: seq<Move>, start: Ctx, k: nat, ctx: Ctx, acts: seq<Act>)
    requires s.protocol.cycle.Live? && After(timeout, s, moves) == Publishing(s, ctx, acts)
    requires Poller.CtxAfter(start, k).Done() == (ctx.Done() || start == CancelledIn(k))
    ensures After(timeout, s, moves + CancelAt(start, k)) == Publishing(s, Poller.CtxAfter(start, k), acts)
  {
    if start == CancelledIn(k) {
      AfterMove(timeout, s, moves, OfGate(Gate.CancelParent));
    } else {
      assert moves + CancelAt(start, k) == moves;
    }
  }

  lemma LookOrEmit(timeout: nat, s: State, start: Ctx, acts: seq<Act>, a: Act)
    requires s.protocol.cycle.Live? && (a.Checked? || IsPublish(a))
    requires a.Checked? ==> a.ok == Poller.LiveAt(start, |Checks(acts)|)
    requires IsPublish(a) ==> Armed(acts)
    ensures var ctx := Poller.CtxAfter(start, |Checks(acts)|);
      Apply(timeout, Publishing(s, ctx, acts), MoveOf(a)) == Publishing(s, ctx, acts + [a])
  {
  }

  lemma NothingDone(timeout: nat, s: State, start: Ctx)
    requires s.Unhindered() && s.acts == []
    ensures After(timeout, s, CancelAt(start, 0)) == Publishing(s, Poller.CtxAfter(start, 0), [])
  {
    assert After(timeout, s, []) == Publishing(s, Never, []);
    AfterCancelAt(timeout, s, [], start, 0, Never, []);
    assert [] + CancelAt(start, 0) == CancelAt(start, 0);
  }

  lemma OneMoreAct(timeout: nat, s: State, start: Ctx, k: nat, was: Ctx, before: seq<Act>, a: Act, acts: seq<Act>, moves: seq<Move>)
    requires s.protocol.cycle.Live? && After(timeout, s, moves) == Publishing(s, was, before)
    requires was == Poller.CtxAfter(start, k)
    requires Apply(timeout, Publishing(s, was, before), MoveOf(a)) == Publishing(s, was, acts)
    ensures a.Checked? ==> After(timeout, s, moves + [MoveOf(a)] + CancelAt(start, k + 1)) == Publishing(s, Poller.CtxAfter(start, k + 1), acts)
    ensures After(timeout, s, moves + [MoveOf(a)] + []) == Publishing(s, was, acts)
  {
    hide After, Apply, Publishing;
    AfterMove(timeout, s, moves, MoveOf(a));
    assert moves + [MoveOf(a)] + [] == moves + [MoveOf(a)];
    AfterCancelAt(timeout, s, moves + [MoveOf(a)], start, k + 1, was, acts);
  }

  /** Every publish phase that the poll loop can go through is an interleaving of the protocol,
      with the looks and publishes it made and the cancellation at the look where it met it. */
  lemma {:induction false} CycleIsInterleaving(timeout: nat, s: State, start: Ctx, ctx: Ctx, acts: seq<Act>)
    requires s.Unhindered() && s.acts == [] && Poller.Faithful(start, ctx, acts)
    ensures After(timeout, s, MovesOf(start, acts)) == Publishing(s, ctx, acts)
    decreases acts
  {
    if acts == [] {
      NothingDone(timeout, s, start);
      return;
    }
    hide After, Apply, Publishing, Poller.Faithful, Poller.LiveAt, Checks;
    var before, a := acts[..|acts| - 1], acts[|acts| - 1];
    assert acts == before + [a];
    Poller.FaithfulBefore(start, ctx, before, a);
    var k := |Checks(before)|;
    var was := Poller.CtxAfter(start, k);
    CycleIsInterleaving(timeout, s, start, was, before);
    LookOrEmit(timeout, s, start, before, a);
    OneMoreAct(timeout, s, start, k, was, before, a, acts, MovesOf(start, before));
  }

  // ---- results ---------------------------------------------------------------------

  /** Write priority, exactly, over all interleavings. Take any moment at which h holds the gate
      with its window open. As long as it stays open the poll loop publishes at most one more
      value, whatever anyone does, if and only if it is not the case that the cycle runs on
      uncancelled because another `Preempt`, which captured it, has still to call its cancel
      function. */
  lemma PreemptBoundsPublishing(timeout: nat, before: seq<Move>, h: nat)
    requires timeout > 0 && Gate.Open(After(timeout, START, before).protocol, h)
    ensures var s := After(timeout, START, before);
      (forall moves :: OpenThroughout(timeout, s, moves, h) ==> AtMostOneMore(s, After(timeout, s, moves)))
      <==> !(s.Unhindered() && Gate.BeingCancelled(s.protocol, s.protocol.cycle.id))
  {
    var s := After(timeout, START, before);
    StartKeepsInv(timeout);
    InvAfter(timeout, START, before);
    Gate.OpenWindow(timeout, s.protocol, h);
    if s.Unhindered() {
      UnhinderedGoesOn(timeout, s, h);
    } else {
      forall moves | OpenThroughout(timeout, s, moves, h) ensures AtMostOneMore(s, After(timeout, s, moves)) {
        HinderedIsBounded(timeout, s, moves, h);
      }
    }
  }

  /** With every `Preempt` returned, no cycle starts and at most one more value is published
      until the window of h closes or h releases. */
  lemma AfterPreemptReturned(timeout: nat, before: seq<Move>, h: nat, moves: seq<Move>)
    requires timeout > 0 && OpenThroughout(timeout, After(timeout, START, before), moves, h)
    requires var p := After(timeout, START, before).protocol; forall k :: k in p.holders ==> p.holders[k].Holding?
    ensures AtMostOneMore(After(timeout, START, before), After(timeout, After(timeout, START, before), moves))
  {
    var s := After(timeout, START, before);
    OpenFromStart(timeout, s, moves, h);
    PreemptBoundsPublishing(timeout, before, h);
  }

  lemma {:induction false} OpenFromStart(timeout: nat, s: State, moves: seq<Move>, h: nat)
    requires OpenThroughout(timeout, s, moves, h)
    ensures Gate.Open(s.protocol, h)
    decreases moves
  {
    if moves != [] {
      OpenFromStart(timeout, s, moves[..|moves| - 1], h);
    }
  }

  /** Two commands at once: the first has captured the running cycle and not cancelled it yet,
      the second finds none registered, and its `Preempt` returns. */
  const OVERLAP := [OfGate(Gate.Begin), OfGate(Gate.Preempt(1)), OfGate(Gate.Preempt(2)), OfGate(Gate.CancelCall(2))]

  lemma OverlapPublishesOn(timeout: nat)
    requires timeout > 0
    ensures var s := After(timeout, START, OVERLAP);
      && Gate.Open(s.protocol, 2) && s.protocol.holders[2].Holding?
      && exists moves :: OpenThroughout(timeout, s, moves, 2) && !AtMostOneMore(s, After(timeout, s, moves))
  {
    var first, second, called := OfGate(Gate.Preempt(1)), OfGate(Gate.Preempt(2)), OfGate(Gate.CancelCall(2));
    var begun := [] + [OfGate(Gate.Begin)];
    assert OVERLAP == begun + [first] + [second] + [called];
    AfterMove(timeout, START, [], OfGate(Gate.Begin));
    AfterMove(timeout, START, begun, first);
    AfterMove(timeout, START, begun + [first], second);
    AfterMove(timeout, START, begun + [first] + [second], called);
    var s := After(timeout, START, OVERLAP);
    assert s.Unhindered() && Gate.Open(s.protocol, 2);
    UnhinderedGoesOn(timeout, s, 2);
  }
}
