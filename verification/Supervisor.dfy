/** `Supervise` of `internal/serial/serial.go`: the only place that reopens the port, at a pace.

    The environment is a script of moments, one for each turn of the loop: whether the port lost
    its health since the last turn, how long a reopen takes, and how late a timer fires. */
module Supervisor {
  import opened Basics
  import opened SerialLink

  datatype Pacing = Pacing(base: int, max: int, interval: int)

  const SECOND: int := 1000 * MS

  /** The supervisor's part of `applyDefaults`. */
  function PacingDefaults(p: Pacing): (q: Pacing)
    ensures Sound(q)
    ensures p.base > 0 ==> q.base == p.base && (p.max >= p.base ==> q.max == p.max)
  {
    var base := if p.base <= 0 then 500 * MS else p.base;
    Pacing(base, if p.max < base then Max(30 * SECOND, base) else p.max, if p.interval <= 0 then SECOND else p.interval)
  }

  predicate Sound(p: Pacing) { 0 < p.base <= p.max && 0 < p.interval }

  datatype Moment = Moment(lost: bool, took: nat, late: nat)

  const QUIET := Moment(false, 0, 0)

  /** What the supervisor did or met: it saw a healthy port, and reset its backoff or not; the
      port had lost its health; it reopened the port, and holds off for a while. */
  datatype Event = Watched(at: int, reset: bool) | Lost(seen: int) | Reopened(start: int, done: int, ok: bool, wait: int)

  /** The loop's variables, the port's health, and what is still to come. */
  datatype Bench = Bench(now: int, backoff: int, healthySince: Option<int>, healthy: bool, openings: seq<bool>,
                         moments: seq<Moment>, log: seq<Event>)
  {
    function Next(): Moment { if moments == [] then QUIET else moments[0] }

    function Faced(): Bench {
      this.(moments := if moments == [] then [] else moments[1..], healthy := healthy && !Next().lost,
            log := if healthy && Next().lost then log + [Lost(now)] else log)
    }

    function Opens(): bool { openings == [] || openings[0] }
  }

  // ---- the loop, as a function -----------------------------------------------------

  /** What a turn does with a healthy port, before it sleeps. */
  function WatchedOnce(p: Pacing, b: Bench): Bench {
    var since := if b.healthySince.None? then b.now else b.healthySince.value;
    var reset := b.now - since >= p.max;
    b.(healthySince := Some(since), backoff := if reset then p.base else b.backoff, log := b.log + [Watched(b.now, reset)])
  }

  /** What a turn does with an unhealthy port, before it sleeps. */
  function ReopenedOnce(took: nat, b: Bench): Bench {
    b.(now := b.now + took, healthySince := None, healthy := b.Opens(), openings := if b.openings == [] then [] else b.openings[1..],
       log := b.log + [Reopened(b.now, b.now + took, b.Opens(), b.backoff)])
  }

  function Doubled(p: Pacing, backoff: int): int { if 2 * backoff > p.max then p.max else 2 * backoff }

  datatype Turn = Stopped(bench: Bench) | Turned(bench: Bench, ctx: Ctx)

  /** One turn. A cancelled context ends the loop at its head or in the middle of a sleep. */
  function StepSupervise(p: Pacing, ctx: Ctx, b: Bench): Turn {
    if ctx.Done() then Stopped(b)
    else
      var m, f := b.Next(), b.Faced();
      if f.healthy then
        var w := WatchedOnce(p, f);
        if ctx.Checked().Done() then Stopped(w) else Turned(w.(now := w.now + p.interval + m.late), ctx.Checked().Checked())
      else
        var r := ReopenedOnce(m.took, f);
        if ctx.Checked().Done() then Stopped(r)
        else Turned(r.(now := r.now + r.backoff + m.late, backoff := Doubled(p, r.backoff)), ctx.Checked().Checked())
  }

  function SuperviseFrom(p: Pacing, ctx: Ctx, b: Bench): Bench
    requires ctx.CancelledIn?
    decreases ctx.checks
  {
    match StepSupervise(p, ctx, b)
    case Stopped(end) => end
    case Turned(next, left) => SuperviseFrom(p, left, next)
  }

  lemma SuperviseUnfolds(p: Pacing, ctx: Ctx, b: Bench, t: Turn)
    requires ctx.CancelledIn? && t == StepSupervise(p, ctx, b)
    ensures t.Stopped? ==> SuperviseFrom(p, ctx, b) == t.bench
    ensures t.Turned? ==> t.ctx.CancelledIn? && t.ctx.checks < ctx.checks && SuperviseFrom(p, ctx, b) == SuperviseFrom(p, t.ctx, t.bench)
  {
  }

  // ---- the pace --------------------------------------------------------------------

  function Pow2(k: nat): nat { if k == 0 then 1 else 2 * Pow2(k - 1) }

  /** How often the port was reopened since the last reset. */
  function Attempts(log: seq<Event>): nat {
    if log == [] then 0
    else
      var before := Attempts(log[..|log| - 1]);
      match log[|log| - 1]
      case Watched(_, reset) => if reset then 0 else before
      case Lost(_) => before
      case Reopened(_, _, _, _) => before + 1
  }

  /** The port was seen healthy at every turn from the i-th event to the j-th, with no loss and
      no reopen between them. */
  ghost predicate Steady(log: seq<Event>, i: nat, j: nat) {
    i <= j < |log| && forall k :: i <= k <= j ==> log[k].Watched?
  }

  /** The port was healthy without a break for at least this long when the j-th event came. */
  ghost predicate SteadyFor(log: seq<Event>, j: nat, span: int) {
    exists i :: 0 <= i <= j && Steady(log, i, j) && log[j].at - log[i].at >= span
  }

  /** The j-th event keeps the pace: the k-th reopen since the last reset holds off for
      min(base * 2^k, max); no reopen starts before an earlier one's hold-off is over; and the
      backoff is reset exactly after an uninterrupted healthy span of at least max. */
  ghost predicate InPace(p: Pacing, log: seq<Event>, j: nat)
    requires j < |log|
  {
    match log[j]
    case Reopened(start, done, _, wait) =>
      && wait == Min(p.base * Pow2(Attempts(log[..j])), p.max)
      && start <= done
      && (forall i :: 0 <= i < j && log[i].Reopened? ==> log[i].done + log[i].wait <= start)
    case Watched(at, reset) => reset <==> SteadyFor(log, j, p.max)
    case Lost(_) => true
  }

  /** Lost health is restored by nothing but a reopen. */
  ghost predicate LossIsReopened(log: seq<Event>) {
    forall i :: 0 <= i < |log| && log[i].Lost? ==> i + 1 < |log| && log[i + 1].Reopened?
  }

  ghost predicate Paced(p: Pacing, log: seq<Event>) {
    forall j :: 0 <= j < |log| ==> InPace(p, log, j)
  }

  /** The first of the unbroken healthy checks that the log ends with. */
  ghost predicate FirstOfSpan(log: seq<Event>, since: Option<int>) {
    match since
    case None => log != [] ==> !log[|log| - 1].Watched?
    case Some(t) => exists i :: 0 <= i < |log| && Steady(log, i, |log| - 1) && log[i].at == t && (i > 0 ==> !log[i - 1].Watched?)
  }

  /** Events come in the order of time, and the present is after them all. */
  ghost predicate Ordered(log: seq<Event>, now: int) {
    && (forall i, j :: 0 <= i < j < |log| && log[i].Watched? && log[j].Watched? ==> log[i].at <= log[j].at)
    && (forall i :: 0 <= i < |log| && log[i].Watched? ==> log[i].at <= now)
    && (forall i :: 0 <= i < |log| && log[i].Reopened? ==> log[i].done + log[i].wait <= now)
  }

  ghost predicate Inv(p: Pacing, log: seq<Event>, backoff: int, since: Option<int>, now: int) {
    && Paced(p, log) && LossIsReopened(log)
    && backoff == Min(p.base * Pow2(Attempts(log)), p.max)
    && FirstOfSpan(log, since)
    && Ordered(log, now)
  }

  ghost predicate BenchInv(p: Pacing, b: Bench) { Inv(p, b.log, b.backoff, b.healthySince, b.now) }

  lemma SteadySettled(log: seq<Event>, e: Event, i: nat, j: nat)
    requires j < |log|
    ensures Steady(log + [e], i, j) == Steady(log, i, j)
  {
    assert forall k :: 0 <= k <= j ==> (log + [e])[k] == log[k];
    if Steady(log + [e], i, j) {
      assert forall k :: i <= k <= j ==> log[k] == (log + [e])[k];
    }
  }

  lemma SteadyForSettled(log: seq<Event>, e: Event, j: nat, span: int)
    requires j < |log|
    ensures SteadyFor(log + [e], j, span) == SteadyFor(log, j, span)
  {
    forall i: nat ensures Steady(log + [e], i, j) == Steady(log, i, j) {
      SteadySettled(log, e, i, j);
    }
    if SteadyFor(log, j, span) {
      var i: nat :| i <= j && Steady(log, i, j) && log[j].at - log[i].at >= span;
      assert Steady(log + [e], i, j);
    }
  }

  /** Whether an event keeps the pace is settled when it happens. */
  lemma InPaceSettled(p: Pacing, log: seq<Event>, e: Event, j: nat)
    requires j < |log|
    ensures InPace(p, log + [e], j) == InPace(p, log, j)
  {
    assert (log + [e])[..j] == log[..j];
    SteadyForSettled(log, e, j, p.max);
  }

  lemma PacedGrows(p: Pacing, log: seq<Event>, e: Event)
    requires Paced(p, log) && InPace(p, log + [e], |log|)
    ensures Paced(p, log + [e])
  {
    forall j | 0 <= j < |log| ensures InPace(p, log + [e], j) {
      InPaceSettled(p, log, e, j);
    }
  }

  /** Counting from `healthySince` is counting from the first check of the unbroken span. */
  lemma SinceIsSpan(log: seq<Event>, since: Option<int>, now: int, reset: bool, span: int)
    requires span > 0 && FirstOfSpan(log, since) && Ordered(log, now)
    requires reset == (since.Some? && now - since.value >= span)
    ensures SteadyFor(log + [Watched(now, reset)], |log|, span) == reset
    ensures FirstOfSpan(log + [Watched(now, reset)], if since.None? then Some(now) else since)
  {
    var more, n := log + [Watched(now, reset)], |log|;
    assert more[n].at == now && forall k :: 0 <= k < n ==> more[k] == log[k];
    if since.Some? {
      var first :| 0 <= first < n && Steady(log, first, n - 1) && log[first].at == since.value && (first > 0 ==> !log[first - 1].Watched?);
      assert Steady(more, first, n) && more[first].at == since.value && (first > 0 ==> !more[first - 1].Watched?);
      if i :| 0 <= i <= n && Steady(more, i, n) && more[n].at - more[i].at >= span {
        assert i >= first;
      }
    } else {
      assert n > 0 ==> !more[n - 1].Watched?;
      assert Steady(more, n, n);
    }
  }

  lemma OrderedGrows(log: seq<Event>, now: int, e: Event, later: int)
    requires Ordered(log, now) && now <= later
    requires e.Watched? ==> e.at == now
    requires e.Reopened? ==> e.done + e.wait <= later
    ensures Ordered(log + [e], later)
  {
    assert forall k :: 0 <= k < |log| ==> (log + [e])[k] == log[k];
  }

  lemma WatchKeepsPace(p: Pacing, log: seq<Event>, since: Option<int>, now: int, reset: bool, backoff: int)
    requires Sound(p) && Paced(p, log) && FirstOfSpan(log, since) && Ordered(log, now)
    requires backoff == Min(p.base * Pow2(Attempts(log)), p.max)
    requires reset == (since.Some? && now - since.value >= p.max)
    ensures var more := log + [Watched(now, reset)];
      && Paced(p, more) && FirstOfSpan(more, if since.None? then Some(now) else since)
      && (if reset then p.base else backoff) == Min(p.base * Pow2(Attempts(more)), p.max)
  {
    var e := Watched(now, reset);
    SinceIsSpan(log, since, now, reset, p.max);
    PacedGrows(p, log, e);
    assert (log + [e])[..|log|] == log;
  }

  /** The doubling loop computes min(base * 2^k, max). */
  lemma DoublingStep(p: Pacing, k: nat, backoff: int)
    requires Sound(p) && backoff == Min(p.base * Pow2(k), p.max)
    ensures Doubled(p, backoff) == Min(p.base * Pow2(k + 1), p.max)
  {
    assert p.base * Pow2(k + 1) == 2 * (p.base * Pow2(k));
  }

  lemma LostKeepsPace(p: Pacing, log: seq<Event>, seen: int)
    requires Paced(p, log)
    ensures Paced(p, log + [Lost(seen)]) && Attempts(log + [Lost(seen)]) == Attempts(log)
  {
    PacedGrows(p, log, Lost(seen));
    assert (log + [Lost(seen)])[..|log|] == log;
  }

  lemma ReopenKeepsPace(p: Pacing, log: seq<Event>, now: int, took: nat, ok: bool, backoff: int)
    requires Sound(p) && Paced(p, log) && Ordered(log, now) && backoff == Min(p.base * Pow2(Attempts(log)), p.max)
    ensures var more := log + [Reopened(now, now + took, ok, backoff)];
      && Paced(p, more) && FirstOfSpan(more, None)
      && Doubled(p, backoff) == Min(p.base * Pow2(Attempts(more)), p.max)
  {
    var e := Reopened(now, now + took, ok, backoff);
    assert (log + [e])[..|log|] == log;
    assert InPace(p, log + [e], |log|);
    PacedGrows(p, log, e);
    DoublingStep(p, Attempts(log), backoff);
  }

  lemma BackoffPositive(p: Pacing, k: nat)
    requires Sound(p)
    ensures Min(p.base * Pow2(k), p.max) > 0
  {
    assert Pow2(k) >= 1;
    assert p.base * Pow2(k) >= p.base;
  }

  lemma LossStaysReopened(log: seq<Event>, lost: seq<Event>, e: Event)
    requires LossIsReopened(log) && (lost == [] || (|lost| == 1 && e.Reopened?)) && !e.Lost?
    ensures LossIsReopened(log + lost + [e])
  {
    var more := log + lost + [e];
    assert forall k :: 0 <= k < |log| ==> more[k] == log[k];
  }

  lemma WatchTurnKeepsInv(p: Pacing, log: seq<Event>, backoff: int, since: Option<int>, now: int, later: int)
    requires Sound(p) && Inv(p, log, backoff, since, now) && now <= later
    ensures var first := if since.None? then now else since.value;
      var reset := now - first >= p.max;
      Inv(p, log + [Watched(now, reset)], if reset then p.base else backoff, Some(first), later)
  {
    var e := Watched(now, now - (if since.None? then now else since.value) >= p.max);
    WatchKeepsPace(p, log, since, now, e.reset, backoff);
    OrderedGrows(log, now, e, later);
    LossStaysReopened(log, [], e);
    assert log + [] + [e] == log + [e];
  }

  lemma ReopenTurnKeepsInv(p: Pacing, log: seq<Event>, lost: seq<Event>, backoff: int, since: Option<int>, now: int, took: nat, ok: bool, later: int)
    requires Sound(p) && Inv(p, log, backoff, since, now) && later >= now + took + backoff
    requires lost == [] || lost == [Lost(now)]
    ensures Inv(p, log + lost + [Reopened(now, now + took, ok, backoff)], Doubled(p, backoff), None, later)
  {
    var e := Reopened(now, now + took, ok, backoff);
    if lost != [] {
      LostKeepsPace(p, log, now);
      OrderedGrows(log, now, Lost(now), now);
    } else {
      assert log + lost == log;
    }
    BackoffPositive(p, Attempts(log));
    ReopenKeepsPace(p, log + lost, now, took, ok, backoff);
    OrderedGrows(log + lost, now, e, later);
    LossStaysReopened(log, lost, e);
  }

  lemma WatchStepKeepsInv(p: Pacing, b: Bench, later: int)
    requires Sound(p) && BenchInv(p, b) && b.Faced().healthy && b.now <= later
    ensures BenchInv(p, WatchedOnce(p, b.Faced()).(now := later))
  {
    WatchTurnKeepsInv(p, b.log, b.backoff, b.healthySince, b.now, later);
    assert b.Faced().log == b.log;
  }

  lemma ReopenStepKeepsInv(p: Pacing, b: Bench, later: int)
    requires Sound(p) && BenchInv(p, b) && !b.Faced().healthy && b.now + b.Next().took + b.backoff <= later
    ensures BenchInv(p, ReopenedOnce(b.Next().took, b.Faced()).(now := later, backoff := Doubled(p, b.backoff)))
  {
    var lost := if b.healthy && b.Next().lost then [Lost(b.now)] else [];
    assert b.Faced().log == b.log + lost;
    ReopenTurnKeepsInv(p, b.log, lost, b.backoff, b.healthySince, b.now, b.Next().took, b.Opens(), later);
  }

  lemma StepKeepsInv(p: Pacing, ctx: Ctx, b: Bench)
    requires Sound(p) && BenchInv(p, b)
    ensures match StepSupervise(p, ctx, b)
      case Stopped(end) => Paced(p, end.log) && LossIsReopened(end.log)
      case Turned(next, _) => BenchInv(p, next)
  {
    if b.Faced().healthy {
      WatchStepKeepsInv(p, b, b.now + p.interval + b.Next().late);
    } else {
      ReopenStepKeepsInv(p, b, b.now + b.Next().took + b.backoff + b.Next().late);
    }
  }

  lemma {:induction false} InvKept(p: Pacing, ctx: Ctx, b: Bench)
    requires Sound(p) && ctx.CancelledIn? && BenchInv(p, b)
    ensures Paced(p, SuperviseFrom(p, ctx, b).log) && LossIsReopened(SuperviseFrom(p, ctx, b).log)
    decreases ctx.checks
  {
    var t := StepSupervise(p, ctx, b);
    SuperviseUnfolds(p, ctx, b, t);
    StepKeepsInv(p, ctx, b);
    if t.Turned? {
      InvKept(p, t.ctx, t.bench);
    }
  }

  /** Reopening keeps its pace over every run of `Supervise`, whatever happens to the port and
      for however long. */
  lemma SupervisePaced(p: Pacing, ctx: Ctx, b: Bench)
    requires Sound(p) && ctx.CancelledIn? && b.log == [] && b.backoff == p.base && b.healthySince == None
    ensures Paced(p, SuperviseFrom(p, ctx, b).log) && LossIsReopened(SuperviseFrom(p, ctx, b).log)
  {
    assert p.base * Pow2(0) == p.base;
    InvKept(p, ctx, b);
  }

  // ---- vigilance -------------------------------------------------------------------

  function Start(e: Event): int {
    match e
    case Watched(at, _) => at
    case Lost(seen) => seen
    case Reopened(start, _, _, _) => start
  }

  /** When the supervisor is due again after this event. */
  function NextDue(p: Pacing, e: Event): int {
    match e
    case Watched(at, _) => at + p.interval
    case Lost(seen) => seen
    case Reopened(_, done, _, wait) => done + wait
  }

  /** The port is unhealthy when the i-th event comes: it was from the start, it lost its health,
      or the last reopen failed. */
  predicate Down(healthy: bool, log: seq<Event>, i: nat)
    requires i <= |log|
  {
    if i == 0 then !healthy else log[i - 1].Lost? || (log[i - 1].Reopened? && !log[i - 1].ok)
  }

  /** An unhealthy port is reopened next, and no other is. */
  predicate Answered(healthy: bool, log: seq<Event>, i: nat)
    requires i < |log|
  {
    log[i].Reopened? <==> Down(healthy, log, i)
  }

  /** The supervisor comes back when it is due, or later if timers fire late. */
  predicate ComesBack(p: Pacing, punctual: bool, due: int, at: int) { due <= at && (punctual ==> at == due) }

  ghost predicate Vigilant(p: Pacing, healthy: bool, punctual: bool, log: seq<Event>) {
    && (forall i :: 0 <= i < |log| ==> Answered(healthy, log, i))
    && (forall i :: 0 < i < |log| ==> ComesBack(p, punctual, NextDue(p, log[i - 1]), Start(log[i])))
  }

  predicate Punctual(moments: seq<Moment>) { forall i :: 0 <= i < |moments| ==> moments[i].late == 0 }

  ghost predicate OnWatch(p: Pacing, healthy: bool, punctual: bool, b: Bench) {
    && Vigilant(p, healthy, punctual, b.log) && b.healthy == !Down(healthy, b.log, |b.log|) && (punctual ==> Punctual(b.moments))
    && (b.log != [] ==> ComesBack(p, punctual, NextDue(p, b.log[|b.log| - 1]), b.now))
  }

  lemma VigilantGrows(p: Pacing, healthy: bool, punctual: bool, log: seq<Event>, e: Event)
    requires Vigilant(p, healthy, punctual, log) && (e.Reopened? <==> Down(healthy, log, |log|))
    requires log != [] ==> ComesBack(p, punctual, NextDue(p, log[|log| - 1]), Start(e))
    ensures Vigilant(p, healthy, punctual, log + [e])
  {
    var more := log + [e];
    assert forall k :: 0 <= k < |log| ==> more[k] == log[k];
    forall i | 0 <= i < |more| ensures Answered(healthy, more, i) {
      if i < |log| {
        assert Answered(healthy, log, i);
      }
    }
  }

  /** After one more event, and the wait that follows it. */
  lemma WatchGoesOn(p: Pacing, healthy: bool, punctual: bool, b: Bench, e: Event, c: Bench)
    requires OnWatch(p, healthy, punctual, b) && (e.Reopened? <==> !b.healthy) && Start(e) == b.now
    requires c.log == b.log + [e] && (punctual ==> Punctual(c.moments)) && ComesBack(p, punctual, NextDue(p, e), c.now)
    requires c.healthy == !(e.Lost? || (e.Reopened? && !e.ok))
    ensures OnWatch(p, healthy, punctual, c)
  {
    VigilantGrows(p, healthy, punctual, b.log, e);
  }

  lemma FacedOnWatch(p: Pacing, healthy: bool, punctual: bool, b: Bench)
    requires OnWatch(p, healthy, punctual, b)
    ensures OnWatch(p, healthy, punctual, b.Faced()) && (punctual ==> b.Next().late == 0)
  {
    var f := b.Faced();
    if b.healthy && b.Next().lost {
      WatchGoesOn(p, healthy, punctual, b, Lost(b.now), f);
    }
  }

  lemma StepOnWatch(p: Pacing, ctx: Ctx, healthy: bool, punctual: bool, b: Bench)
    requires OnWatch(p, healthy, punctual, b)
    ensures match StepSupervise(p, ctx, b)
      case Stopped(end) => Vigilant(p, healthy, punctual, end.log)
      case Turned(next, _) => OnWatch(p, healthy, punctual, next)
  {
    var f, late := b.Faced(), b.Next().late;
    FacedOnWatch(p, healthy, punctual, b);
    hide Vigilant;
    if f.healthy {
      var w := WatchedOnce(p, f);
      WatchGoesOn(p, healthy, punctual, f, w.log[|f.log|], w.(now := w.now + p.interval + late));
    } else {
      var r := ReopenedOnce(b.Next().took, f);
      WatchGoesOn(p, healthy, punctual, f, r.log[|f.log|], r.(now := r.now + r.backoff + late, backoff := Doubled(p, r.backoff)));
    }
  }

  /** How many turns were made. */
  function Turns(log: seq<Event>): nat {
    if log == [] then 0 else Turns(log[..|log| - 1]) + if log[|log| - 1].Lost? then 0 else 1
  }

  lemma StepIsOneTurn(p: Pacing, ctx: Ctx, b: Bench)
    ensures match StepSupervise(p, ctx, b)
      case Stopped(end) => Turns(end.log) == Turns(b.log) + if ctx.Done() then 0 else 1
      case Turned(next, _) => Turns(next.log) == Turns(b.log) + 1
  {
    var f := b.Faced();
    assert Turns(f.log) == Turns(b.log) by {
      assert (b.log + [Lost(b.now)])[..|b.log|] == b.log;
    }
    assert forall e: Event :: (f.log + [e])[..|f.log|] == f.log;
  }

  lemma {:induction false} VigilKept(p: Pacing, ctx: Ctx, healthy: bool, punctual: bool, b: Bench)
    requires ctx.CancelledIn? && OnWatch(p, healthy, punctual, b)
    ensures var end := SuperviseFrom(p, ctx, b);
      Vigilant(p, healthy, punctual, end.log) && Turns(end.log) == Turns(b.log) + (ctx.checks + 1) / 2
    decreases ctx.checks
  {
    hide OnWatch, Vigilant, StepSupervise, Turns;
    var t := StepSupervise(p, ctx, b);
    TurnChecks(p, ctx, b);
    SuperviseUnfolds(p, ctx, b, t);
    StepOnWatch(p, ctx, healthy, punctual, b);
    StepIsOneTurn(p, ctx, b);
    if t.Turned? {
      VigilKept(p, t.ctx, healthy, punctual, t.bench);
    }
  }

  /** A turn checks the context twice, and goes on only if it was live both times. */
  lemma TurnChecks(p: Pacing, ctx: Ctx, b: Bench)
    requires ctx.CancelledIn?
    ensures match StepSupervise(p, ctx, b)
      case Stopped(_) => ctx.checks < 2
      case Turned(_, left) => left == CancelledIn(ctx.checks - 2)
  {
  }

  /** Vigilance, over every run: whenever a turn finds the port unhealthy, a failed reopen
      included, the next event is a reopen, and nothing else is ever reopened; the supervisor comes
      back when its interval or its hold-off is over, exactly then if its timers are punctual; and
      it makes a turn for every two checks that find its context live. */
  lemma SuperviseVigilant(p: Pacing, ctx: Ctx, b: Bench)
    requires ctx.CancelledIn? && b.log == []
    ensures var log := SuperviseFrom(p, ctx, b).log;
      Vigilant(p, b.healthy, Punctual(b.moments), log) && Turns(log) == (ctx.checks + 1) / 2
  {
    VigilKept(p, ctx, b.healthy, Punctual(b.moments), b);
  }

  // ---- the program -----------------------------------------------------------------

  class PacingConfig {
    var pacing: Pacing

    constructor (pacing: Pacing)
      ensures this.pacing == pacing
    {
      this.pacing := pacing;
    }

    method ApplyDefaults()
      modifies this
      ensures pacing == PacingDefaults(old(pacing)) && Sound(pacing)
    {
      if pacing.base <= 0 { pacing := pacing.(base := 500 * MS); }
      if pacing.max < pacing.base { pacing := pacing.(max := Max(30 * SECOND, pacing.base)); }
      if pacing.interval <= 0 { pacing := pacing.(interval := SECOND); }
    }
  }

  class Supervision {
    const port: SerialPort
    const pacing: Pacing
    var now: int
    var moments: seq<Moment>
    ghost var log: seq<Event>

    constructor (port: SerialPort, pacing: Pacing, now: int, moments: seq<Moment>)
      ensures this.port == port && this.pacing == pacing && this.now == now && this.moments == moments && log == []
    {
      this.port, this.pacing, this.now, this.moments, log := port, pacing, now, moments, [];
    }

    ghost function Facing(backoff: int, healthySince: Option<int>): Bench
      reads this, port
    {
      Bench(now, backoff, healthySince, port.IsHealthy(), port.openings, moments, log)
    }

    /** What transactions do to the port since the last turn. */
    method Face(ghost backoff: int, ghost since: Option<int>) returns (m: Moment)
      modifies this`moments, this`log, port`healthy
      ensures m == old(Facing(backoff, since)).Next() && Facing(backoff, since) == old(Facing(backoff, since)).Faced()
      ensures port.healthy ==> old(port.healthy)
    {
      m := QUIET;
      if moments != [] {
        m, moments := moments[0], moments[1..];
      }
      if m.lost {
        log := if port.IsHealthy() then log + [Lost(now)] else log;
        port.MarkUnhealthy();
      }
    }

    method Watch(backoff: int, since: Option<int>) returns (nextBackoff: int, healthySince: Option<int>)
      modifies this`log
      ensures Facing(nextBackoff, healthySince) == WatchedOnce(pacing, old(Facing(backoff, since)))
    {
      nextBackoff, healthySince := backoff, since;
      if healthySince.None? {
        healthySince := Some(now);
      }
      var reset := now - healthySince.value >= pacing.max;
      if reset {
        nextBackoff := pacing.base;
      }
      log := log + [Watched(now, reset)];
    }

    method ReopenAfter(took: nat, backoff: int, ghost since: Option<int>)
      requires port.Valid()
      modifies this`log, this`now, port
      ensures port.Valid() && Facing(backoff, None) == ReopenedOnce(took, old(Facing(backoff, since)))
    {
      var ok := port.Reopen();
      log := log + [Reopened(now, now + took, ok, backoff)];
      now := now + took;
    }

    /** The body of the loop: with `None` the loop ends. */
    method TurnOnce(ctx: Ctx, backoff: int, since: Option<int>) returns (left: Option<Ctx>, nextBackoff: int, healthySince: Option<int>)
      requires port.Valid()
      modifies this`moments, this`log, this`now, port
      ensures port.Valid()
      ensures (match left
               case None => Stopped(Facing(nextBackoff, healthySince))
               case Some(c) => Turned(Facing(nextBackoff, healthySince), c)) == StepSupervise(pacing, ctx, old(Facing(backoff, since)))
    {
      left, nextBackoff, healthySince := None, backoff, since;
      if ctx.Done() {
        return;
      }
      var m := Face(backoff, since);
      if port.IsHealthy() {
        nextBackoff, healthySince := Watch(backoff, since);
        if ctx.Checked().Done() {
          return;
        }
        now := now + pacing.interval + m.late;
      } else {
        healthySince := None;
        ReopenAfter(m.took, backoff, since);
        if ctx.Checked().Done() {
          return;
        }
        now := now + nextBackoff + m.late;
        nextBackoff := nextBackoff * 2;
        if nextBackoff > pacing.max {
          nextBackoff := pacing.max;
        }
      }
      left := Some(ctx.Checked().Checked());
    }

    /** `Supervise`, for as long as the context lives. */
    method Supervise(ctx: Ctx)
      requires ctx.CancelledIn? && port.Valid()
      modifies this`moments, this`log, this`now, port
      ensures exists backoff, since :: Facing(backoff, since) == SuperviseFrom(pacing, ctx, old(Facing(pacing.base, None)))
    {
      var backoff, healthySince, left := pacing.base, None, ctx;
      while true
        invariant left.CancelledIn? && port.Valid()
        invariant SuperviseFrom(pacing, left, Facing(backoff, healthySince)) == SuperviseFrom(pacing, ctx, old(Facing(pacing.base, None)))
        decreases left.checks
      {
        ghost var turn := StepSupervise(pacing, left, Facing(backoff, healthySince));
        SuperviseUnfolds(pacing, left, Facing(backoff, healthySince), turn);
        var next;
        next, backoff, healthySince := TurnOnce(left, backoff, healthySince);
        if next.None? {
          return;
        }
        left := next.value;
      }
    }
  }
}
