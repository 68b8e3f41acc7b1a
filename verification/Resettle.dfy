/** `internal/registers/resettle.go`: the second read-back a while after a write. The pending
    map, and the protocol of the command worker with the settle runner around its one-slot
    wake token. */
module Resettle {
  import opened Basics

  datatype Entry = Entry(name: string, number: nat, due: int)

  // ---- the pending map -------------------------------------------------------------

  predicate Ready(e: Entry, now: int) { e.due <= now }

  /** What `due` leaves behind. */
  function Waiting(pending: map<string, Entry>, now: int): map<string, Entry> {
    map name | name in pending && !Ready(pending[name], now) :: pending[name]
  }

  /** `due` returned these entries: each ready one once, in whatever order. */
  ghost predicate Collects(ready: seq<Entry>, pending: map<string, Entry>, now: int) {
    && (forall i, j :: 0 <= i < j < |ready| ==> ready[i] != ready[j])
    && (forall e :: e in ready <==> exists name :: name in pending && pending[name] == e && Ready(e, now))
  }

  /** The wait until the first of these entries is due; 0 when there is none. */
  ghost predicate FirstWait(next: int, waiting: map<string, Entry>, now: int) {
    if waiting == map[] then next == 0
    else
      && next > 0
      && (forall name :: name in waiting ==> next <= waiting[name].due - now)
      && (exists name :: name in waiting && next == waiting[name].due - now)
  }

  /** Every entry is filed under its own name. */
  ghost predicate Filed(pending: map<string, Entry>) {
    forall name :: name in pending ==> pending[name].name == name
  }

  lemma FirstWaitGrows(next: int, waiting: map<string, Entry>, name: string, entry: Entry, now: int)
    requires FirstWait(next, waiting, now) && name !in waiting && !Ready(entry, now)
    ensures FirstWait(if next == 0 || entry.due - now < next then entry.due - now else next, waiting[name := entry], now)
  {
    var more := waiting[name := entry];
    var least := if next == 0 || entry.due - now < next then entry.due - now else next;
    assert name in more;
    if waiting != map[] {
      var first :| first in waiting && next == waiting[first].due - now;
      assert first in more && more[first] == waiting[first];
    }
    assert exists n :: n in more && least == more[n].due - now by {
      if least == entry.due - now {
        assert more[name] == entry;
      }
    }
  }

  lemma CollectsGrows(ready: seq<Entry>, seen: map<string, Entry>, name: string, entry: Entry, now: int)
    requires Collects(ready, seen, now) && Filed(seen) && name !in seen && entry.name == name
    ensures Collects(if Ready(entry, now) then ready + [entry] else ready, seen[name := entry], now)
  {
    var more := seen[name := entry];
    var all := if Ready(entry, now) then ready + [entry] else ready;
    forall e ensures e in all <==> exists n :: n in more && more[n] == e && Ready(e, now) {
      if e in ready {
        var n :| n in seen && seen[n] == e && Ready(e, now);
        assert more[n] == e;
      }
      if e == entry {
        assert more[name] == e;
      }
    }
  }

  /** One turn of the loop of `due`. */
  lemma SeenGrows(ready: seq<Entry>, next: int, seen: map<string, Entry>, name: string, entry: Entry, now: int)
    requires Collects(ready, seen, now) && FirstWait(next, Waiting(seen, now), now)
    requires Filed(seen) && name !in seen && entry.name == name
    ensures Collects(if Ready(entry, now) then ready + [entry] else ready, seen[name := entry], now)
    ensures Waiting(seen[name := entry], now) == if Ready(entry, now) then Waiting(seen, now) else Waiting(seen, now)[name := entry]
    ensures FirstWait(if Ready(entry, now) then next else if next == 0 || entry.due - now < next then entry.due - now else next,
                      Waiting(seen[name := entry], now), now)
  {
    CollectsGrows(ready, seen, name, entry, now);
    assert Waiting(seen[name := entry], now) == if Ready(entry, now) then Waiting(seen, now) else Waiting(seen, now)[name := entry];
    if !Ready(entry, now) {
      FirstWaitGrows(next, Waiting(seen, now), name, entry, now);
    }
  }

  /** `due` in the middle of its loop: `seen` is done and `rest` is to come. */
  ghost predicate Midway(all: map<string, Entry>, rest: map<string, Entry>, seen: map<string, Entry>,
                         pending: map<string, Entry>, ready: seq<Entry>, next: int, now: int) {
    && Filed(all) && all == rest + seen && rest.Keys !! seen.Keys
    && pending == rest + Waiting(seen, now)
    && Collects(ready, seen, now) && FirstWait(next, Waiting(seen, now), now)
  }

  lemma MapsTurn(rest: map<string, Entry>, seen: map<string, Entry>, name: string, now: int)
    requires name in rest && rest.Keys !! seen.Keys
    ensures (rest - {name}).Keys < rest.Keys && (rest - {name}).Keys !! seen[name := rest[name]].Keys
    ensures (rest - {name}) + seen[name := rest[name]] == rest + seen
    ensures var pending := rest + Waiting(seen, now);
      (if Ready(rest[name], now) then pending - {name} else pending) == (rest - {name}) + Waiting(seen[name := rest[name]], now)
  {
    var more := seen[name := rest[name]];
    assert Waiting(more, now) == if Ready(rest[name], now) then Waiting(seen, now) else Waiting(seen, now)[name := rest[name]];
    assert Waiting(seen, now).Keys <= seen.Keys;
  }

  lemma Turn(all: map<string, Entry>, rest: map<string, Entry>, seen: map<string, Entry>, pending: map<string, Entry>,
             ready: seq<Entry>, next: int, name: string, now: int)
    requires Midway(all, rest, seen, pending, ready, next, now) && name in rest
    ensures (rest - {name}).Keys < rest.Keys
    ensures var entry := rest[name];
      Midway(all, rest - {name}, seen[name := entry],
             if Ready(entry, now) then pending - {name} else pending,
             if Ready(entry, now) then ready + [entry] else ready,
             if Ready(entry, now) then next else if next == 0 || entry.due - now < next then entry.due - now else next, now)
  {
    MapsTurn(rest, seen, name, now);
    assert all[name] == rest[name] && forall n :: n in seen ==> n in all && all[n] == seen[n];
    SeenGrows(ready, next, seen, name, rest[name], now);
  }

  class Resettler {
    const delay: int
    var pending: map<string, Entry>
    /** The one-slot wake channel holds a token. */
    var wake: bool

    constructor (delay: int)
      ensures this.delay == delay && pending == map[] && !wake
    {
      this.delay, pending, wake := delay, map[], false;
    }

    /** `schedule`. Its two parts are two steps of the protocol below. */
    method Schedule(name: string, number: nat, now: int)
      modifies this
      ensures delay <= 0 ==> pending == old(pending) && wake == old(wake)
      ensures delay > 0 ==> pending == old(pending)[name := Entry(name, number, now + delay)] && wake
    {
      if delay <= 0 {
        return;
      }
      pending := pending[name := Entry(name, number, now + delay)];
      wake := true;
    }

    /** `due`: takes out what is ready, in the map's own order, and finds the next wait. */
    method Due(now: int) returns (ready: seq<Entry>, next: int)
      requires Filed(pending)
      modifies this`pending
      ensures pending == Waiting(old(pending), now)
      ensures Collects(ready, old(pending), now)
      ensures FirstWait(next, pending, now)
    {
      ready, next := [], 0;
      var rest := pending;
      ghost var seen: map<string, Entry> := map[];
      assert rest + seen == pending && Waiting(seen, now) == map[];
      while rest != map[]
        invariant Midway(old(pending), rest, seen, pending, ready, next, now)
        decreases rest.Keys
      {
        var name :| name in rest;
        var entry := rest[name];
        Turn(old(pending), rest, seen, pending, ready, next, name, now);
        if Ready(entry, now) {
          ready, pending := ready + [entry], pending - {name};
        } else {
          var wait := entry.due - now;
          if next == 0 || wait < next {
            next := wait;
          }
        }
        rest, seen := rest - {name}, seen[name := entry];
      }
      assert rest + seen == seen;
      assert pending == Waiting(seen, now);
    }
  }

  // ---- the protocol ----------------------------------------------------------------

  // It is for a positive delay: with none, `schedule` files nothing and the runner only waits
  // for shutdown.

  /** The single command worker. `Waking`: between the locked section of `schedule` and its
      wake signal. */
  datatype Worker = Idle | Commanding(name: string, number: nat) | Waking

  /** The single settle runner: about to call `due`, working through what it returned at some
      time, or parked, with or without a timer, some time after it had called `due`. */
  datatype Runner = Collecting | Refreshing(ready: seq<Entry>, next: Option<int>, at: int) | Parked(timer: Option<int>, lag: int)

  /** One refresh that was started, and when. */
  datatype Refreshed = Refreshed(entry: Entry, at: int)

  /** One command that was over, and when its re-read was filed. */
  datatype Filing = Filing(name: string, number: nat, at: int)

  datatype State = State(now: int, accepted: map<string, nat>, pending: map<string, Entry>, wake: bool,
                         worker: Worker, runner: Runner, refreshed: set<Refreshed>, filed: set<Filing>)

  datatype Step =
    | Tick(d: nat)
    | Accept(name: string)
    | File
    | Signal
    | Collect(order: seq<Entry>, next: int)
    | Refresh
    | Park
    | TakeWake
    | Fire

  const START := State(0, map[], map[], false, Idle, Collecting, {}, {})

  /** s can take this step. */
  ghost predicate Enabled(s: State, step: Step) {
    match step
    case Tick(_) => true
    case Accept(_) => s.worker.Idle?
    case File => s.worker.Commanding?
    case Signal => s.worker.Waking?
    case Collect(order, next) => s.runner.Collecting? && Collects(order, s.pending, s.now) && FirstWait(next, Waiting(s.pending, s.now), s.now)
    case Refresh => s.runner.Refreshing? && s.runner.ready != []
    case Park => s.runner.Refreshing? && s.runner.ready == []
    case TakeWake => s.runner.Parked? && s.wake
    case Fire => s.runner.Parked? && s.runner.timer.Some? && s.runner.timer.value <= s.now
  }

  /** One atomic step: a clock tick, a part of a command, or a part of the runner's loop. A
      step that is not enabled changes nothing. */
  ghost function Apply(delay: nat, s: State, step: Step): State {
    if !Enabled(s, step) then s
    else
      match step
      case Tick(d) => s.(now := s.now + d)
      case Accept(name) =>
        var n := Count(s.accepted, name) + 1;
        s.(accepted := s.accepted[name := n], worker := Commanding(name, n))
      case File =>
        s.(pending := s.pending[s.worker.name := Entry(s.worker.name, s.worker.number, s.now + delay)], worker := Waking,
           filed := s.filed + {Filing(s.worker.name, s.worker.number, s.now)})
      case Signal => s.(wake := true, worker := Idle)
      case Collect(order, next) =>
        s.(pending := Waiting(s.pending, s.now), runner := Refreshing(order, if next == 0 then None else Some(next), s.now))
      case Refresh =>
        s.(refreshed := s.refreshed + {Refreshed(s.runner.ready[0], s.now)}, runner := s.runner.(ready := s.runner.ready[1..]))
      case Park => s.(runner := Parked(if s.runner.next.Some? then Some(s.now + s.runner.next.value) else None, s.now - s.runner.at))
      case TakeWake => s.(wake := false, runner := Collecting)
      case Fire => s.(runner := Collecting)
  }

  /** Any interleaving. */
  ghost function Run(delay: nat, steps: seq<Step>): State {
    if steps == [] then START else Apply(delay, Run(delay, steps[..|steps| - 1]), steps[|steps| - 1])
  }

  // ---- invariants ------------------------------------------------------------------

  /** The re-read of this command is pending, collected or started. */
  ghost predicate Covered(s: State, name: string, number: nat) {
    || (name in s.pending && s.pending[name].number == number)
    || (s.runner.Refreshing? && exists e :: e in s.runner.ready && e.name == name && e.number == number)
    || (exists r :: r in s.refreshed && r.entry.name == name && r.entry.number == number)
  }

  /** The command worker is still at the newest command for this register. */
  predicate InProgress(s: State, name: string) { s.worker.Commanding? && s.worker.name == name }

  /** The runner has decided to park, or is parked, without a timer. */
  predicate NoTimer(s: State) { (s.runner.Refreshing? && s.runner.next.None?) || (s.runner.Parked? && s.runner.timer.None?) }

  ghost predicate Inv(s: State) {
    && Filed(s.pending)
    && (s.worker.Commanding? ==> s.worker.number == Count(s.accepted, s.worker.name))
    && (forall name :: Count(s.accepted, name) > 0 && !InProgress(s, name) ==> Covered(s, name, Count(s.accepted, name)))
    && (NoTimer(s) ==> s.pending == map[] || s.wake || s.worker.Waking?)
    && (s.runner.Refreshing? ==> forall e :: e in s.runner.ready ==> e.due <= s.now)
    && (forall r :: r in s.refreshed ==> r.entry.due <= r.at)
  }

  lemma CoveredStays(s: State, t: State, name: string, number: nat)
    requires Covered(s, name, number)
    requires name in s.pending ==> name in t.pending && t.pending[name] == s.pending[name]
    requires s.runner.Refreshing? ==> t.runner.Refreshing? && forall e :: e in s.runner.ready ==> e in t.runner.ready
    requires s.refreshed <= t.refreshed
    ensures Covered(t, name, number)
  {
  }

  lemma AcceptKeepsInv(delay: nat, s: State, name: string)
    requires Inv(s) && s.worker.Idle?
    ensures Inv(Apply(delay, s, Accept(name)))
  {
    var t := Apply(delay, s, Accept(name));
    forall other | Count(t.accepted, other) > 0 && !InProgress(t, other) ensures Covered(t, other, Count(t.accepted, other)) {
      CoveredStays(s, t, other, Count(s.accepted, other));
    }
  }

  lemma FileKeepsInv(delay: nat, s: State)
    requires Inv(s) && s.worker.Commanding?
    ensures Inv(Apply(delay, s, File))
  {
    var t := Apply(delay, s, File);
    forall other | Count(t.accepted, other) > 0 && !InProgress(t, other) ensures Covered(t, other, Count(t.accepted, other)) {
      if other != s.worker.name {
        CoveredStays(s, t, other, Count(s.accepted, other));
      }
    }
  }

  lemma CollectKeepsInv(delay: nat, s: State, order: seq<Entry>, next: int)
    requires Inv(s) && Enabled(s, Collect(order, next))
    ensures Inv(Apply(delay, s, Collect(order, next)))
  {
    var t := Apply(delay, s, Collect(order, next));
    forall name | Count(t.accepted, name) > 0 && !InProgress(t, name) ensures Covered(t, name, Count(t.accepted, name)) {
      assert Covered(s, name, Count(s.accepted, name));
      if name in s.pending && s.pending[name].number == Count(s.accepted, name) {
        if Ready(s.pending[name], s.now) {
          assert s.pending[name] in order;
        } else {
          assert t.pending[name] == s.pending[name];
        }
      }
    }
  }

  lemma RefreshKeepsInv(delay: nat, s: State)
    requires Inv(s) && Enabled(s, Refresh)
    ensures Inv(Apply(delay, s, Refresh))
  {
    var t := Apply(delay, s, Refresh);
    var first := Refreshed(s.runner.ready[0], s.now);
    assert first in t.refreshed;
    assert s.runner.ready == [first.entry] + t.runner.ready;
    forall name | Count(t.accepted, name) > 0 && !InProgress(t, name) ensures Covered(t, name, Count(t.accepted, name)) {
      var n := Count(s.accepted, name);
      assert Covered(s, name, n);
      if e :| e in s.runner.ready && e.name == name && e.number == n {
        assert e == first.entry || e in t.runner.ready;
      }
    }
  }

  lemma OtherStepKeepsInv(delay: nat, s: State, step: Step)
    requires Inv(s) && Enabled(s, step) && (step.Tick? || step.Signal? || step.Park? || step.TakeWake? || step.Fire?)
    ensures Inv(Apply(delay, s, step))
  {
    var t := Apply(delay, s, step);
    forall name | Count(t.accepted, name) > 0 && !InProgress(t, name) ensures Covered(t, name, Count(t.accepted, name)) {
      assert Covered(s, name, Count(s.accepted, name));
    }
  }

  lemma {:induction false} InvHolds(delay: nat, steps: seq<Step>)
    ensures Inv(Run(delay, steps))
  {
    if steps != [] {
      var s, step := Run(delay, steps[..|steps| - 1]), steps[|steps| - 1];
      InvHolds(delay, steps[..|steps| - 1]);
      if Enabled(s, step) {
        match step
        case Accept(name) => AcceptKeepsInv(delay, s, name);
        case File => FileKeepsInv(delay, s);
        case Collect(order, next) => CollectKeepsInv(delay, s, order, next);
        case Refresh => RefreshKeepsInv(delay, s);
        case _ => OtherStepKeepsInv(delay, s, step);
      }
    }
  }

  /** When entries fall due: a delay after they were filed; and what the runner waits for. */
  ghost predicate Timely(delay: nat, s: State) {
    && (forall name :: name in s.pending ==> WasFiled(delay, s, s.pending[name]) && s.pending[name].due <= s.now + delay)
    && (forall r :: r in s.refreshed ==> WasFiled(delay, s, r.entry))
    && match s.runner
       case Collecting => true
       case Refreshing(ready, next, at) =>
         && at <= s.now && (forall e :: e in ready ==> WasFiled(delay, s, e))
         && (next.Some? ==> next.value <= delay && forall name :: name in s.pending ==> at + next.value <= s.pending[name].due)
       case Parked(timer, lag) =>
         timer.Some? ==> timer.value - lag <= s.now + delay && forall name :: name in s.pending ==> timer.value <= s.pending[name].due + lag
  }

  predicate WasFiled(delay: nat, s: State, e: Entry) { Filing(e.name, e.number, e.due - delay) in s.filed }

  lemma FileIsTimely(delay: nat, s: State)
    requires Timely(delay, s) && s.worker.Commanding?
    ensures Timely(delay, Apply(delay, s, File))
  {
  }

  lemma CollectIsTimely(delay: nat, s: State, order: seq<Entry>, next: int)
    requires Timely(delay, s) && Enabled(s, Collect(order, next))
    ensures Timely(delay, Apply(delay, s, Collect(order, next)))
  {
    var t := Apply(delay, s, Collect(order, next));
    forall e | e in order ensures WasFiled(delay, t, e) {
      var name :| name in s.pending && s.pending[name] == e;
      assert WasFiled(delay, s, s.pending[name]);
    }
    if next != 0 {
      var first :| first in t.pending && next == t.pending[first].due - s.now;
      assert s.pending[first] == t.pending[first];
    }
  }

  lemma RefreshIsTimely(delay: nat, s: State)
    requires Timely(delay, s) && Enabled(s, Refresh)
    ensures Timely(delay, Apply(delay, s, Refresh))
  {
    var t, first := Apply(delay, s, Refresh), Refreshed(s.runner.ready[0], s.now);
    assert WasFiled(delay, s, first.entry);
    forall r | r in t.refreshed ensures WasFiled(delay, t, r.entry) {
      assert r == first || r in s.refreshed;
      assert WasFiled(delay, s, r.entry);
    }
    forall e | e in t.runner.ready ensures WasFiled(delay, t, e) {
      assert e in s.runner.ready && WasFiled(delay, s, e);
    }
  }

  lemma {:induction false} TimelyHolds(delay: nat, steps: seq<Step>)
    ensures Timely(delay, Run(delay, steps))
  {
    if steps != [] {
      var s, step := Run(delay, steps[..|steps| - 1]), steps[|steps| - 1];
      TimelyHolds(delay, steps[..|steps| - 1]);
      if Enabled(s, step) {
        match step
        case File => FileIsTimely(delay, s);
        case Collect(order, next) => CollectIsTimely(delay, s, order, next);
        case Refresh => RefreshIsTimely(delay, s);
        case _ => StaysTimely(delay, s, step);
      }
    }
  }

  lemma StaysTimely(delay: nat, s: State, step: Step)
    requires Timely(delay, s) && Enabled(s, step) && !step.File? && !step.Collect? && !step.Refresh?
    ensures Timely(delay, Apply(delay, s, step))
  {
  }

  /** Two entries for the same command. */
  predicate SameCommand(a: Entry, b: Entry) { a.name == b.name && a.number == b.number }

  /** This command has been over, or is. */
  predicate Over(s: State, e: Entry) { e.number < Count(s.accepted, e.name) || (e.number == Count(s.accepted, e.name) && !InProgress(s, e.name)) }

  /** Every command has at most one entry: pending, collected or started. */
  ghost predicate Once(s: State) {
    && (forall name :: name in s.pending ==> Over(s, s.pending[name]))
    && (forall r :: r in s.refreshed ==> Over(s, r.entry))
    && (forall r, q :: r in s.refreshed && q in s.refreshed && SameCommand(r.entry, q.entry) ==> r == q)
    && (forall name, r :: name in s.pending && r in s.refreshed ==> !SameCommand(s.pending[name], r.entry))
    && (s.runner.Refreshing? ==>
         var ready := s.runner.ready;
         && (forall i :: 0 <= i < |ready| ==> Over(s, ready[i]))
         && (forall i, j :: 0 <= i < j < |ready| ==> !SameCommand(ready[i], ready[j]))
         && (forall i, r :: 0 <= i < |ready| && r in s.refreshed ==> !SameCommand(ready[i], r.entry))
         && (forall i, name :: 0 <= i < |ready| && name in s.pending ==> !SameCommand(ready[i], s.pending[name])))
  }

  lemma FileKeepsOnce(delay: nat, s: State)
    requires Inv(s) && Once(s) && s.worker.Commanding?
    ensures Once(Apply(delay, s, File))
  {
    var t, e := Apply(delay, s, File), Entry(s.worker.name, s.worker.number, s.now + delay);
    assert forall a: Entry :: Over(s, a) ==> Over(t, a) && !SameCommand(a, e);
    assert Over(t, e);
  }

  lemma CollectKeepsOnce(delay: nat, s: State, order: seq<Entry>, next: int)
    requires Inv(s) && Once(s) && Enabled(s, Collect(order, next))
    ensures Once(Apply(delay, s, Collect(order, next)))
  {
    var t := Apply(delay, s, Collect(order, next));
    assert forall a: Entry :: Over(s, a) == Over(t, a);
    forall i | 0 <= i < |order| ensures order[i].name in s.pending && s.pending[order[i].name] == order[i] && order[i].name !in t.pending {
      assert order[i] in order;
      var name :| name in s.pending && s.pending[name] == order[i] && Ready(order[i], s.now);
      assert name == order[i].name;
    }
  }

  lemma RefreshKeepsOnce(delay: nat, s: State)
    requires Once(s) && Enabled(s, Refresh)
    ensures Once(Apply(delay, s, Refresh))
  {
    var t, first := Apply(delay, s, Refresh), s.runner.ready[0];
    assert forall a: Entry :: Over(s, a) == Over(t, a);
    assert forall i :: 0 <= i < |t.runner.ready| ==> t.runner.ready[i] == s.runner.ready[i + 1];
    assert forall r :: r in t.refreshed ==> r in s.refreshed || r == Refreshed(first, s.now);
  }

  lemma OtherStepKeepsOnce(delay: nat, s: State, step: Step)
    requires Once(s) && Enabled(s, step) && !step.File? && !step.Collect? && !step.Refresh?
    ensures Once(Apply(delay, s, step))
  {
    var t := Apply(delay, s, step);
    assert forall a: Entry :: Over(s, a) ==> Over(t, a);
  }

  lemma {:induction false} OnceHolds(delay: nat, steps: seq<Step>)
    ensures Once(Run(delay, steps))
  {
    if steps != [] {
      var s, step := Run(delay, steps[..|steps| - 1]), steps[|steps| - 1];
      OnceHolds(delay, steps[..|steps| - 1]);
      InvHolds(delay, steps[..|steps| - 1]);
      hide Once, Inv;
      if Enabled(s, step) {
        match step
        case File => FileKeepsOnce(delay, s);
        case Collect(order, next) => CollectKeepsOnce(delay, s, order, next);
        case Refresh => RefreshKeepsOnce(delay, s);
        case _ => OtherStepKeepsOnce(delay, s, step);
      }
    }
  }

  // ---- results ---------------------------------------------------------------------

  /** No settle re-read is lost: in every reachable state, once no command for a register is in
      progress, the re-read of its latest accepted command is pending, collected or started. */
  lemma NoRereadIsLost(delay: nat, steps: seq<Step>, name: string)
    requires Count(Run(delay, steps).accepted, name) > 0 && !InProgress(Run(delay, steps), name)
    ensures Covered(Run(delay, steps), name, Count(Run(delay, steps).accepted, name))
  {
    InvHolds(delay, steps);
  }

  /** The runner never sleeps on pending work without a timer, unless a wake token waits for it
      or a `schedule` is about to leave one. */
  lemma NeverParkedOnPendingWork(delay: nat, steps: seq<Step>)
    ensures var s := Run(delay, steps);
      s.pending != map[] && s.runner.Parked? && s.runner.timer.None? ==> s.wake || s.worker.Waking?
  {
    InvHolds(delay, steps);
  }

  /** `due` always has an answer. */
  lemma {:induction false} CanCollect(pending: map<string, Entry>, now: int) returns (order: seq<Entry>, next: int)
    requires Filed(pending)
    ensures Collects(order, pending, now) && FirstWait(next, Waiting(pending, now), now)
    decreases pending.Keys
  {
    if pending == map[] {
      order, next := [], 0;
    } else {
      var name :| name in pending;
      var rest, entry := pending - {name}, pending[name];
      order, next := CanCollect(rest, now);
      SeenGrows(order, next, rest, name, entry, now);
      assert rest[name := entry] == pending;
      if Ready(entry, now) {
        order := order + [entry];
      } else if next == 0 || entry.due - now < next {
        next := entry.due - now;
      }
    }
  }

  /** So while work is pending and no command is under way the runner can always go on, now or
      once its timer is due. */
  lemma PendingWorkGoesOn(delay: nat, steps: seq<Step>)
    requires Run(delay, steps).pending != map[] && Run(delay, steps).worker.Idle?
    ensures var s := Run(delay, steps);
      match s.runner
      case Collecting => exists order, next :: Enabled(s, Collect(order, next))
      case Refreshing(ready, _, _) => Enabled(s, if ready != [] then Refresh else Park)
      case Parked(timer, _) => Enabled(s, TakeWake) || (timer.Some? && Enabled(s.(now := Max(s.now, timer.value)), Fire))
  {
    InvHolds(delay, steps);
    var s := Run(delay, steps);
    var order, next := CanCollect(s.pending, s.now);
    if s.runner.Collecting? {
      assert Enabled(s, Collect(order, next));
    }
  }

  /** No re-read starts before it is due, a whole delay after its command was over. */
  lemma NoRereadIsEarly(delay: nat, steps: seq<Step>, r: Refreshed)
    requires r in Run(delay, steps).refreshed
    ensures r.entry.due <= r.at
    ensures exists f :: f in Run(delay, steps).filed && f.name == r.entry.name && f.number == r.entry.number && f.at + delay <= r.at
  {
    InvHolds(delay, steps);
    TimelyHolds(delay, steps);
    assert Filing(r.entry.name, r.entry.number, r.entry.due - delay) in Run(delay, steps).filed;
  }

  /** No command is re-read twice. */
  lemma RereadOnce(delay: nat, steps: seq<Step>, r: Refreshed, q: Refreshed)
    requires r in Run(delay, steps).refreshed && q in Run(delay, steps).refreshed
    requires r.entry.name == q.entry.name && r.entry.number == q.entry.number
    ensures r == q
  {
    OnceHolds(delay, steps);
  }

  /** And the runner does not sleep too long: its timer is later than the first pending re-read is
      due by no more than the time it has spent since it last looked. */
  lemma TimerIsPrompt(delay: nat, steps: seq<Step>, name: string)
    requires Run(delay, steps).runner.Parked? && Run(delay, steps).runner.timer.Some? && name in Run(delay, steps).pending
    ensures var s := Run(delay, steps); s.runner.timer.value <= s.pending[name].due + s.runner.lag
  {
    TimelyHolds(delay, steps);
  }
}
