/** `internal/registers/poller.go`: one read cycle, read and then published, with the derived
    registers of `internal/registers/derived.go`. A write may preempt it at any moment. */
module Poller {
  import opened Basics
  import opened Values
  import opened Samples
  import opened ConfirmedRead
  import opened ReadExactly
  import opened CheckedPublish
  import opened Writing
  import Gate

  type Snapshot = map<string, RegisterValue>

  // ---- derived registers -----------------------------------------------------------

  datatype DerivedRegister = DerivedRegister(name: string, topic: string, sources: seq<string>)

  /** A formula of its sources, in tenths; `None` is a result that is no number. */
  type Formula = map<string, int> -> Option<string>

  /** The value of one source, if it was read. */
  function SourceValue(values: Snapshot, source: string): Option<int> {
    if source in values && values[source].valid then ParseText(values[source].value) else None
  }

  predicate Available(values: Snapshot, sources: seq<string>) {
    forall source :: source in sources ==> SourceValue(values, source).Some?
  }

  function Inputs(values: Snapshot, sources: seq<string>): map<string, int>
    requires Available(values, sources)
  {
    map source | source in sources :: SourceValue(values, source).value
  }

  /** `calculateSingle`. */
  function Derive(formulas: map<string, Formula>, reg: DerivedRegister, values: Snapshot): Option<string> {
    if Available(values, reg.sources) && reg.name in formulas then formulas[reg.name](Inputs(values, reg.sources)) else None
  }

  function DerivedValue(o: Option<string>): RegisterValue {
    match o
    case Some(text) => RegisterValue(text, "", true)
    case None => INVALID
  }

  /** `Calculate`: an entry for every register, valid or not. */
  function Calculated(formulas: map<string, Formula>, regs: seq<DerivedRegister>, values: Snapshot): Snapshot {
    if regs == [] then map[]
    else
      var reg := regs[|regs| - 1];
      Calculated(formulas, regs[..|regs| - 1], values)[reg.name := DerivedValue(Derive(formulas, reg, values))]
  }

  /** A register's value is decided by its own sources and formula alone, whatever becomes of
      the other derived registers. */
  lemma {:induction false} DerivedIndependently(formulas: map<string, Formula>, regs: seq<DerivedRegister>, values: Snapshot, i: nat)
    requires i < |regs| && forall j :: i < j < |regs| ==> regs[j].name != regs[i].name
    ensures regs[i].name in Calculated(formulas, regs, values)
    ensures Calculated(formulas, regs, values)[regs[i].name] == DerivedValue(Derive(formulas, regs[i], values))
  {
    var n := |regs| - 1;
    if i < n {
      DerivedIndependently(formulas, regs[..n], values, i);
    }
  }

  /** And valid if and only if all its sources are and its formula yields a value. */
  lemma DerivedValidWhen(formulas: map<string, Formula>, reg: DerivedRegister, values: Snapshot)
    ensures DerivedValue(Derive(formulas, reg, values)).valid <==>
              && (forall source :: source in reg.sources ==> source in values && values[source].valid && ParseText(values[source].value).Some?)
              && reg.name in formulas
              && formulas[reg.name](map source | source in reg.sources && SourceValue(values, source).Some? :: SourceValue(values, source).value).Some?
  {
    if Available(values, reg.sources) {
      assert Inputs(values, reg.sources) == map source | source in reg.sources && SourceValue(values, source).Some? :: SourceValue(values, source).value;
    }
    assert Available(values, reg.sources) <==>
      forall source :: source in reg.sources ==> source in values && values[source].valid && ParseText(values[source].value).Some? by {
      assert forall source :: SourceValue(values, source).Some? <==> source in values && values[source].valid && ParseText(values[source].value).Some?;
    }
  }

  class DerivedCalculator {
    const registers: seq<DerivedRegister>
    const formulas: map<string, Formula>
    const topics: map<string, string>

    constructor (registers: seq<DerivedRegister>, formulas: map<string, Formula>)
      ensures this.registers == registers && this.formulas == formulas && topics == DerivedTopics(registers)
    {
      this.registers, this.formulas := registers, formulas;
      var index: map<string, string> := map[];
      for i := 0 to |registers|
        invariant index == DerivedTopics(registers[..i])
      {
        index := index[registers[i].name := registers[i].topic];
        assert registers[..i + 1][..i] == registers[..i];
      }
      assert registers[..|registers|] == registers;
      topics := index;
    }

    method CalculateSingle(reg: DerivedRegister, values: Snapshot) returns (value: Option<string>)
      ensures value == Derive(formulas, reg, values)
    {
      hide SourceValue;
      var sources: map<string, int> := map[];
      for i := 0 to |reg.sources|
        invariant forall j :: 0 <= j < i ==> SourceValue(values, reg.sources[j]).Some?
        invariant forall source :: source in sources <==> source in reg.sources[..i]
        invariant forall source :: source in sources ==> SourceValue(values, source) == Some(sources[source])
      {
        var parsed := SourceValue(values, reg.sources[i]);
        if parsed.None? {
          assert !Available(values, reg.sources);
          return None;
        }
        sources := sources[reg.sources[i] := parsed.value];
      }
      assert reg.sources[..|reg.sources|] == reg.sources;
      assert sources == Inputs(values, reg.sources);
      value := if reg.name in formulas then formulas[reg.name](sources) else None;
    }

    method Calculate(values: Snapshot) returns (results: Snapshot)
      ensures results == Calculated(formulas, registers, values)
    {
      results := map[];
      for i := 0 to |registers|
        invariant results == Calculated(formulas, registers[..i], values)
      {
        var value := CalculateSingle(registers[i], values);
        results := results[registers[i].name := DerivedValue(value)];
        assert registers[..i + 1][..i] == registers[..i];
      }
      assert registers[..|registers|] == registers;
    }
  }

  function DerivedTopics(regs: seq<DerivedRegister>): map<string, string> {
    if regs == [] then map[] else DerivedTopics(regs[..|regs| - 1])[regs[|regs| - 1].name := regs[|regs| - 1].topic]
  }

  // ---- what a cycle publishes ------------------------------------------------------

  /** The names whose values are published, and where. */
  predicate Outgoing(values: Snapshot, topics: map<string, string>, name: string) {
    name in values && values[name].valid && name in topics && topics[name] != ""
  }

  /** Each name once. */
  ghost predicate EachOnce(order: seq<string>, names: set<string>) {
    && (forall i, j :: 0 <= i < j < |order| ==> order[i] != order[j])
    && (forall name :: name in order <==> name in names)
  }

  /** The values of a snapshot, published in the given order of names; those that are invalid or
      have no topic are skipped. */
  function InOrder(order: seq<string>, values: Snapshot, topics: map<string, string>): seq<Act> {
    if order == [] then []
    else
      var name := order[|order| - 1];
      InOrder(order[..|order| - 1], values, topics) + if Outgoing(values, topics, name) then [Published(topics[name], values[name].value)] else []
  }

  /** The names among these whose values are published. */
  function Sending(order: seq<string>, values: Snapshot, topics: map<string, string>): set<string> {
    set name | name in order && name in values && values[name].valid && name in topics && topics[name] != ""
  }

  lemma SendingGrows(order: seq<string>, name: string, values: Snapshot, topics: map<string, string>)
    requires name !in order
    ensures Sending(order + [name], values, topics) == Sending(order, values, topics) + if Outgoing(values, topics, name) then {name} else {}
    ensures name !in Sending(order, values, topics)
  {
  }

  /** Exactly once: as many publishes as names to publish, and each name's value among them. */
  lemma {:induction false} EachIsPublishedOnce(order: seq<string>, values: Snapshot, topics: map<string, string>)
    requires forall i, j :: 0 <= i < j < |order| ==> order[i] != order[j]
    ensures |InOrder(order, values, topics)| == |Sending(order, values, topics)|
    ensures forall name :: name in Sending(order, values, topics) ==> Published(topics[name], values[name].value) in InOrder(order, values, topics)
    decreases order
  {
    if order != [] {
      var n := |order| - 1;
      var name, before := order[n], order[..n];
      EachIsPublishedOnce(before, values, topics);
      SendingGrows(before, name, values, topics);
      assert order == before + [name];
    }
  }

  /** And nothing else is published: every publish is the value of a valid entry, to its own topic. */
  lemma {:induction false} OnlyValidIsPublished(order: seq<string>, values: Snapshot, topics: map<string, string>, a: Act)
    requires a in InOrder(order, values, topics)
    ensures exists name :: name in order && name in values && values[name].valid && name in topics && a == Published(topics[name], values[name].value)
    decreases order
  {
    var n := |order| - 1;
    if a in InOrder(order[..n], values, topics) {
      OnlyValidIsPublished(order[..n], values, topics, a);
      var name :| name in order[..n] && name in values && values[name].valid && name in topics && a == Published(topics[name], values[name].value);
      assert name in order;
    } else {
      assert order[n] in order;
    }
  }

  /** The state topics that a snapshot can fill. */
  predicate Resolvable(reg: WriteRegister, values: Snapshot) {
    reg.stateFrom != "" && reg.topic != "" && reg.stateFrom in values && values[reg.stateFrom].valid
  }

  function States(regs: seq<WriteRegister>, values: Snapshot): seq<Act> {
    if regs == [] then []
    else
      var reg := regs[|regs| - 1];
      States(regs[..|regs| - 1], values) + if Resolvable(reg, values) then [StatePublished(reg.topic, values[reg.stateFrom].value)] else []
  }

  /** The registers whose state the snapshot can fill, in order. */
  function Filled(regs: seq<WriteRegister>, values: Snapshot): seq<WriteRegister> {
    if regs == [] then []
    else Filled(regs[..|regs| - 1], values) + if Resolvable(regs[|regs| - 1], values) then [regs[|regs| - 1]] else []
  }

  /** Each of them is published once, in order, to its own topic, with the value that the snapshot
      has for its state register. */
  lemma {:induction false} StatesAreShown(regs: seq<WriteRegister>, values: Snapshot)
    ensures |States(regs, values)| == |Filled(regs, values)|
    ensures forall i :: 0 <= i < |Filled(regs, values)| ==>
      var reg := Filled(regs, values)[i];
      reg.stateFrom in values && values[reg.stateFrom].valid && States(regs, values)[i] == StatePublished(reg.topic, values[reg.stateFrom].value)
    ensures forall reg :: reg in Filled(regs, values) <==> reg in regs && Resolvable(reg, values)
  {
    if regs != [] {
      var n := |regs| - 1;
      StatesAreShown(regs[..n], values);
      assert regs == regs[..n] + [regs[n]];
    }
  }

  function Topics(byName: map<string, ReadRegister>): map<string, string> { map name | name in byName :: byName[name].topic }

  /** The publishes among what a call did. */
  function Publishes(acts: seq<Act>): seq<Act> {
    if acts == [] then []
    else
      var a := acts[|acts| - 1];
      Publishes(acts[..|acts| - 1]) + if IsPublish(a) then [a] else []
  }

  lemma PublishesGrow(acts: seq<Act>, a: Act)
    ensures Publishes(acts + [a]) == Publishes(acts) + if IsPublish(a) then [a] else []
  {
    assert (acts + [a])[..|acts|] == acts;
  }

  // ---- cancellation ----------------------------------------------------------------

  predicate LiveAt(start: Ctx, i: nat) { start.Never? || i < start.checks }

  function CtxAfter(start: Ctx, k: nat): Ctx { if start.Never? then Never else CancelledIn(if k <= start.checks then start.checks - k else 0) }

  /** What was done since the context was `start`, now that it is `ctx`: nothing but checks and
      publishes, every publish after a check of its own, and every check answered truthfully. */
  ghost predicate Faithful(start: Ctx, ctx: Ctx, acts: seq<Act>) {
    && Guarded(acts) && (forall a :: a in acts ==> a.Checked? || IsPublish(a))
    && ctx == CtxAfter(start, |Checks(acts)|)
    && forall i :: 0 <= i < |Checks(acts)| ==> Checks(acts)[i] == LiveAt(start, i)
  }

  /** A cancellation at any point of the publish phase: after k checks and p acts. At most one
      publish follows it, and none if it precedes the first check. */
  lemma CancelledCycleBound(start: Ctx, ctx: Ctx, acts: seq<Act>, p: nat)
    requires Faithful(start, ctx, acts) && p <= |acts| && start == CancelledIn(|Checks(acts[..p])|)
    ensures Publications(acts[p..]) <= 1 && (start == CancelledIn(0) ==> Publications(acts) == 0)
  {
    forall i | p <= i < |acts| && acts[i].Checked? ensures !acts[i].ok {
      CheckAt(acts, p, i);
    }
    AtMostOneAfterTrip(acts, p);
    if start == CancelledIn(0) {
      forall i | 0 <= i < |acts| && acts[i].Checked? ensures !acts[i].ok {
        CheckAt(acts, 0, i);
      }
      AtMostOneAfterTrip(acts, 0);
      assert acts[0..] == acts;
    }
  }

  /** A context that nobody cancels stays as it is. */
  lemma NeverStaysLive(start: Ctx, ctx: Ctx, acts: seq<Act>)
    requires Faithful(start, ctx, acts) && start.Never?
    ensures ctx.Never?
  {
  }

  lemma FaithfulBefore(start: Ctx, ctx: Ctx, acts: seq<Act>, a: Act)
    requires Faithful(start, ctx, acts + [a])
    ensures Faithful(start, CtxAfter(start, |Checks(acts)|), acts)
    ensures a.Checked? ==> a.ok == LiveAt(start, |Checks(acts)|) && ctx == CtxAfter(start, |Checks(acts)| + 1)
    ensures IsPublish(a) ==> Armed(acts) && ctx == CtxAfter(start, |Checks(acts)|)
    ensures a.Checked? || IsPublish(a)
  {
    Appended(acts, a);
    ChecksGrow(acts, a);
    var all := Checks(acts + [a]);
    forall i | 0 <= i < |Checks(acts)| ensures Checks(acts)[i] == LiveAt(start, i) {
      assert all[i] == Checks(acts)[i];
    }
    assert a in acts + [a];
  }

  lemma FaithfulCheck(start: Ctx, ctx: Ctx, acts: seq<Act>)
    requires Faithful(start, ctx, acts)
    ensures var more := acts + [Checked(!ctx.Done())];
      Faithful(start, ctx.Checked(), more) && Armed(more) == !ctx.Done() && Publishes(more) == Publishes(acts)
  {
    Appended(acts, Checked(!ctx.Done()));
    ChecksGrow(acts, Checked(!ctx.Done()));
    PublishesGrow(acts, Checked(!ctx.Done()));
  }

  lemma FaithfulPublish(start: Ctx, ctx: Ctx, acts: seq<Act>, a: Act)
    requires Faithful(start, ctx, acts) && IsPublish(a) && Armed(acts)
    ensures Faithful(start, ctx, acts + [a]) && Publishes(acts + [a]) == Publishes(acts) + [a]
  {
    Appended(acts, a);
    ChecksGrow(acts, a);
    PublishesGrow(acts, a);
  }

  // ---- the program -----------------------------------------------------------------

  lemma {:induction false} SomeOrder(names: set<string>) returns (order: seq<string>)
    ensures EachOnce(order, names)
    decreases names
  {
    if names == {} {
      order := [];
    } else {
      var name :| name in names;
      order := SomeOrder(names - {name});
      order := order + [name];
    }
  }

  /** The names done so far, and then the others. */
  lemma Completed(done: seq<string>, rest: set<string>, names: set<string>) returns (order: seq<string>)
    requires EachOnce(done, names - rest) && rest <= names
    ensures EachOnce(order, names) && done <= order
  {
    var more := SomeOrder(rest);
    order := done + more;
    forall name ensures name in order <==> name in names {
      assert name in order <==> name in done || name in more;
    }
    forall i, j | 0 <= i < j < |order| ensures order[i] != order[j] {
      if i < |done| <= j {
        assert order[i] in done && order[j] in more;
      }
    }
  }

  lemma {:induction false} OrderPrefix(done: seq<string>, order: seq<string>, values: Snapshot, topics: map<string, string>)
    requires done <= order
    ensures InOrder(done, values, topics) <= InOrder(order, values, topics)
    decreases |order|
  {
    if done == order {
    } else {
      var n := |order| - 1;
      assert done <= order[..n];
      OrderPrefix(done, order[..n], values, topics);
    }
  }

  lemma NothingYet(names: set<string>, values: Snapshot, topics: map<string, string>)
    ensures EachOnce([], names - names) && InOrder([], values, topics) == []
  {
  }

  lemma OneMoreName(done: seq<string>, name: string, rest: set<string>, names: set<string>)
    requires EachOnce(done, names - rest) && name in rest && rest <= names
    ensures EachOnce(done + [name], names - (rest - {name}))
  {
    forall other ensures other in done + [name] <==> other in names - (rest - {name}) {
      assert other in done + [name] <==> other in done || other == name;
    }
  }

  /** A walk that stopped after some of the names was a phase, and a whole one if it did them all. */
  lemma WalkIsPhase(before: seq<Act>, after: seq<Act>, done: seq<string>, order: seq<string>, values: Snapshot, topics: map<string, string>, cancelled: bool)
    requires Publishes(after) == Publishes(before) + InOrder(done, values, topics) && done <= order && (!cancelled ==> done == order)
    ensures Phase(before, after, InOrder(order, values, topics), cancelled)
  {
    OrderPrefix(done, order, values, topics);
    var sent, all := InOrder(done, values, topics), InOrder(order, values, topics);
    assert all[..|sent|] == sent;
  }

  lemma {:induction false} StatesPrefix(regs: seq<WriteRegister>, i: nat, values: Snapshot)
    requires i <= |regs|
    ensures States(regs[..i], values) <= States(regs, values)
  {
    if i == |regs| {
      assert regs[..i] == regs;
    } else {
      var n := |regs| - 1;
      assert regs[..n][..i] == regs[..i];
      StatesPrefix(regs[..n], i, values);
    }
  }

  /** What a publish phase did: everything once, or when it was cancelled the first part of it. */
  ghost predicate Phase(before: seq<Act>, after: seq<Act>, all: seq<Act>, cancelled: bool) {
    exists k :: 0 <= k <= |all| && Publishes(after) == Publishes(before) + all[..k] && (!cancelled ==> k == |all|)
  }

  lemma PhaseMeans(before: seq<Act>, after: seq<Act>, done: seq<Act>, all: seq<Act>, cancelled: bool)
    requires Phase(before, after, all, cancelled) && Publishes(before) == done
    ensures Publishes(after) <= done + all && (!cancelled ==> Publishes(after) == done + all)
  {
    var k :| 0 <= k <= |all| && Publishes(after) == Publishes(before) + all[..k] && (!cancelled ==> k == |all|);
    assert done + all == done + all[..k] + all[k..];
  }

  lemma StillPrefix<T>(s: seq<T>, a: seq<T>, b: seq<T>)
    requires s <= a
    ensures s <= a + b
  {
  }

  class Broker {
    ghost var acts: seq<Act>

    constructor ()
      ensures acts == []
    {
      acts := [];
    }

    method Reset()
      modifies this
      ensures acts == []
    {
      acts := [];
    }

    /** Looks whether the cycle is still live. */
    method CheckLive(ctx: Ctx, ghost start: Ctx) returns (live: bool, left: Ctx)
      requires Faithful(start, ctx, acts)
      modifies this
      ensures Faithful(start, left, acts) && live == !ctx.Done() && left == ctx.Checked()
      ensures Publishes(acts) == Publishes(old(acts)) && Armed(acts) == live
    {
      FaithfulCheck(start, ctx, acts);
      live, left := !ctx.Done(), ctx.Checked();
      acts := acts + [Checked(live)];
    }

    method Publish(ghost start: Ctx, ghost ctx: Ctx, a: Act)
      requires Faithful(start, ctx, acts) && IsPublish(a) && Armed(acts)
      modifies this
      ensures Faithful(start, ctx, acts) && Publishes(acts) == Publishes(old(acts)) + [a]
    {
      FaithfulPublish(start, ctx, acts, a);
      acts := acts + [a];
    }

    /** One name of a map being walked. */
    method PublishName(ghost start: Ctx, ghost ctx: Ctx, values: Snapshot, topics: map<string, string>, name: string,
                       ghost before: seq<Act>, ghost done: seq<string>)
      requires Faithful(start, ctx, acts) && Armed(acts) && name in values
      requires Publishes(acts) == before + InOrder(done, values, topics)
      modifies this
      ensures Faithful(start, ctx, acts) && Publishes(acts) == before + InOrder(done + [name], values, topics)
    {
      hide Faithful;
      assert (done + [name])[..|done|] == done;
      if Outgoing(values, topics, name) {
        Publish(start, ctx, Published(topics[name], values[name].value));
      }
    }

    /** `PublishAll`, of the reader and of the derived registers. A map is walked in any order. */
    method PublishAll(ctx: Ctx, ghost start: Ctx, values: Snapshot, topics: map<string, string>)
      returns (cancelled: bool, left: Ctx, ghost order: seq<string>)
      requires Faithful(start, ctx, acts)
      modifies this
      ensures Faithful(start, left, acts) && EachOnce(order, values.Keys)
      ensures Phase(old(acts), acts, InOrder(order, values, topics), cancelled)
      ensures cancelled ==> left.Done()
    {
      hide Faithful, InOrder, EachOnce, Phase;
      left, order := ctx, [];
      var names := values.Keys;
      NothingYet(values.Keys, values, topics);
      while names != {}
        invariant names <= values.Keys && Faithful(start, left, acts) && EachOnce(order, values.Keys - names)
        invariant Publishes(acts) == Publishes(old(acts)) + InOrder(order, values, topics)
        decreases names
      {
        var name :| name in names;
        var live;
        ghost var done := order;
        OneMoreName(done, name, names, values.Keys);
        live, left := CheckLive(left, start);
        if !live {
          order := Completed(done, names, values.Keys);
          WalkIsPhase(old(acts), acts, done, order, values, topics, true);
          return true, left, order;
        }
        PublishName(start, left, values, topics, name, Publishes(old(acts)), done);
        names, order := names - {name}, done + [name];
      }
      assert values.Keys - {} == values.Keys;
      WalkIsPhase(old(acts), acts, order, order, values, topics, false);
      cancelled := false;
    }

    /** `publishWriteRegisterState`. */
    method PublishStates(ctx: Ctx, ghost start: Ctx, regs: seq<WriteRegister>, values: Snapshot) returns (left: Ctx)
      requires Faithful(start, ctx, acts)
      modifies this
      ensures Faithful(start, left, acts)
      ensures Phase(old(acts), acts, States(regs, values), left.Done())
    {
      left := ctx;
      for i := 0 to |regs|
        invariant Faithful(start, left, acts)
        invariant Publishes(acts) == Publishes(old(acts)) + States(regs[..i], values)
      {
        var live;
        live, left := CheckLive(left, start);
        StatesPrefix(regs, i, values);
        if !live {
          assert States(regs, values)[..|States(regs[..i], values)|] == States(regs[..i], values);
          return;
        }
        if Resolvable(regs[i], values) {
          Publish(start, left, StatePublished(regs[i].topic, values[regs[i].stateFrom].value));
        }
        assert regs[..i + 1][..i] == regs[..i];
      }
      assert regs[..|regs|] == regs;
      assert States(regs, values)[..|States(regs, values)|] == States(regs, values);
    }
  }

  /** How a cycle ends: only the last is a nil error. */
  datatype CycleEnd = Skipped | NotRead | Preempted | Done

  class Poller {
    const reader: Reader
    const derived: DerivedCalculator?
    const gate: Gate.ReadGate
    const broker: Broker
    const writeRegisters: seq<WriteRegister>

    constructor (reader: Reader, derived: DerivedCalculator?, gate: Gate.ReadGate, broker: Broker, writeRegisters: seq<WriteRegister>)
      ensures this.reader == reader && this.derived == derived && this.gate == gate && this.broker == broker && this.writeRegisters == writeRegisters
    {
      this.reader, this.derived, this.gate, this.broker, this.writeRegisters := reader, derived, gate, broker, writeRegisters;
    }

    /** What a complete cycle publishes, from one snapshot: every valid register, every state the
        snapshot can fill, and every valid derived value, each once. */
    ghost function Everything(values: Snapshot, order: seq<string>, derivedOrder: seq<string>): seq<Act> {
      InOrder(order, values, Topics(reader.byName)) + States(writeRegisters, values) + FromDerived(values, derivedOrder)
    }

    ghost function FromDerived(values: Snapshot, derivedOrder: seq<string>): seq<Act> {
      if derived == null then [] else InOrder(derivedOrder, Calculated(derived.formulas, derived.registers, values), derived.topics)
    }

    ghost predicate DerivedOnce(values: Snapshot, derivedOrder: seq<string>) {
      derived != null ==> EachOnce(derivedOrder, Calculated(derived.formulas, derived.registers, values).Keys)
    }

    method PublishDerived(ctx: Ctx, ghost start: Ctx, values: Snapshot) returns (left: Ctx, ghost order: seq<string>)
      requires Faithful(start, ctx, broker.acts)
      modifies broker
      ensures Faithful(start, left, broker.acts) && DerivedOnce(values, order)
      ensures Phase(old(broker.acts), broker.acts, FromDerived(values, order), left.Done())
    {
      left, order := ctx, [];
      if derived == null {
        assert FromDerived(values, order)[..0] == [];
        return;
      }
      var results := derived.Calculate(values);
      var cancelled;
      cancelled, left, order := broker.PublishAll(ctx, start, results, derived.topics);
    }

    /** The publish phase of `RunCycle`, which every check of the cycle's context may end. */
    method PublishCycle(ctx: Ctx, values: Snapshot) returns (end: CycleEnd, left: Ctx, ghost order: seq<string>, ghost derivedOrder: seq<string>)
      requires broker.acts == []
      modifies broker
      ensures Faithful(ctx, left, broker.acts) && EachOnce(order, values.Keys) && DerivedOnce(values, derivedOrder)
      ensures end == Done || (end == Preempted && left.Done())
      ensures Publishes(broker.acts) <= Everything(values, order, derivedOrder)
      ensures end == Done ==> Publishes(broker.acts) == Everything(values, order, derivedOrder)
    {
      order := SomeOrder(values.Keys);
      derivedOrder := SomeOrder(if derived == null then {} else Calculated(derived.formulas, derived.registers, values).Keys);
      var live, cancelled;
      live, left := broker.CheckLive(ctx, ctx);
      if !live {
        return Preempted, left, order, derivedOrder;
      }
      ghost var before := broker.acts;
      cancelled, left, order := broker.PublishAll(left, ctx, values, Topics(reader.byName));
      ghost var registers := InOrder(order, values, Topics(reader.byName));
      PhaseMeans(before, broker.acts, [], registers, cancelled);
      assert [] + registers == registers;
      live, left := broker.CheckLive(left, ctx);
      if !live {
        StillPrefix(Publishes(broker.acts), registers, States(writeRegisters, values));
        StillPrefix(Publishes(broker.acts), registers + States(writeRegisters, values), FromDerived(values, derivedOrder));
        return Preempted, left, order, derivedOrder;
      }
      end, left, derivedOrder := PublishRest(left, ctx, values, order, derivedOrder);
    }

    /** What follows the registers themselves. */
    method PublishRest(ctx: Ctx, ghost start: Ctx, values: Snapshot, ghost order: seq<string>, ghost anyOrder: seq<string>)
      returns (end: CycleEnd, left: Ctx, ghost derivedOrder: seq<string>)
      requires Faithful(start, ctx, broker.acts) && DerivedOnce(values, anyOrder)
      requires Publishes(broker.acts) == InOrder(order, values, Topics(reader.byName))
      modifies broker
      ensures Faithful(start, left, broker.acts) && DerivedOnce(values, derivedOrder)
      ensures end == Done || (end == Preempted && left.Done())
      ensures Publishes(broker.acts) <= Everything(values, order, derivedOrder)
      ensures end == Done ==> Publishes(broker.acts) == Everything(values, order, derivedOrder)
    {
      ghost var registers := InOrder(order, values, Topics(reader.byName));
      ghost var states := States(writeRegisters, values);
      derivedOrder := anyOrder;
      var live;
      ghost var before := broker.acts;
      left := broker.PublishStates(ctx, start, writeRegisters, values);
      PhaseMeans(before, broker.acts, registers, states, left.Done());
      live, left := broker.CheckLive(left, start);
      if !live {
        StillPrefix(Publishes(broker.acts), registers + states, FromDerived(values, derivedOrder));
        return Preempted, left, derivedOrder;
      }
      if derived == null {
        assert Everything(values, order, derivedOrder) == registers + states;
        return Done, left, derivedOrder;
      }
      before := broker.acts;
      left, derivedOrder := PublishDerived(left, start, values);
      PhaseMeans(before, broker.acts, registers + states, FromDerived(values, derivedOrder), left.Done());
      live, left := broker.CheckLive(left, start);
      end := if live then Done else Preempted;
    }

    /** `RunCycle`. `start` is the context as the publish phase found it. */
    method RunCycle(ctx: Ctx, healthy: bool)
      returns (end: CycleEnd, left: Ctx, ghost start: Ctx, ghost values: Snapshot, ghost order: seq<string>, ghost derivedOrder: seq<string>)
      modifies reader`trusted, reader.dev, gate, broker
      ensures Faithful(start, left, broker.acts)
      ensures end == Skipped <==> !healthy || old(gate.State()).Suppressed(old(reader.dev.now))
      ensures end == Skipped ==> gate.State() == old(gate.State()) && broker.acts == []
      ensures end != Skipped ==> gate.State() == old(gate.State()).Begun(old(reader.dev.now)).Ended(old(gate.cycleID) + 1)
      ensures end != Skipped ==>
        (var read := ReadAllFrom(reader.registers, reader.retries, reader.backoff, map[], old(reader.Facing(ctx)));
         values == read.results && start == read.world.ctx && (end == NotRead <==> read.cancelled))
      ensures end == NotRead ==> broker.acts == [] && left.Done()
      ensures end == Preempted ==> left.Done()
      ensures ctx.Never? && end != Skipped ==> end == Done
      ensures end == Preempted || end == Done ==> EachOnce(order, values.Keys) && DerivedOnce(values, derivedOrder)
      ensures end == Preempted ==> Publishes(broker.acts) <= Everything(values, order, derivedOrder)
      ensures end == Done ==> Publishes(broker.acts) == Everything(values, order, derivedOrder)
    {
      broker.Reset();
      end, left, start, values, order, derivedOrder := Skipped, ctx, ctx, map[], [], [];
      if !healthy {
        return;
      }
      var id := gate.TryBeginCycle(reader.dev.now);
      if id.None? {
        return;
      }
      var read, cancelled;
      CycleCancelledIsDone(reader.registers, reader.retries, reader.backoff, map[], reader.Facing(ctx));
      read, cancelled, left := reader.ReadAll(ctx);
      start, values := left, read;
      if cancelled {
        gate.EndCycle(id.value);
        end := NotRead;
        return;
      }
      end, left, order, derivedOrder := PublishCycle(left, read);
      if start.Never? {
        NeverStaysLive(start, left, broker.acts);
      }
      gate.EndCycle(id.value);
    }
  }
}
