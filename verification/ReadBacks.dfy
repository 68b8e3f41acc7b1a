/** What a read-back reads: every register it is configured for, and no reading twice. Of a
    command's read-back and of a settle re-read, where silence would be lawful too. */
module ReadBacks {
  import opened Basics
  import opened Samples
  import opened ConfirmedRead
  import opened CheckedPublish
  import opened Writing
  import opened ReadTrace
  import opened WriteContract
  import opened Supersession

  // ---- what was read ---------------------------------------------------------------

  /** A send that went out: what was read before it no longer counts. */
  predicate IsDelivery(a: Act) { a.Tried? && a.answer.Taken? }

  /** What the reads of this register returned since the last send, in order. */
  function ReadsOf(acts: seq<Act>, name: string): seq<ReadOutcome> {
    if acts == [] || IsDelivery(acts[|acts| - 1]) then []
    else
      ReadsOf(acts[..|acts| - 1], name) +
      if acts[|acts| - 1].ReadBack? && acts[|acts| - 1].name == name then [acts[|acts| - 1].outcome] else []
  }

  /** The register that was read first since the last send. */
  function FirstRead(acts: seq<Act>): Option<string> {
    if acts == [] || IsDelivery(acts[|acts| - 1]) then None
    else
      var earlier := FirstRead(acts[..|acts| - 1]);
      if earlier.None? && acts[|acts| - 1].ReadBack? then Some(acts[|acts| - 1].name) else earlier
  }

  function Listed(names: seq<string>, name: string): nat {
    if names == [] then 0 else Listed(names[..|names| - 1], name) + if names[|names| - 1] == name then 1 else 0
  }

  function FirstConfigured(plan: Plan, names: seq<string>): Option<string> {
    if names == [] then None
    else
      var earlier := FirstConfigured(plan, names[..|names| - 1]);
      if earlier.None? && names[|names| - 1] in plan.byName then Some(names[|names| - 1]) else earlier
  }

  predicate GotSample(outcomes: seq<ReadOutcome>) { outcomes != [] && outcomes[|outcomes| - 1].Read? }

  /** A register that is listed n times was read until a reading came, at most n times. */
  predicate ReadUntil(outcomes: seq<ReadOutcome>, n: nat) {
    && |outcomes| <= n && (|outcomes| < n ==> GotSample(outcomes))
    && forall i :: 0 <= i < |outcomes| - 1 ==> !outcomes[i].Read?
  }

  /** Every listed register that is configured was read, the first one first, and nothing else. */
  ghost predicate ReadInFull(plan: Plan, names: seq<string>, acts: seq<Act>) {
    && (forall name :: ReadUntil(ReadsOf(acts, name), if name in plan.byName then Listed(names, name) else 0))
    && FirstRead(acts) == FirstConfigured(plan, names)
  }

  /** How often a write register's read-back may read this register. */
  function ListedFor(reg: WriteRegister, name: string): nat {
    Listed(reg.verifyRegisters, name) + if reg.stateFrom != "" && name == reg.stateFrom then 1 else 0
  }

  /** A full read-back of a write register: state_from and each of its verify registers, if they are
      configured, as often as listed until one gives a reading; state_from first; and nothing else. */
  ghost predicate ReadBackInFull(plan: Plan, reg: WriteRegister, acts: seq<Act>) {
    && (forall name :: ReadUntil(ReadsOf(acts, name), if name in plan.byName then ListedFor(reg, name) else 0))
    && (reg.stateFrom != "" && reg.stateFrom in plan.byName ==> FirstRead(acts) == Some(reg.stateFrom))
  }

  lemma {:induction false} ListedFirst(plan: Plan, first: string, names: seq<string>, name: string)
    ensures Listed([first] + names, name) == Listed(names, name) + if name == first then 1 else 0
    ensures first in plan.byName ==> FirstConfigured(plan, [first] + names) == Some(first)
    decreases names
  {
    if names == [] {
      assert [first] + [] == [first] && [first][..0] == [];
    } else {
      var n := |names| - 1;
      assert ([first] + names)[..n + 1] == [first] + names[..n] && ([first] + names)[n + 1] == names[n];
      ListedFirst(plan, first, names[..n], name);
    }
  }

  lemma NamesMean(plan: Plan, reg: WriteRegister, acts: seq<Act>)
    requires ReadInFull(plan, Names(reg), acts)
    ensures ReadBackInFull(plan, reg, acts)
  {
    hide ReadUntil, Listed, FirstConfigured, FirstRead, ReadsOf;
    forall name ensures Listed(Names(reg), name) == ListedFor(reg, name) {
      if reg.stateFrom != "" {
        ListedFirst(plan, reg.stateFrom, reg.verifyRegisters, name);
      } else {
        assert Names(reg) == reg.verifyRegisters;
      }
    }
    ListedFirst(plan, reg.stateFrom, reg.verifyRegisters, "");
  }

  /** The values kept so far are the readings that came. */
  ghost predicate Keeps(values: map<string, string>, acts: seq<Act>) { forall name :: KeptAs(values, name, ReadsOf(acts, name)) }

  predicate KeptAs(values: map<string, string>, name: string, outcomes: seq<ReadOutcome>) {
    if GotSample(outcomes) then name in values && values[name] == outcomes[|outcomes| - 1].sample.text else name !in values
  }

  /** A read-back in progress, with these names done. */
  ghost predicate InProgress(plan: Plan, done: seq<string>, values: map<string, string>, acts: seq<Act>) {
    ReadInFull(plan, done, acts) && Keeps(values, acts)
  }

  lemma ReadsGrow(acts: seq<Act>, a: Act, name: string)
    requires !IsDelivery(a)
    ensures ReadsOf(acts + [a], name) == ReadsOf(acts, name) + if a.ReadBack? && a.name == name then [a.outcome] else []
    ensures FirstRead(acts + [a]) == if FirstRead(acts).None? && a.ReadBack? then Some(a.name) else FirstRead(acts)
  {
    assert (acts + [a])[..|acts|] == acts;
  }

  lemma NamesGrow(plan: Plan, names: seq<string>, next: string, name: string)
    ensures Listed(names + [next], name) == Listed(names, name) + if next == name then 1 else 0
    ensures FirstConfigured(plan, names + [next]) ==
      if FirstConfigured(plan, names).None? && next in plan.byName then Some(next) else FirstConfigured(plan, names)
  {
    assert (names + [next])[..|names|] == names;
  }

  /** An act that is neither a send nor a read changes nothing here. */
  lemma OtherActKeeps(plan: Plan, done: seq<string>, values: map<string, string>, acts: seq<Act>, a: Act)
    requires InProgress(plan, done, values, acts) && !a.Tried? && !a.ReadBack?
    ensures InProgress(plan, done, values, acts + [a])
  {
    forall name ensures ReadsOf(acts + [a], name) == ReadsOf(acts, name) && FirstRead(acts + [a]) == FirstRead(acts) {
      ReadsGrow(acts, a, name);
    }
    ReadsGrow(acts, a, "");
  }

  /** A name that needs no read. */
  lemma SkippedKeeps(plan: Plan, done: seq<string>, values: map<string, string>, acts: seq<Act>, next: string)
    requires InProgress(plan, done, values, acts) && (next in values || next !in plan.byName)
    ensures InProgress(plan, done + [next], values, acts)
  {
    NamesGrow(plan, done, next, next);
    assert next in values ==> GotSample(ReadsOf(acts, next));
    assert next in plan.byName ==> FirstConfigured(plan, done).Some? by {
      if next in plan.byName {
        ReadIsFirst(plan, done, values, acts, next);
      }
    }
    forall name ensures ReadUntil(ReadsOf(acts, name), if name in plan.byName then Listed(done + [next], name) else 0) {
      NamesGrow(plan, done, next, name);
      assert ReadUntil(ReadsOf(acts, name), if name in plan.byName then Listed(done, name) else 0);
    }
  }

  /** If anything was read, something was read first. */
  lemma {:induction false} SomethingFirst(acts: seq<Act>, name: string)
    requires ReadsOf(acts, name) != []
    ensures FirstRead(acts).Some?
  {
    var n := |acts| - 1;
    if ReadsOf(acts[..n], name) != [] {
      SomethingFirst(acts[..n], name);
    }
  }

  lemma ReadIsFirst(plan: Plan, done: seq<string>, values: map<string, string>, acts: seq<Act>, name: string)
    requires InProgress(plan, done, values, acts) && name in values
    ensures FirstConfigured(plan, done).Some?
  {
    assert GotSample(ReadsOf(acts, name));
    SomethingFirst(acts, name);
  }

  lemma OneMoreRead(outcomes: seq<ReadOutcome>, n: nat, o: ReadOutcome)
    requires ReadUntil(outcomes, n) && !GotSample(outcomes)
    ensures ReadUntil(outcomes + [o], n + 1)
  {
    if outcomes != [] {
      assert !outcomes[|outcomes| - 1].Read?;
    }
  }

  lemma ReadIsFull(plan: Plan, done: seq<string>, acts: seq<Act>, read: Act)
    requires ReadInFull(plan, done, acts) && read.ReadBack? && !GotSample(ReadsOf(acts, read.name)) && read.name in plan.byName
    ensures ReadInFull(plan, done + [read.name], acts + [read])
  {
    var more := acts + [read];
    NamesGrow(plan, done, read.name, read.name);
    ReadsGrow(acts, read, read.name);
    hide Listed, ReadsOf, FirstRead, FirstConfigured, ReadUntil, GotSample;
    forall name ensures ReadUntil(ReadsOf(more, name), if name in plan.byName then Listed(done + [read.name], name) else 0) {
      NamesGrow(plan, done, read.name, name);
      ReadsGrow(acts, read, name);
      assert ReadUntil(ReadsOf(acts, name), if name in plan.byName then Listed(done, name) else 0);
      if name == read.name {
        OneMoreRead(ReadsOf(acts, name), Listed(done, name), read.outcome);
      } else {
        assert ReadsOf(more, name) == ReadsOf(acts, name);
      }
    }
  }

  lemma ReadIsKept(values: map<string, string>, acts: seq<Act>, read: Act)
    requires Keeps(values, acts) && read.ReadBack? && read.name !in values
    ensures Keeps(if read.outcome.Read? then values[read.name := read.outcome.sample.text] else values, acts + [read])
  {
    var more, kept := acts + [read], if read.outcome.Read? then values[read.name := read.outcome.sample.text] else values;
    hide ReadsOf, KeptAs;
    forall name ensures KeptAs(kept, name, ReadsOf(more, name)) {
      ReadsGrow(acts, read, name);
      assert KeptAs(values, name, ReadsOf(acts, name));
      KeptLater(values, name, ReadsOf(acts, name), read);
    }
  }

  lemma KeptLater(values: map<string, string>, name: string, outcomes: seq<ReadOutcome>, read: Act)
    requires KeptAs(values, name, outcomes) && read.ReadBack? && read.name !in values
    ensures KeptAs(if read.outcome.Read? then values[read.name := read.outcome.sample.text] else values, name,
                   outcomes + if read.name == name then [read.outcome] else [])
  {
    if read.name != name {
      assert outcomes + [] == outcomes;
    }
  }

  /** One more read, of a register that gave no sample yet. */
  lemma ReadKeeps(plan: Plan, done: seq<string>, values: map<string, string>, acts: seq<Act>, read: Act)
    requires InProgress(plan, done, values, acts) && read.ReadBack? && read.name !in values && read.name in plan.byName
    ensures InProgress(plan, done + [read.name], if read.outcome.Read? then values[read.name := read.outcome.sample.text] else values, acts + [read])
  {
    assert !GotSample(ReadsOf(acts, read.name));
    ReadIsFull(plan, done, acts, read);
    ReadIsKept(values, acts, read);
    hide ReadInFull, Keeps;
  }

  lemma TookInProgress(plan: Plan, done: seq<string>, topic: string, name: string, values: map<string, string>, r: ReadRun, s: Scene)
    requires InProgress(plan, done, values, s.acts) && name !in values && name in plan.byName
    ensures var step := Took(topic, name, values, r, s); step.Kept? && InProgress(plan, done + [name], step.values, step.scene.acts)
  {
    var read := ReadBack(name, s.world, r.outcome);
    ReadKeeps(plan, done, values, s.acts, read);
    if r.outcome.Read? && topic != "" {
      OtherActKeeps(plan, done + [name], values[name := r.outcome.sample.text], s.acts + [read], Published(topic, r.outcome.sample.text));
    }
  }

  lemma LookInProgress(plan: Plan, done: seq<string>, values: map<string, string>, owner: string, number: nat, s: Scene)
    requires InProgress(plan, done, values, s.acts)
    ensures InProgress(plan, done, values, Look(owner, number, s).acts)
  {
    if number != 0 {
      OtherActKeeps(plan, done, values, s.acts, Checked(Count(s.Looked(owner).accepted, owner) == number));
    }
  }

  lemma StepBackInProgress(plan: Plan, done: seq<string>, owner: string, number: nat, name: string, values: map<string, string>, s: Scene)
    requires InProgress(plan, done, values, s.acts)
    ensures var step := StepBack(plan, owner, number, name, values, s); step.Kept? ==> InProgress(plan, done + [name], step.values, step.scene.acts)
  {
    hide InProgress;
    if name in values {
      SkippedKeeps(plan, done, values, s.acts, name);
    } else {
      var t := Look(owner, number, s);
      LookInProgress(plan, done, values, owner, number, s);
      if name !in plan.byName {
        SkippedKeeps(plan, done, values, t.acts, name);
      } else {
        var reg := plan.byName[name];
        TookInProgress(plan, done, reg.topic, name, values, ReadSingle(RuleOf(reg), plan.readRetries, plan.readBackoff, t.world), t);
      }
    }
  }

  lemma {:induction false} BackInProgress(plan: Plan, done: seq<string>, owner: string, number: nat, names: seq<string>, values: map<string, string>, s: Scene)
    requires InProgress(plan, done, values, s.acts)
    ensures var r := BackFrom(plan, owner, number, names, values, s); r.values.Some? ==> InProgress(plan, done + names, r.values.value, r.scene.acts)
    decreases |names|
  {
    hide InProgress, StepBack;
    if names == [] {
      assert done + names == done;
    } else {
      var step := StepBack(plan, owner, number, names[0], values, s);
      StepBackInProgress(plan, done, owner, number, names[0], values, s);
      BackUnfolds(plan, owner, number, names, values, s, step);
      if step.Kept? {
        BackInProgress(plan, done + [names[0]], owner, number, names[1..], step.values, step.scene);
        assert done + [names[0]] + names[1..] == done + names;
      }
    }
  }

  /** Nothing was read since the last send. */
  ghost predicate Fresh(acts: seq<Act>) { FirstRead(acts).None? && forall name :: ReadsOf(acts, name) == [] }

  lemma FreshBegins(plan: Plan, acts: seq<Act>)
    requires Fresh(acts)
    ensures InProgress(plan, [], map[], acts)
  {
  }

  lemma FreshLook(owner: string, number: nat, s: Scene)
    requires Fresh(s.acts)
    ensures Fresh(Look(owner, number, s).acts)
  {
    if number != 0 {
      var a := Checked(Count(s.Looked(owner).accepted, owner) == number);
      forall name ensures ReadsOf(s.acts + [a], name) == [] {
        ReadsGrow(s.acts, a, name);
      }
      ReadsGrow(s.acts, a, "");
    }
  }

  /** A whole read-back that was not abandoned. */
  lemma ReadBackIsFull(plan: Plan, reg: WriteRegister, number: nat, s: Scene)
    requires Fresh(s.acts)
    ensures var r := ReadBackRun(plan, reg, number, s); r.values.Some? ==> InProgress(plan, Names(reg), r.values.value, r.scene.acts)
  {
    hide InProgress, Fresh;
    FreshBegins(plan, s.acts);
    BackInProgress(plan, [], reg.name, number, Names(reg), map[], s);
    assert [] + Names(reg) == Names(reg);
  }

  // ---- a command's read-back -------------------------------------------------------

  /** Each verdict comes after a full read-back since the send it judges. */
  ghost predicate Thorough(plan: Plan, reg: WriteRegister, acts: seq<Act>) {
    acts == [] ||
    (Thorough(plan, reg, acts[..|acts| - 1]) &&
     (acts[|acts| - 1].Judged? && Checkable(plan, reg) ==> ReadBackInFull(plan, reg, acts[..|acts| - 1])))
  }

  lemma ThoroughGrows(plan: Plan, reg: WriteRegister, acts: seq<Act>, a: Act)
    requires Thorough(plan, reg, acts) && (a.Judged? && Checkable(plan, reg) ==> ReadBackInFull(plan, reg, acts))
    ensures Thorough(plan, reg, acts + [a])
  {
    hide ReadBackInFull;
    assert (acts + [a])[..|acts|] == acts;
  }

  lemma {:induction false} SendThorough(o: Order, attempt: nat, k: nat, s: Scene)
    requires attempt + k == o.plan.retries + 1 && Thorough(o.plan, o.reg, s.acts)
    ensures var r := SendFrom(o.plan, o.command, attempt, s); Thorough(o.plan, o.reg, r.scene.acts) && (r.outcome.Delivered? ==> Fresh(r.scene.acts))
    decreases k
  {
    hide Thorough, Fresh, StepSend, SendFrom;
    if k == 0 {
      NoMoreSends(o, attempt, s);
    } else {
      var step := StepSend(o.plan, o.command, attempt, s);
      StepSendThorough(o, attempt, s);
      SendUnfolds(o.plan, o.command, attempt, s, step);
      if step.SendAgain? {
        SendThorough(o, attempt + 1, k - 1, step.scene);
      }
    }
  }

  lemma NoMoreSends(o: Order, attempt: nat, s: Scene)
    requires attempt > o.plan.retries
    ensures SendFrom(o.plan, o.command, attempt, s) == SendRun(SendFailed, s)
  {
  }

  lemma StepSendThorough(o: Order, attempt: nat, s: Scene)
    requires Thorough(o.plan, o.reg, s.acts)
    ensures var step := StepSend(o.plan, o.command, attempt, s);
      Thorough(o.plan, o.reg, step.scene.acts) && (step.SendDone? && step.outcome.Delivered? ==> Fresh(step.scene.acts))
  {
    hide Thorough, Fresh, Checkable;
    var tried := Tried(o.command, s.NextSend().answer);
    ThoroughGrows(o.plan, o.reg, s.acts, tried);
    if tried.answer.Taken? {
      DeliveryIsFresh(s.acts, tried);
    }
  }

  lemma DeliveryIsFresh(acts: seq<Act>, a: Act)
    requires IsDelivery(a)
    ensures Fresh(acts + [a])
  {
  }

  lemma {:induction false} BackThorough(plan: Plan, reg: WriteRegister, owner: string, names: seq<string>, values: map<string, string>, s: Scene)
    requires Thorough(plan, reg, s.acts)
    ensures Thorough(plan, reg, BackFrom(plan, owner, 0, names, values, s).scene.acts)
    decreases |names|
  {
    hide Thorough, StepBack;
    if names != [] {
      var step := StepBack(plan, owner, 0, names[0], values, s);
      StepBackThorough(plan, reg, owner, names[0], values, s);
      BackUnfolds(plan, owner, 0, names, values, s, step);
      if step.Kept? {
        BackThorough(plan, reg, owner, names[1..], step.values, step.scene);
      }
    }
  }

  lemma StepBackThorough(plan: Plan, reg: WriteRegister, owner: string, name: string, values: map<string, string>, s: Scene)
    requires Thorough(plan, reg, s.acts)
    ensures Thorough(plan, reg, StepBack(plan, owner, 0, name, values, s).scene.acts)
  {
    hide Thorough;
    if name !in values && name in plan.byName {
      var r := ReadSingle(RuleOf(plan.byName[name]), plan.readRetries, plan.readBackoff, s.world);
      var read := ReadBack(name, s.world, r.outcome);
      ThoroughGrows(plan, reg, s.acts, read);
      if r.outcome.Read? && plan.byName[name].topic != "" {
        ThoroughGrows(plan, reg, s.acts + [read], Published(plan.byName[name].topic, r.outcome.sample.text));
      }
    }
  }

  lemma VerifyThorough(o: Order, s: Scene)
    requires Thorough(o.plan, o.reg, s.acts) && Fresh(s.acts)
    ensures Thorough(o.plan, o.reg, Verify(o.plan, o.reg, o.value, s).scene.acts)
  {
    hide Thorough, Fresh, ReadInFull, ReadBackInFull;
    var back, v := ReadBackRun(o.plan, o.reg, 0, s), Verify(o.plan, o.reg, o.value, s);
    ReadBackIsFull(o.plan, o.reg, 0, s);
    if Checkable(o.plan, o.reg) {
      BackThorough(o.plan, o.reg, o.reg.name, Names(o.reg), map[], s);
      NeverAbandoned(o.plan, o.reg.name, Names(o.reg), map[], s);
      NamesMean(o.plan, o.reg, back.scene.acts);
    }
    ThoroughGrows(o.plan, o.reg, back.scene.acts, Judged(v.verdict.pass));
  }

  lemma StepWriteThorough(o: Order, attempt: nat, s: Scene)
    requires Thorough(o.plan, o.reg, s.acts)
    ensures Thorough(o.plan, o.reg, StepWrite(o, attempt, s).scene.acts)
  {
    hide Thorough, Fresh, SendFrom, Verify;
    var sent := SendFrom(o.plan, o.command, 1, s);
    SendThorough(o, 1, o.plan.retries, s);
    if sent.outcome.Delivered? {
      var t := Remembered(o.topic, Itoa(o.value), sent.scene);
      var slept := Sleep(t.world, o.plan.settleDelay);
      if slept.ok {
        VerifyThorough(o, t.(world := slept.world));
      }
    }
  }

  lemma {:induction false} WriteThorough(o: Order, attempt: nat, s: Scene)
    requires Thorough(o.plan, o.reg, s.acts)
    ensures Thorough(o.plan, o.reg, WriteFrom(o, attempt, s).scene.acts)
    decreases Max(0, WRITE_ATTEMPTS - attempt)
  {
    hide Thorough, StepWrite;
    var step := StepWrite(o, attempt, s);
    StepWriteThorough(o, attempt, s);
    WriteUnfolds(o, attempt, s, step);
    if step.Resend? {
      WriteThorough(o, attempt + 1, step.scene);
    }
  }

  /** A command's read-backs are thorough: every verdict comes after every listed register that is
      configured was read, state_from first, each until it gave a reading. */
  lemma CommandReadsInFull(plan: Plan, topic: string, message: string, s: Scene)
    requires IsValid(plan, topic, message)
    ensures Thorough(plan, plan.byTopic[topic], Handle(plan, topic, message, s).scene.acts)
  {
    hide Thorough, WriteFrom;
    AcceptedIsCarried(plan, topic, message, s);
    assert Thorough(plan, plan.byTopic[topic], []) by { EmptyIsThorough(plan, plan.byTopic[topic]); }
    if !Dropped(plan, topic, message, s) {
      var o, idle := OrderOf(plan, topic, message), s.(acts := []);
      var step := WriteFrom(o, 1, NextSequence(o.reg.name, idle));
      WriteThorough(o, 1, NextSequence(o.reg.name, idle));
      if step.Settled? {
        ThoroughGrows(plan, o.reg, step.scene.acts, StatePublished(o.reg.topic, if step.verdict.actual.Some? then step.verdict.actual.value else Itoa(o.value)));
      }
    }
  }

  lemma EmptyIsThorough(plan: Plan, reg: WriteRegister)
    ensures Thorough(plan, reg, [])
  {
  }

  // ---- a settle re-read ------------------------------------------------------------

  /** The number is the newest as long as no newer command was accepted. */
  ghost predicate Current(bumps: seq<nat>, name: string, number: nat, s: Scene) {
    && s.bumps == Supersession.After(bumps, |Checks(s.acts)|)
    && (NoBump(bumps, |Checks(s.acts)|) ==> Count(s.accepted, name) == number)
  }

  lemma LookIsCurrent(bumps: seq<nat>, name: string, number: nat, s: Scene)
    requires number > 0 && Current(bumps, name, number, s)
    ensures Current(bumps, name, number, Look(name, number, s))
  {
    var k := |Checks(s.acts)|;
    ChecksGrow(s.acts, Checked(Count(s.Looked(name).accepted, name) == number));
    assert k < |bumps| ==> s.bumps[0] == bumps[k] && s.bumps[1..] == Supersession.After(bumps, k + 1);
    NoBumpGrows(bumps, k);
  }

  lemma ActIsCurrent(bumps: seq<nat>, name: string, number: nat, s: Scene, a: Act)
    requires Current(bumps, name, number, s) && !a.Checked?
    ensures Current(bumps, name, number, s.Act(a))
  {
    ChecksGrow(s.acts, a);
  }

  lemma StepBackIsCurrent(plan: Plan, bumps: seq<nat>, owner: string, number: nat, name: string, values: map<string, string>, s: Scene)
    requires number > 0 && Current(bumps, owner, number, s)
    ensures var step := StepBack(plan, owner, number, name, values, s);
      Current(bumps, owner, number, step.scene) && (step.Abandoned? ==> !NoBump(bumps, |Checks(step.scene.acts)|))
  {
    if name !in values {
      var t := Look(owner, number, s);
      LookIsCurrent(bumps, owner, number, s);
      if Count(t.accepted, owner) == number && name in plan.byName {
        var r := ReadSingle(RuleOf(plan.byName[name]), plan.readRetries, plan.readBackoff, t.world);
        var read, topic := ReadBack(name, t.world, r.outcome), plan.byName[name].topic;
        ActIsCurrent(bumps, owner, number, t.(world := r.world), read);
        if r.outcome.Read? && topic != "" {
          ActIsCurrent(bumps, owner, number, t.(world := r.world).Act(read), Published(topic, r.outcome.sample.text));
        }
      }
    }
  }

  lemma {:induction false} BackIsCurrent(plan: Plan, bumps: seq<nat>, owner: string, number: nat, names: seq<string>, values: map<string, string>, s: Scene)
    requires number > 0 && Current(bumps, owner, number, s)
    ensures var r := BackFrom(plan, owner, number, names, values, s);
      Current(bumps, owner, number, r.scene) && (r.values.None? ==> !NoBump(bumps, |Checks(r.scene.acts)|))
    decreases |names|
  {
    hide Current, NoBump, StepBack;
    if names != [] {
      var step := StepBack(plan, owner, number, names[0], values, s);
      StepBackIsCurrent(plan, bumps, owner, number, names[0], values, s);
      BackUnfolds(plan, owner, number, names, values, s, step);
      if step.Kept? {
        BackIsCurrent(plan, bumps, owner, number, names[1..], step.values, step.scene);
      }
    }
  }

  /** What a re-read shows in the end: the reading of state_from, if there is a state topic and one
      came, as its last act and its only one of the kind; and otherwise no state. */
  ghost predicate ShowsSettled(reg: WriteRegister, acts: seq<Act>) {
    var outcomes := ReadsOf(acts, reg.stateFrom);
    if reg.topic != "" && reg.stateFrom != "" && GotSample(outcomes) then
      && acts != [] && acts[|acts| - 1] == StatePublished(reg.topic, outcomes[|outcomes| - 1].sample.text)
      && NoState(acts[..|acts| - 1])
    else NoState(acts)
  }

  lemma ShownIsSettled(plan: Plan, reg: WriteRegister, values: map<string, string>, acts: seq<Act>)
    requires InProgress(plan, Names(reg), values, acts) && NoState(acts) && reg.stateFrom != "" && reg.topic != "" && reg.stateFrom in values
    ensures var more := acts + [StatePublished(reg.topic, values[reg.stateFrom])]; ReadInFull(plan, Names(reg), more) && ShowsSettled(reg, more)
  {
    var shown := StatePublished(reg.topic, values[reg.stateFrom]);
    OtherActKeeps(plan, Names(reg), values, acts, shown);
    ReadsGrow(acts, shown, reg.stateFrom);
    hide ReadInFull, ReadsOf;
    assert (acts + [shown])[..|acts|] == acts;
  }

  lemma NothingSettled(plan: Plan, reg: WriteRegister, values: map<string, string>, acts: seq<Act>)
    requires InProgress(plan, Names(reg), values, acts) && NoState(acts) && (reg.stateFrom == "" || reg.topic == "" || reg.stateFrom !in values)
    ensures ReadInFull(plan, Names(reg), acts) && ShowsSettled(reg, acts)
  {
    hide ReadInFull, ReadsOf;
  }

  lemma SettledIsShown(plan: Plan, bumps: seq<nat>, reg: WriteRegister, number: nat, values: map<string, string>, s: Scene)
    requires number > 0 && Current(bumps, reg.name, number, s) && InProgress(plan, Names(reg), values, s.acts) && NoState(s.acts)
    requires NoBump(bumps, |Checks(RefreshState(reg, number, values, s).acts)|)
    ensures var t := RefreshState(reg, number, values, s); ReadInFull(plan, Names(reg), t.acts) && ShowsSettled(reg, t.acts)
  {
    if reg.stateFrom == "" || reg.topic == "" || reg.stateFrom !in values {
      NothingSettled(plan, reg, values, s.acts);
      return;
    }
    var t := Look(reg.name, number, s);
    var shown := StatePublished(reg.topic, values[reg.stateFrom]);
    LookInProgress(plan, Names(reg), values, reg.name, number, s);
    LookIsCurrent(bumps, reg.name, number, s);
    ChecksGrow(t.acts, shown);
    hide Current, InProgress, ReadInFull, ShowsSettled, NoBump, Checks;
    CurrentMeans(bumps, reg.name, number, t);
    ShownIsSettled(plan, reg, values, t.acts);
  }

  lemma BackShowsNoState(plan: Plan, reg: WriteRegister, number: nat, s: Scene)
    requires number > 0 && NoState(s.acts)
    ensures NoState(ReadBackRun(plan, reg, number, s).scene.acts)
  {
    if Checkable(plan, reg) {
      BackHasNoState(plan, reg.name, number, Names(reg), map[], s);
    }
  }

  lemma StillNoState(acts: seq<Act>, a: Act)
    requires NoState(acts) && !a.StatePublished?
    ensures NoState(acts + [a])
  {
  }

  lemma StepHasNoState(plan: Plan, owner: string, number: nat, name: string, values: map<string, string>, s: Scene)
    requires NoState(s.acts)
    ensures NoState(StepBack(plan, owner, number, name, values, s).scene.acts)
  {
    hide NoState;
    if name !in values {
      var t := Look(owner, number, s);
      if number != 0 {
        StillNoState(s.acts, Checked(Count(t.accepted, owner) == number));
      }
      if !(number != 0 && Count(t.accepted, owner) != number) && name in plan.byName {
        var r := ReadSingle(RuleOf(plan.byName[name]), plan.readRetries, plan.readBackoff, t.world);
        var read := ReadBack(name, t.world, r.outcome);
        StillNoState(t.acts, read);
        if r.outcome.Read? && plan.byName[name].topic != "" {
          StillNoState(t.acts + [read], Published(plan.byName[name].topic, r.outcome.sample.text));
        }
      }
    }
  }

  lemma {:induction false} BackHasNoState(plan: Plan, owner: string, number: nat, names: seq<string>, values: map<string, string>, s: Scene)
    requires NoState(s.acts)
    ensures NoState(BackFrom(plan, owner, number, names, values, s).scene.acts)
    decreases |names|
  {
    hide NoState, StepBack;
    if names != [] {
      var step := StepBack(plan, owner, number, names[0], values, s);
      StepHasNoState(plan, owner, number, names[0], values, s);
      BackUnfolds(plan, owner, number, names, values, s, step);
      if step.Kept? {
        BackHasNoState(plan, owner, number, names[1..], step.values, step.scene);
      }
    }
  }

  lemma HeldDoesItsWork(plan: Plan, bumps: seq<nat>, reg: WriteRegister, number: nat, s: Scene)
    requires number > 0 && Checkable(plan, reg) && Current(bumps, reg.name, number, s) && Fresh(s.acts) && NoState(s.acts)
    requires NoBump(bumps, |Checks(RefreshHeld(plan, reg, number, s).acts)|)
    ensures var acts := RefreshHeld(plan, reg, number, s).acts; ReadInFull(plan, Names(reg), acts) && ShowsSettled(reg, acts)
  {
    hide Current, InProgress, Fresh, ReadInFull, ShowsSettled, NoBump, NoState, BackFrom, RefreshState, Checks;
    var back := ReadBackRun(plan, reg, number, s);
    ReadBackIsFull(plan, reg, number, s);
    BackIsCurrent(plan, bumps, reg.name, number, Names(reg), map[], s);
    BackShowsNoState(plan, reg, number, s);
    if back.values.Some? {
      SettledIsShown(plan, bumps, reg, number, back.values.value, back.scene);
    }
  }

  lemma FirstLookIsCurrent(name: string, number: nat, s: Scene)
    requires number > 0 && s.acts == [] && Count(s.accepted, name) == number
    ensures var t := Look(name, number, s); Current(s.bumps, name, number, t) && Fresh(t.acts) && NoState(t.acts)
  {
    assert Supersession.After(s.bumps, 0) == s.bumps && Checks(s.acts) == [] && Fresh(s.acts);
    LookIsCurrent(s.bumps, name, number, s);
    FreshLook(name, number, s);
  }

  /** A re-read that no newer command overtakes does its work: it reads every listed register that
      is configured, state_from first, and then shows the settled state, if it got one. */
  lemma RefreshDoesItsWork(plan: Plan, reg: WriteRegister, number: nat, s: Scene)
    requires number > 0 && Count(s.accepted, reg.name) == number && Checkable(plan, reg)
    requires NoBump(s.bumps, |Checks(Refresh(plan, reg, number, s).acts)|)
    ensures var acts := Refresh(plan, reg, number, s).acts; ReadBackInFull(plan, reg, acts) && ShowsSettled(reg, acts)
  {
    hide Current, Fresh, ReadInFull, ReadBackInFull, ShowsSettled, NoBump, NoState, RefreshHeld, Checks, Look;
    var t := Look(reg.name, number, s.(acts := []));
    FirstLookIsCurrent(reg.name, number, s.(acts := []));
    if Count(t.accepted, reg.name) == number {
      HeldDoesItsWork(plan, s.bumps, reg, number, t);
      NamesMean(plan, reg, RefreshHeld(plan, reg, number, t).acts);
    } else {
      CurrentMeans(s.bumps, reg.name, number, t);
    }
  }

  lemma CurrentMeans(bumps: seq<nat>, name: string, number: nat, s: Scene)
    requires Current(bumps, name, number, s) && NoBump(bumps, |Checks(s.acts)|)
    ensures Count(s.accepted, name) == number
  {
  }
}
