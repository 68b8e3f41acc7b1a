/** What was read, as the wire had it: every read that a call notes was made in the world the
    call had reached, and returned what a confirmed read returns there. And time goes on. */
module ReadTrace {
  import opened Basics
  import opened Samples
  import opened ConfirmedRead
  import opened ReadTimes
  import opened CheckedPublish
  import opened Writing

  /** The part of a world that only reads change: the replies to come, how many came, and what
      is trusted. */
  datatype Wire = Wire(replies: seq<Reply>, asked: nat, trusted: map<string, int>)

  function WireOf(w: World): Wire { Wire(w.replies, w.asked, w.trusted) }

  /** The confirmed read of a configured register. */
  function ReadIn(plan: Plan, name: string, w: World): ReadRun
    requires name in plan.byName
  {
    ReadSingle(RuleOf(plan.byName[name]), plan.readRetries, plan.readBackoff, w)
  }

  /** The wire after these acts, if it was `start` before them. */
  function WireAfter(plan: Plan, start: Wire, acts: seq<Act>): Wire {
    if acts == [] then start
    else
      match acts[|acts| - 1]
      case ReadBack(name, asked, _) => 
        if name in plan.byName then WireOf(ReadIn(plan, name, asked).world) else WireAfter(plan, start, acts[..|acts| - 1])
      case _ => WireAfter(plan, start, acts[..|acts| - 1])
  }

  /** A read that was made on the wire as it was then, and what it returned. */
  predicate GenuineRead(plan: Plan, wire: Wire, a: Act) {
    a.ReadBack? ==> a.name in plan.byName && WireOf(a.asked) == wire && a.outcome == ReadIn(plan, a.name, a.asked).outcome
  }

  predicate Genuine(plan: Plan, start: Wire, acts: seq<Act>) {
    acts == [] || (Genuine(plan, start, acts[..|acts| - 1]) && GenuineRead(plan, WireAfter(plan, start, acts[..|acts| - 1]), acts[|acts| - 1]))
  }

  predicate Traced(plan: Plan, start: Wire, s: Scene) {
    Genuine(plan, start, s.acts) && WireAfter(plan, start, s.acts) == WireOf(s.world)
  }

  /** t comes after s, and reads as truthfully. */
  predicate GoesOn(plan: Plan, start: Wire, s: Scene, t: Scene) {
    s.world.now <= t.world.now && (Traced(plan, start, s) ==> Traced(plan, start, t))
  }

  lemma TraceGrows(plan: Plan, start: Wire, acts: seq<Act>, a: Act)
    ensures Genuine(plan, start, acts + [a]) == (Genuine(plan, start, acts) && GenuineRead(plan, WireAfter(plan, start, acts), a))
    ensures !a.ReadBack? ==> WireAfter(plan, start, acts + [a]) == WireAfter(plan, start, acts)
    ensures a.ReadBack? && a.name in plan.byName ==> WireAfter(plan, start, acts + [a]) == WireOf(ReadIn(plan, a.name, a.asked).world)
  {
    assert (acts + [a])[..|acts|] == acts;
  }

  lemma ActGoesOn(plan: Plan, start: Wire, s: Scene, a: Act)
    requires !a.ReadBack?
    ensures GoesOn(plan, start, s, s.Act(a))
  {
    TraceGrows(plan, start, s.acts, a);
  }

  lemma TimeGoesOn(plan: Plan, start: Wire, s: Scene, t: Scene)
    requires t.acts == s.acts && WireOf(t.world) == WireOf(s.world) && s.world.now <= t.world.now
    ensures GoesOn(plan, start, s, t)
  {
  }

  lemma Follows(plan: Plan, start: Wire, s: Scene, t: Scene, u: Scene)
    requires GoesOn(plan, start, s, t) && GoesOn(plan, start, t, u)
    ensures GoesOn(plan, start, s, u)
  {
  }

  // ---- sending ---------------------------------------------------------------------

  lemma SleepGoesOn(w: World, d: int)
    ensures WireOf(Sleep(w, d).world) == WireOf(w) && w.now <= Sleep(w, d).world.now
  {
  }

  lemma SentGoesOn(plan: Plan, start: Wire, s: Scene, command: string)
    ensures GoesOn(plan, start, s, s.Sent(command))
  {
    var t := s.(world := s.world.(now := s.world.now + s.NextSend().took), sends := if s.sends == [] then [] else s.sends[1..]);
    TimeGoesOn(plan, start, s, t);
    ActGoesOn(plan, start, t, Tried(command, s.NextSend().answer));
    assert s.Sent(command) == t.Act(Tried(command, s.NextSend().answer));
  }

  lemma StepSendGoesOn(plan: Plan, start: Wire, command: string, attempt: nat, s: Scene)
    ensures GoesOn(plan, start, s, StepSend(plan, command, attempt, s).scene)
  {
    var slept := Pause(plan.backoff, attempt, s.world.Checked());
    SleepGoesOn(s.world.Checked(), plan.backoff);
    var t := s.(world := slept.world);
    TimeGoesOn(plan, start, s, t);
    SentGoesOn(plan, start, t, command);
  }

  lemma {:induction false} SendGoesOn(plan: Plan, start: Wire, command: string, attempt: nat, k: nat, s: Scene)
    requires attempt + k == plan.retries + 1
    ensures GoesOn(plan, start, s, SendFrom(plan, command, attempt, s).scene)
    decreases k
  {
    if k > 0 {
      var step := StepSend(plan, command, attempt, s);
      StepSendGoesOn(plan, start, command, attempt, s);
      SendUnfolds(plan, command, attempt, s, step);
      if step.SendAgain? {
        SendGoesOn(plan, start, command, attempt + 1, k - 1, step.scene);
        Follows(plan, start, s, step.scene, SendFrom(plan, command, attempt + 1, step.scene).scene);
      }
    }
  }

  // ---- reading back ----------------------------------------------------------------

  lemma ReadGoesOn(plan: Plan, start: Wire, name: string, s: Scene, r: ReadRun)
    requires name in plan.byName && r == ReadIn(plan, name, s.world)
    ensures GoesOn(plan, start, s, s.(world := r.world).Act(ReadBack(name, s.world, r.outcome)))
  {
    ReadIsLater(RuleOf(plan.byName[name]), plan.readRetries, plan.readBackoff, 1, plan.readRetries, [], s.world);
    TraceGrows(plan, start, s.acts, ReadBack(name, s.world, r.outcome));
  }

  lemma TookGoesOn(plan: Plan, start: Wire, topic: string, name: string, values: map<string, string>, s: Scene, r: ReadRun)
    requires name in plan.byName && r == ReadIn(plan, name, s.world)
    ensures GoesOn(plan, start, s, Took(topic, name, values, r, s).scene)
  {
    var t := s.(world := r.world).Act(ReadBack(name, s.world, r.outcome));
    ReadGoesOn(plan, start, name, s, r);
    if r.outcome.Read? && topic != "" {
      var a := Published(topic, r.outcome.sample.text);
      ActGoesOn(plan, start, t, a);
      Follows(plan, start, s, t, t.Act(a));
    }
  }

  lemma LookGoesOn(plan: Plan, start: Wire, name: string, number: nat, s: Scene)
    ensures GoesOn(plan, start, s, Look(name, number, s))
  {
    var t := s.Looked(name);
    TimeGoesOn(plan, start, s, t);
    ActGoesOn(plan, start, t, Checked(Count(t.accepted, name) == number));
  }

  lemma StepBackGoesOn(plan: Plan, start: Wire, owner: string, number: nat, name: string, values: map<string, string>, s: Scene)
    ensures GoesOn(plan, start, s, StepBack(plan, owner, number, name, values, s).scene)
  {
    if name !in values {
      var t := Look(owner, number, s);
      LookGoesOn(plan, start, owner, number, s);
      if !(number != 0 && Count(t.accepted, owner) != number) && name in plan.byName {
        var r, topic := ReadIn(plan, name, t.world), plan.byName[name].topic;
        TookGoesOn(plan, start, topic, name, values, t, r);
        Follows(plan, start, s, t, Took(topic, name, values, r, t).scene);
      }
    }
  }

  lemma {:induction false} BackGoesOn(plan: Plan, start: Wire, owner: string, number: nat, names: seq<string>, values: map<string, string>, s: Scene)
    ensures GoesOn(plan, start, s, BackFrom(plan, owner, number, names, values, s).scene)
    decreases |names|
  {
    if names != [] {
      var step := StepBack(plan, owner, number, names[0], values, s);
      StepBackGoesOn(plan, start, owner, number, names[0], values, s);
      BackUnfolds(plan, owner, number, names, values, s, step);
      if step.Kept? {
        BackGoesOn(plan, start, owner, number, names[1..], step.values, step.scene);
        Follows(plan, start, s, step.scene, BackFrom(plan, owner, number, names[1..], step.values, step.scene).scene);
      }
    }
  }

  lemma ReadBackGoesOn(plan: Plan, start: Wire, reg: WriteRegister, number: nat, s: Scene)
    ensures GoesOn(plan, start, s, ReadBackRun(plan, reg, number, s).scene)
  {
    BackGoesOn(plan, start, reg.name, number, Names(reg), map[], s);
  }

  // ---- a command -------------------------------------------------------------------

  lemma VerifyGoesOn(plan: Plan, start: Wire, reg: WriteRegister, value: int, s: Scene)
    ensures GoesOn(plan, start, s, Verify(plan, reg, value, s).scene)
  {
    var back, v := ReadBackRun(plan, reg, 0, s), Verify(plan, reg, value, s);
    ReadBackGoesOn(plan, start, reg, 0, s);
    ActGoesOn(plan, start, back.scene, Judged(v.verdict.pass));
    Follows(plan, start, s, back.scene, v.scene);
  }

  lemma SettleGoesOn(o: Order, start: Wire, attempt: nat, s: Scene)
    ensures GoesOn(o.plan, start, s, Settle(o, attempt, s).scene)
  {
    var slept := Sleep(s.world, o.plan.settleDelay);
    var t := s.(world := slept.world);
    SleepGoesOn(s.world, o.plan.settleDelay);
    TimeGoesOn(o.plan, start, s, t);
    if slept.ok {
      VerifyGoesOn(o.plan, start, o.reg, o.value, t);
      Follows(o.plan, start, s, t, Verify(o.plan, o.reg, o.value, t).scene);
    }
  }

  lemma StepWriteGoesOn(o: Order, start: Wire, attempt: nat, s: Scene)
    ensures GoesOn(o.plan, start, s, StepWrite(o, attempt, s).scene)
  {
    var sent := SendFrom(o.plan, o.command, 1, s);
    SendGoesOn(o.plan, start, o.command, 1, o.plan.retries, s);
    if sent.outcome.Delivered? {
      var t := Remembered(o.topic, Itoa(o.value), sent.scene);
      TimeGoesOn(o.plan, start, sent.scene, t);
      SettleGoesOn(o, start, attempt, t);
      Follows(o.plan, start, s, sent.scene, t);
      Follows(o.plan, start, s, t, Settle(o, attempt, t).scene);
    }
  }

  lemma {:induction false} WriteGoesOn(o: Order, start: Wire, attempt: nat, s: Scene)
    ensures GoesOn(o.plan, start, s, WriteFrom(o, attempt, s).scene)
    decreases Max(0, WRITE_ATTEMPTS - attempt)
  {
    var step := StepWrite(o, attempt, s);
    StepWriteGoesOn(o, start, attempt, s);
    WriteUnfolds(o, attempt, s, step);
    if step.Resend? {
      WriteGoesOn(o, start, attempt + 1, step.scene);
      Follows(o.plan, start, s, step.scene, WriteFrom(o, attempt + 1, step.scene).scene);
    }
  }

  lemma ConcludeGoesOn(o: Order, start: Wire, v: Verdict, s: Scene)
    ensures GoesOn(o.plan, start, s, Conclude(o, v, s).scene)
  {
    var t := PublishState(o.reg, Itoa(o.value), v, s);
    ActGoesOn(o.plan, start, s, StatePublished(o.reg.topic, if v.actual.Some? then v.actual.value else Itoa(o.value)));
    assert GoesOn(o.plan, start, s, t);
    TimeGoesOn(o.plan, start, t, Forgotten(o.topic, Itoa(o.value), t));
  }

  /** A command's reads are genuine, and it does not end before it begins. */
  lemma CarryGoesOn(o: Order, s: Scene)
    requires s.acts == []
    ensures Genuine(o.plan, WireOf(s.world), Carry(o, s).scene.acts) && s.world.now <= Carry(o, s).scene.world.now
  {
    var start, begun := WireOf(s.world), NextSequence(o.reg.name, s);
    var step := WriteFrom(o, 1, begun);
    assert Traced(o.plan, start, begun);
    WriteGoesOn(o, start, 1, begun);
    if step.Settled? {
      ConcludeGoesOn(o, start, step.verdict, step.scene);
    }
  }

  // ---- a settle re-read ------------------------------------------------------------

  lemma RefreshStateGoesOn(plan: Plan, start: Wire, reg: WriteRegister, number: nat, values: map<string, string>, s: Scene)
    ensures GoesOn(plan, start, s, RefreshState(reg, number, values, s))
  {
    if reg.stateFrom in values {
      var t, shown := Look(reg.name, number, s), StatePublished(reg.topic, values[reg.stateFrom]);
      LookGoesOn(plan, start, reg.name, number, s);
      ActGoesOn(plan, start, t, shown);
      Follows(plan, start, s, t, t.Act(shown));
    }
  }

  /** A re-read's reads are genuine. */
  lemma RefreshGoesOn(plan: Plan, reg: WriteRegister, number: nat, s: Scene)
    requires number > 0
    ensures Genuine(plan, WireOf(s.world), Refresh(plan, reg, number, s).acts)
  {
    var start, idle := WireOf(s.world), s.(acts := []);
    var t := Look(reg.name, number, idle);
    assert Traced(plan, start, idle);
    LookGoesOn(plan, start, reg.name, number, idle);
    var back := ReadBackRun(plan, reg, number, t);
    ReadBackGoesOn(plan, start, reg, number, t);
    if back.values.Some? {
      RefreshStateGoesOn(plan, start, reg, number, back.values.value, back.scene);
    }
  }

  // ---- what may be believed --------------------------------------------------------

  /** The value a read returned: near what was trusted when its last reading came, or in agreement
      with an earlier reading of the same call. */
  ghost predicate Believed(rule: Rule, w: World, k: nat, s: Sample) {
    && k > 0 && SampleAt(w, rule, k - 1) == Some(s)
    && (IsTrusted(TrustAfter(w, k), rule, s.tenths) || AgreesWithAny(s, SamplesUpTo(w, rule, k - 1), rule))
  }

  /** This act is a read of this register that returned this text, and could be believed. */
  ghost predicate TrustedReading(plan: Plan, a: Act, name: string, text: string) {
    && a.ReadBack? && a.name == name && name in plan.byName && a.outcome.Read? && a.outcome.sample.text == text
    && exists k :: 0 < k <= plan.readRetries && Believed(RuleOf(plan.byName[name]), a.asked, k, a.outcome.sample)
  }

  lemma {:induction false} GenuineThroughout(plan: Plan, start: Wire, acts: seq<Act>, i: nat)
    requires Genuine(plan, start, acts) && i < |acts|
    ensures GenuineRead(plan, WireAfter(plan, start, acts[..i]), acts[i])
  {
    var n := |acts| - 1;
    if i < n {
      GenuineThroughout(plan, start, acts[..n], i);
      assert acts[..n][..i] == acts[..i];
    }
  }

  lemma GenuineIsTrusted(plan: Plan, start: Wire, acts: seq<Act>, i: nat)
    requires Genuine(plan, start, acts) && i < |acts| && acts[i].ReadBack? && acts[i].outcome.Read?
    ensures TrustedReading(plan, acts[i], acts[i].name, acts[i].outcome.sample.text)
  {
    GenuineThroughout(plan, start, acts, i);
    var name, asked := acts[i].name, acts[i].asked;
    var rule := RuleOf(plan.byName[name]);
    ReadIsJustified(rule, plan.readRetries, plan.readBackoff, asked);
    var k :| 0 <= k <= plan.readRetries && Justified(rule, asked, k, ReadIn(plan, name, asked));
    assert Believed(rule, asked, k, acts[i].outcome.sample);
  }
}
