/** What a command does on every path through `HandleMessage`, and what its outcome means. */
module WriteContract {
  import opened Basics
  import opened Values
  import opened Samples
  import opened ConfirmedRead
  import opened CheckedPublish
  import opened Dedupe
  import opened Writing
  import opened ReadTrace

  // ---- the law of a command --------------------------------------------------------

  /** A running account of what a command has done: how often it was tried and sent, how often
      its read-back refused it, what was read back since the last send, the newest verdict, how
      often a state was published, which publication must come next, and whether every act so far
      was allowed where it came. */
  datatype Tally = Tally(tries: nat, sends: nat, refusals: nat, read: map<string, Sample>, passed: bool, shown: nat, owed: Option<Act>, lawful: bool)

  const NOTHING := Tally(0, 0, 0, map[], false, 0, None, true)

  /** A reading of this configured register, in range. */
  predicate SampleOf(plan: Plan, name: string, sample: Sample) {
    name in plan.byName && ToSample(sample.raw, plan.byName[name]) == Some(sample)
  }

  /** What was read back confirms the command. */
  predicate Confirms(o: Order, read: map<string, Sample>) {
    if o.reg.stateFrom != "" && o.reg.stateFrom in read then read[o.reg.stateFrom].text == Expected(o.plan, o.reg, o.value)
    else Checkable(o.plan, o.reg) ==> read != map[]
  }

  /** The publication of a reading to its register's own topic, if it has one. */
  function Owed(plan: Plan, name: string, sample: Sample): Option<Act> {
    if name in plan.byName && plan.byName[name].topic != "" then Some(Published(plan.byName[name].topic, sample.text)) else None
  }

  /** Whether an act is allowed after what came before:
      a try is of the one command, and only when every send before it was refused;
      each register is read back once, between a send and its verdict;
      each reading, and nothing else, is published to its own topic, at once;
      the verdict is what the readings say;
      and the state published is the reading of `state_from`, never the bare command, unless
      there is no `state_from`. */
  predicate Allowed(o: Order, t: Tally, a: Act) {
    (t.owed.Some? ==> t.owed == Some(a)) &&
    match a
    case Checked(_) => false
    case Tried(command, _) => command == o.command && t.sends == t.refusals
    case ReadBack(name, _, outcome) =>
      !t.passed && t.sends == t.refusals + 1 && name !in t.read && (outcome.Read? ==> SampleOf(o.plan, name, outcome.sample))
    case Judged(passed) => !t.passed && t.sends == t.refusals + 1 && passed == Confirms(o, t.read)
    case Published(_, _) => t.owed == Some(a)
    case StatePublished(topic, text) =>
      && topic == o.reg.topic
      && (if o.reg.stateFrom != "" then o.reg.stateFrom in t.read && t.read[o.reg.stateFrom].text == text
          else text == Itoa(o.value))
  }

  function Moved(o: Order, t: Tally, a: Act): Tally {
    match a
    case Tried(_, answer) =>
      if answer.Taken? then t.(tries := t.tries + 1, sends := t.sends + 1, read := map[]) else t.(tries := t.tries + 1)
    case ReadBack(name, _, outcome) =>
      if outcome.Read? then t.(read := t.read[name := outcome.sample], owed := Owed(o.plan, name, outcome.sample)) else t
    case Published(_, _) => t.(owed := None)
    case Judged(passed) => t.(passed := passed, refusals := t.refusals + if passed then 0 else 1)
    case StatePublished(_, _) => t.(shown := t.shown + 1)
    case _ => t
  }

  function Counted(o: Order, t: Tally, a: Act): Tally { Moved(o, t, a).(lawful := t.lawful && Allowed(o, t, a)) }

  function TallyOf(o: Order, acts: seq<Act>): Tally {
    if acts == [] then NOTHING else Counted(o, TallyOf(o, acts[..|acts| - 1]), acts[|acts| - 1])
  }

  lemma TallyGrows(o: Order, acts: seq<Act>, a: Act)
    ensures TallyOf(o, acts + [a]) == Counted(o, TallyOf(o, acts), a)
  {
    assert (acts + [a])[..|acts|] == acts;
  }

  /** What stays as it is while a command is sent and read back. */
  predicate SameRecords(s: Scene, t: Scene) {
    t.last == s.last && t.history == s.history && t.accepted == s.accepted && t.bumps == s.bumps
  }

  // ---- sending ---------------------------------------------------------------------

  /** The account after k more tries. */
  function AfterTries(t: Tally, k: nat, delivered: bool): Tally {
    if delivered then t.(tries := t.tries + k, sends := t.sends + 1, read := map[]) else t.(tries := t.tries + k)
  }

  /** The account when a command may be tried. */
  ghost predicate Ready(o: Order, s: Scene, t: Tally) { t.lawful && t.owed.None? && t.sends == t.refusals && TallyOf(o, s.acts) == t }

  lemma TriedCounts(o: Order, acts: seq<Act>, t: Tally, answer: SendAnswer)
    requires TallyOf(o, acts) == t && t.owed.None? && t.sends == t.refusals
    ensures TallyOf(o, acts + [Tried(o.command, answer)]) == AfterTries(t, 1, answer.Taken?)
  {
    TallyGrows(o, acts, Tried(o.command, answer));
  }

  /** An attempt tries the command once, or was cut short before. */
  ghost predicate SendTallied(o: Order, s: Scene, step: SendStep, t: Tally) {
    && SameRecords(s, step.scene)
    && match step
       case SendAgain(u) => TallyOf(o, u.acts) == AfterTries(t, 1, false)
       case SendDone(outcome, u) => TallyOf(o, u.acts) == AfterTries(t, 1, outcome.Delivered?) || (!outcome.Delivered? && TallyOf(o, u.acts) == t)
  }

  lemma WroteTally(o: Order, s: Scene, t: Tally)
    requires Ready(o, s, t)
    ensures SendTallied(o, s, Wrote(o.command, s), t)
  {
    hide TallyOf, AfterTries;
    TriedCounts(o, s.acts, t, s.NextSend().answer);
  }

  lemma StepSendTally(o: Order, attempt: nat, s: Scene, t: Tally)
    requires Ready(o, s, t)
    ensures SendTallied(o, s, StepSend(o.plan, o.command, attempt, s), t)
  {
    if s.world.ctx.Done() {
      return;
    }
    var slept := Pause(o.plan.backoff, attempt, s.world.Checked());
    if slept.ok {
      WroteTally(o, s.(world := slept.world), t);
    }
  }

  /** Sending took k tries. */
  ghost predicate SentTallied(o: Order, s: Scene, r: SendRun, t: Tally, k: nat) {
    SameRecords(s, r.scene) && TallyOf(o, r.scene.acts) == AfterTries(t, k, r.outcome.Delivered?)
  }

  lemma OneMoreTry(o: Order, s: Scene, u: Scene, r: SendRun, t: Tally, k: nat)
    requires SameRecords(s, u) && SentTallied(o, u, r, AfterTries(t, 1, false), k)
    ensures SentTallied(o, s, r, t, k + 1)
  {
  }

  lemma NoTry(o: Order, attempt: nat, s: Scene, t: Tally)
    requires attempt > o.plan.retries && Ready(o, s, t)
    ensures SentTallied(o, s, SendFrom(o.plan, o.command, attempt, s), t, 0)
  {
  }

  lemma TriedAgain(o: Order, s: Scene, step: SendStep, t: Tally)
    requires step.SendAgain? && SendTallied(o, s, step, t) && Ready(o, s, t)
    ensures SameRecords(s, step.scene) && Ready(o, step.scene, AfterTries(t, 1, false))
  {
  }

  lemma LastTry(o: Order, s: Scene, step: SendStep, t: Tally) returns (k: nat)
    requires step.SendDone? && SendTallied(o, s, step, t)
    ensures SentTallied(o, s, SendRun(step.outcome, step.scene), t, k) && k <= 1
  {
    k := if TallyOf(o, step.scene.acts) == AfterTries(t, 1, step.outcome.Delivered?) then 1 else 0;
  }

  lemma {:induction false} SendTally(o: Order, attempt: nat, s: Scene, t: Tally) returns (k: nat)
    requires attempt >= 1 && Ready(o, s, t)
    ensures SentTallied(o, s, SendFrom(o.plan, o.command, attempt, s), t, k) && k <= Max(0, o.plan.retries + 1 - attempt)
    decreases Max(0, o.plan.retries + 1 - attempt)
  {
    hide StepSend, SendFrom, SendTallied, SentTallied, SameRecords, TallyOf, AfterTries;
    if attempt > o.plan.retries {
      NoTry(o, attempt, s, t);
      return 0;
    }
    var step := StepSend(o.plan, o.command, attempt, s);
    StepSendTally(o, attempt, s, t);
    SendUnfolds(o.plan, o.command, attempt, s, step);
    if step.SendDone? {
      k := LastTry(o, s, step, t);
      return;
    }
    var rest := SendFrom(o.plan, o.command, attempt + 1, step.scene);
    TriedAgain(o, s, step, t);
    k := SendTally(o, attempt + 1, step.scene, AfterTries(t, 1, false));
    OneMoreTry(o, s, step.scene, rest, t, k);
    k := k + 1;
  }

  // ---- reading back ----------------------------------------------------------------

  function Texts(read: map<string, Sample>): map<string, string> { map name | name in read :: read[name].text }

  /** A value that a read returns is a sample of its register. */
  lemma ReadIsSample(reg: ReadRegister, retries: nat, backoff: int, w: World)
    ensures var o := ReadSingle(RuleOf(reg), retries, backoff, w).outcome;
      o.Read? ==> ToSample(o.sample.raw, reg) == Some(o.sample)
  {
    var rule := RuleOf(reg);
    var r := ReadSingle(rule, retries, backoff, w);
    ReadIsJustified(rule, retries, backoff, w);
    var k :| 0 <= k <= retries && Justified(rule, w, k, r);
    if r.outcome.Read? {
      var raw := ReplyAt(w, k - 1).answer.raw;
      assert rule.sample(raw) == ToSample(raw, reg) == Some(r.outcome.sample);
    }
  }

  /** The account of a read-back in progress: the values kept are the readings. */
  ghost predicate Reading(o: Order, s: Scene, t: Tally, values: map<string, string>) {
    t.lawful && !t.passed && t.owed.None? && t.sends == t.refusals + 1 && TallyOf(o, s.acts) == t && Texts(t.read) == values
  }

  lemma ReadBackCounts(o: Order, acts: seq<Act>, t: Tally, name: string, asked: World, outcome: ReadOutcome)
    requires TallyOf(o, acts) == t && !t.passed && t.owed.None? && t.sends == t.refusals + 1 && name !in t.read
    requires outcome.Read? ==> SampleOf(o.plan, name, outcome.sample)
    ensures TallyOf(o, acts + [ReadBack(name, asked, outcome)]) ==
              if outcome.Read? then t.(read := t.read[name := outcome.sample], owed := Owed(o.plan, name, outcome.sample)) else t
  {
    TallyGrows(o, acts, ReadBack(name, asked, outcome));
  }

  lemma PublishedCounts(o: Order, acts: seq<Act>, t: Tally, a: Act)
    requires TallyOf(o, acts) == t && t.owed == Some(a) && a.Published?
    ensures TallyOf(o, acts + [a]) == t.(owed := None)
  {
    TallyGrows(o, acts, a);
  }

  lemma JudgedCounts(o: Order, acts: seq<Act>, t: Tally, passed: bool)
    requires TallyOf(o, acts) == t && !t.passed && t.owed.None? && t.sends == t.refusals + 1 && passed == Confirms(o, t.read)
    ensures TallyOf(o, acts + [Judged(passed)]) == t.(passed := passed, refusals := t.refusals + if passed then 0 else 1)
  {
    TallyGrows(o, acts, Judged(passed));
  }

  lemma TextsGrow(read: map<string, Sample>, name: string, sample: Sample)
    ensures Texts(read[name := sample]) == Texts(read)[name := sample.text]
  {
  }

  /** One reading, and its publication. */
  lemma ReadingTally(o: Order, name: string, values: map<string, string>, s: Scene, t: Tally, asked: World, outcome: ReadOutcome)
    requires Reading(o, s, t, values) && name !in values && outcome.Read? && SampleOf(o.plan, name, outcome.sample)
    ensures Reading(o, Publish(o.plan.byName[name].topic, outcome.sample.text, s.Act(ReadBack(name, asked, outcome))),
                    t.(read := t.read[name := outcome.sample]), values[name := outcome.sample.text])
  {
    var sample := outcome.sample;
    var u := t.(read := t.read[name := sample], owed := Owed(o.plan, name, sample));
    assert name !in t.read by { assert Texts(t.read).Keys == t.read.Keys; }
    ReadBackCounts(o, s.acts, t, name, asked, outcome);
    if u.owed.Some? {
      PublishedCounts(o, s.acts + [ReadBack(name, asked, outcome)], u, u.owed.value);
    }
    TextsGrow(t.read, name, sample);
  }

  lemma TookTally(o: Order, name: string, values: map<string, string>, s: Scene, t: Tally, r: ReadRun) returns (read: map<string, Sample>)
    requires Reading(o, s, t, values) && name !in values && name in o.plan.byName
    requires r.outcome.Read? ==> SampleOf(o.plan, name, r.outcome.sample)
    ensures var step := Took(o.plan.byName[name].topic, name, values, r, s);
      step.Kept? && SameRecords(s, step.scene) && Reading(o, step.scene, t.(read := read), step.values)
  {
    read := t.read;
    if r.outcome.Read? {
      read := t.read[name := r.outcome.sample];
      ReadingTally(o, name, values, s.(world := r.world), t, s.world, r.outcome);
    } else {
      assert name !in t.read by { assert Texts(t.read).Keys == t.read.Keys; }
      ReadBackCounts(o, s.acts, t, name, s.world, r.outcome);
    }
  }

  lemma StepReadingTally(o: Order, name: string, values: map<string, string>, s: Scene, t: Tally) returns (read: map<string, Sample>)
    requires Reading(o, s, t, values) && name !in values && name in o.plan.byName
    ensures var step := StepReading(o.plan, o.plan.byName[name], name, values, s);
      step.Kept? && SameRecords(s, step.scene) && Reading(o, step.scene, t.(read := read), step.values)
  {
    var reg := o.plan.byName[name];
    var r := ReadSingle(RuleOf(reg), o.plan.readRetries, o.plan.readBackoff, s.world);
    assert r.outcome.Read? ==> SampleOf(o.plan, name, r.outcome.sample) by {
      ReadIsSample(reg, o.plan.readRetries, o.plan.readBackoff, s.world);
    }
    read := TookTally(o, name, values, s, t, r);
  }

  lemma StepBackTally(o: Order, name: string, values: map<string, string>, s: Scene, t: Tally) returns (read: map<string, Sample>)
    requires Reading(o, s, t, values)
    ensures var step := StepBack(o.plan, o.reg.name, 0, name, values, s);
      step.Kept? && SameRecords(s, step.scene) && Reading(o, step.scene, t.(read := read), step.values)
  {
    read := t.read;
    if name !in values && name in o.plan.byName {
      read := StepReadingTally(o, name, values, s, t);
    }
  }

  lemma {:induction false} BackTally(o: Order, names: seq<string>, values: map<string, string>, s: Scene, t: Tally)
    returns (read: map<string, Sample>)
    requires Reading(o, s, t, values)
    ensures var r := BackFrom(o.plan, o.reg.name, 0, names, values, s);
      r.values.Some? && SameRecords(s, r.scene) && Reading(o, r.scene, t.(read := read), r.values.value)
    decreases |names|
  {
    read := t.read;
    if names != [] {
      var step := StepBack(o.plan, o.reg.name, 0, names[0], values, s);
      BackUnfolds(o.plan, o.reg.name, 0, names, values, s, step);
      var more := StepBackTally(o, names[0], values, s, t);
      read := BackTally(o, names[1..], step.values, step.scene, t.(read := more));
    }
  }

  /** The verdict on what was read back. */
  ghost predicate VerdictOn(o: Order, v: Verdict, read: map<string, Sample>) {
    && v.pass == Confirms(o, read)
    && v.actual == if o.reg.stateFrom != "" && o.reg.stateFrom in read then Some(read[o.reg.stateFrom].text) else None
  }

  lemma JudgementIsVerdict(o: Order, read: map<string, Sample>)
    ensures VerdictOn(o, Judgement(o.plan, o.reg, o.value, Texts(read)), read)
  {
    assert Texts(read).Keys == read.Keys;
    assert Texts(read) == map[] <==> read == map[];
  }

  lemma VerifyTally(o: Order, s: Scene, t: Tally) returns (read: map<string, Sample>)
    requires t.lawful && !t.passed && t.owed.None? && t.sends == t.refusals + 1 && t.read == map[] && TallyOf(o, s.acts) == t
    ensures var r := Verify(o.plan, o.reg, o.value, s);
      && SameRecords(s, r.scene) && VerdictOn(o, r.verdict, read)
      && TallyOf(o, r.scene.acts) == t.(read := read, passed := r.verdict.pass, refusals := t.refusals + if r.verdict.pass then 0 else 1)
  {
    var back := ReadBackRun(o.plan, o.reg, 0, s);
    read := map[];
    assert Texts(map[]) == map[];
    if Checkable(o.plan, o.reg) {
      read := BackTally(o, Names(o.reg), map[], s, t);
    }
    JudgementIsVerdict(o, read);
    JudgedCounts(o, back.scene.acts, t.(read := read), Confirms(o, read));
  }

  // ---- the attempts ----------------------------------------------------------------

  /** The account of a step: every earlier send was refused, and this one was not made, was
      made but not read back, or was judged. */
  ghost predicate StepAccount(o: Order, step: WriteStep, t: Tally, sends: nat) {
    && TallyOf(o, step.scene.acts) == t && t.lawful && t.shown == 0 && t.owed.None?
    && match step
       case Aborted(outcome, _) => !t.passed && t.refusals == sends && ((outcome == NotSent && t.sends == sends) || (outcome == Interrupted && t.sends == sends + 1))
       case Settled(v, _) => t.sends == sends + 1 && VerdictOn(o, v, t.read) && t.passed == v.pass && t.refusals == sends + if v.pass then 0 else 1
       case Resend(_) => !t.passed && t.sends == t.refusals == sends + 1 && sends + 1 < WRITE_ATTEMPTS
  }

  lemma DecideTally(o: Order, v: VerifyRun, t: Tally, sends: nat)
    requires t.lawful && t.shown == 0 && t.owed.None? && t.sends == sends + 1 && TallyOf(o, v.scene.acts) == t && VerdictOn(o, v.verdict, t.read)
    requires t.passed == v.verdict.pass && t.refusals == sends + if v.verdict.pass then 0 else 1
    ensures StepAccount(o, Decide(sends + 1, v), t, sends)
  {
  }

  lemma SettleTally(o: Order, s: Scene, t: Tally, sends: nat) returns (u: Tally)
    requires t.lawful && !t.passed && t.shown == 0 && t.owed.None? && t.sends == sends + 1 && t.refusals == sends && t.read == map[] && TallyOf(o, s.acts) == t
    ensures var step := Settle(o, sends + 1, s);
      SameRecords(s, step.scene) && StepAccount(o, step, u, sends) && u.tries == t.tries && step != Aborted(NotSent, step.scene)
  {
    var slept := Sleep(s.world, o.plan.settleDelay);
    u := t;
    if slept.ok {
      var r := s.(world := slept.world);
      var v := Verify(o.plan, o.reg, o.value, r);
      var read := VerifyTally(o, r, t);
      u := t.(read := read, passed := v.verdict.pass, refusals := t.refusals + if v.verdict.pass then 0 else 1);
      DecideTally(o, v, u, sends);
      assert Settle(o, sends + 1, s) == Decide(sends + 1, v);
    }
  }

  /** What is on record is what the history says. */
  predicate OnRecord(s: Scene) { s.last == Replay(s.history) }

  /** What a step notes: nothing if the command was not sent; else when it was. */
  ghost predicate Noted(o: Order, s: Scene, step: WriteStep, mark: Option<int>) {
    && step.scene.accepted == s.accepted
    && (mark.None? <==> step == Aborted(NotSent, step.scene))
    && step.scene.last == (if mark.Some? then Remember(s.last, o.topic, Itoa(o.value), mark.value) else s.last)
    && (OnRecord(s) ==> OnRecord(step.scene))
  }

  /** When the command is sent from here, if it is. */
  function SentAt(o: Order, s: Scene): Option<int> {
    var sent := SendFrom(o.plan, o.command, 1, s);
    if sent.outcome.Delivered? then Some(sent.scene.world.now) else None
  }

  lemma ReplayGrows(history: seq<Deed>, d: Deed)
    ensures Replay(history + [d]) == AfterDeed(Replay(history), d)
  {
    assert (history + [d])[..|history|] == history;
  }

  lemma StepWriteTally(o: Order, s: Scene, t: Tally, sends: nat) returns (u: Tally, mark: Option<int>)
    requires Ready(o, s, t) && !t.passed && t.shown == 0 && t.sends == sends
    ensures var step := StepWrite(o, sends + 1, s);
      StepAccount(o, step, u, sends) && u.tries <= t.tries + o.plan.retries && Noted(o, s, step, mark) && mark == SentAt(o, s)
  {
    hide SendFrom, Settle, TallyOf, Replay;
    var sent := SendFrom(o.plan, o.command, 1, s);
    var k := SendTally(o, 1, s, t);
    u, mark := AfterTries(t, k, sent.outcome.Delivered?), None;
    if sent.outcome.Delivered? {
      mark := Some(sent.scene.world.now);
      var r := Remembered(o.topic, Itoa(o.value), sent.scene);
      ReplayGrows(s.history, Deed.Sent(o.topic, Itoa(o.value), mark.value));
      u := SettleTally(o, r, u, sends);
      assert StepWrite(o, sends + 1, s) == Settle(o, sends + 1, r);
    }
  }

  /** How the attempts end; `mark` is when the command was last sent. */
  ghost predicate Attempted(o: Order, s: Scene, step: WriteStep, t: Tally, sends: nat, mark: Option<int>) {
    && StepAccount(o, step, t, sends) && !step.Resend? && t.tries <= WRITE_ATTEMPTS * o.plan.retries && sends < WRITE_ATTEMPTS
    && (step.Settled? ==> step.verdict.pass || sends + 1 == WRITE_ATTEMPTS)
    && step.scene.accepted == s.accepted
    && (mark.None? <==> t.sends == 0)
    && step.scene.last == (if mark.Some? then Remember(s.last, o.topic, Itoa(o.value), mark.value) else s.last)
    && (OnRecord(s) ==> OnRecord(step.scene))
  }

  /** When the command is last sent. */
  function LastSentAt(o: Order, s: Scene): Option<int> {
    var first := StepWrite(o, 1, s);
    if first.Resend? && SentAt(o, first.scene).Some? then SentAt(o, first.scene) else SentAt(o, s)
  }

  lemma AttemptedOnce(o: Order, s: Scene, step: WriteStep, t: Tally, mark: Option<int>)
    requires StepAccount(o, step, t, 0) && t.tries <= o.plan.retries && Noted(o, s, step, mark) && !step.Resend?
    requires step.Settled? ==> step.verdict.pass
    ensures Attempted(o, s, step, t, 0, mark)
  {
  }

  lemma AttemptedTwice(o: Order, s: Scene, first: WriteStep, mark: Option<int>, second: WriteStep, t: Tally, later: Option<int>)
    requires first.Resend? && Noted(o, s, first, mark) && Noted(o, first.scene, second, later)
    requires StepAccount(o, second, t, 1) && t.tries <= 2 * o.plan.retries && !second.Resend?
    ensures Attempted(o, s, second, t, 1, if later.Some? then later else mark)
  {
    if later.Some? {
      assert Remember(Remember(s.last, o.topic, Itoa(o.value), mark.value), o.topic, Itoa(o.value), later.value)
          == Remember(s.last, o.topic, Itoa(o.value), later.value);
    }
  }

  lemma PassesOrResends(o: Order, attempt: nat, s: Scene)
    ensures var step := StepWrite(o, attempt, s); step.Settled? && attempt < WRITE_ATTEMPTS ==> step.verdict.pass
  {
  }

  lemma WriteTally(o: Order, s: Scene) returns (t: Tally, sends: nat, mark: Option<int>)
    requires s.acts == []
    ensures Attempted(o, s, WriteFrom(o, 1, s), t, sends, mark) && mark == LastSentAt(o, s)
  {
    var first := StepWrite(o, 1, s);
    WriteUnfolds(o, 1, s, first);
    PassesOrResends(o, 1, s);
    sends := 0;
    t, mark := StepWriteTally(o, s, NOTHING, 0);
    if !first.Resend? {
      AttemptedOnce(o, s, first, t, mark);
      return;
    }
    var later;
    var second := StepWrite(o, 2, first.scene);
    WriteUnfolds(o, 2, first.scene, second);
    t, later := StepWriteTally(o, first.scene, t, 1);
    AttemptedTwice(o, s, first, mark, second, t, later);
    sends := 1;
    mark := if later.Some? then later else mark;
  }

  // ---- the whole command -----------------------------------------------------------

  /** What a command's end says about its account. */
  predicate EndsAs(o: Order, outcome: Handled, t: Tally) {
    match outcome
    case Written => t.passed && t.sends == t.refusals + 1
    case NotConfirmed => !t.passed && t.sends == t.refusals == WRITE_ATTEMPTS
    case NotSent => !t.passed && t.sends == t.refusals < WRITE_ATTEMPTS
    case Interrupted => !t.passed && t.sends == t.refusals + 1
    case _ => false
  }

  /** A command that was read back shows its state once, when it has one to show. */
  predicate ShowsState(o: Order, outcome: Handled, t: Tally) {
    t.shown == if (outcome.Written? || outcome.NotConfirmed?) && o.reg.topic != "" && (o.reg.stateFrom == "" || o.reg.stateFrom in t.read) then 1 else 0
  }

  ghost predicate CommandLaw(o: Order, r: HandleRun, t: Tally) {
    && TallyOf(o, r.scene.acts) == t && t.lawful && t.owed.None? && t.sends <= WRITE_ATTEMPTS && t.tries <= WRITE_ATTEMPTS * o.plan.retries
    && EndsAs(o, r.outcome, t) && ShowsState(o, r.outcome, t)
  }

  lemma ShownCounts(o: Order, acts: seq<Act>, t: Tally, text: string)
    requires TallyOf(o, acts) == t && t.shown == 0 && t.owed.None?
    requires if o.reg.stateFrom != "" then o.reg.stateFrom in t.read && t.read[o.reg.stateFrom].text == text else text == Itoa(o.value)
    ensures TallyOf(o, acts + [StatePublished(o.reg.topic, text)]) == t.(shown := 1)
  {
    TallyGrows(o, acts, StatePublished(o.reg.topic, text));
  }

  lemma ShowTally(o: Order, v: Verdict, s: Scene, t: Tally) returns (u: Tally)
    requires TallyOf(o, s.acts) == t && t.shown == 0 && t.owed.None? && VerdictOn(o, v, t.read)
    ensures TallyOf(o, PublishState(o.reg, Itoa(o.value), v, s).acts) == u
    ensures u == t.(shown := if o.reg.topic != "" && (o.reg.stateFrom == "" || o.reg.stateFrom in t.read) then 1 else 0)
  {
    u := t;
    if o.reg.topic != "" && (o.reg.stateFrom == "" || o.reg.stateFrom in t.read) {
      u := t.(shown := 1);
      ShownCounts(o, s.acts, t, if v.actual.Some? then v.actual.value else Itoa(o.value));
    }
  }

  lemma ConcludeTally(o: Order, v: Verdict, s: Scene, t: Tally, sends: nat) returns (u: Tally)
    requires StepAccount(o, Settled(v, s), t, sends) && sends < WRITE_ATTEMPTS && (v.pass || sends + 1 == WRITE_ATTEMPTS)
    requires t.tries <= WRITE_ATTEMPTS * o.plan.retries
    ensures CommandLaw(o, Conclude(o, v, s), u) && u.sends == t.sends
  {
    u := ShowTally(o, v, s, t);
    assert Conclude(o, v, s).scene.acts == PublishState(o.reg, Itoa(o.value), v, s).acts;
  }

  /** What a command leaves on record: when it was last sent, unless that was forgotten. */
  ghost predicate Leaves(o: Order, s: Scene, r: HandleRun, t: Tally, mark: Option<int>) {
    && r.scene.accepted == s.accepted[o.reg.name := Count(s.accepted, o.reg.name) + 1]
    && (mark.None? <==> t.sends == 0)
    && r.scene.last == (if r.outcome.NotConfirmed? then s.last - {o.topic}
                        else if mark.Some? then Remember(s.last, o.topic, Itoa(o.value), mark.value) else s.last)
    && (OnRecord(s) ==> OnRecord(r.scene))
  }

  lemma ConcludeLeaves(o: Order, s: Scene, step: WriteStep, t: Tally, u: Tally, sends: nat, mark: Option<int>)
    requires Attempted(o, NextSequence(o.reg.name, s), step, t, sends, mark) && step.Settled? && u.sends == t.sends
    ensures Leaves(o, s, Conclude(o, step.verdict, step.scene), u, mark)
  {
    var shown := PublishState(o.reg, Itoa(o.value), step.verdict, step.scene);
    assert shown.last == step.scene.last && shown.history == step.scene.history && shown.accepted == step.scene.accepted;
    ReplayGrows(shown.history, Deed.Forgot(o.topic, Itoa(o.value)));
    assert Forget(Remember(s.last, o.topic, Itoa(o.value), mark.value), o.topic, Itoa(o.value)) == s.last - {o.topic};
  }

  lemma AbortLaw(o: Order, s: Scene, step: WriteStep, t: Tally, sends: nat, mark: Option<int>)
    requires Attempted(o, NextSequence(o.reg.name, s), step, t, sends, mark) && step.Aborted?
    ensures var r := HandleRun(step.outcome, step.scene); CommandLaw(o, r, t) && Leaves(o, s, r, t, mark)
  {
  }

  lemma CarryLaw(o: Order, s: Scene) returns (t: Tally, mark: Option<int>)
    requires s.acts == []
    ensures CommandLaw(o, Carry(o, s), t) && Leaves(o, s, Carry(o, s), t, mark) && mark == LastSentAt(o, NextSequence(o.reg.name, s))
  {
    var begun := NextSequence(o.reg.name, s);
    var step, sends := WriteFrom(o, 1, begun), 0;
    t, sends, mark := WriteTally(o, begun);
    if step.Settled? {
      var u := ConcludeTally(o, step.verdict, step.scene, t, sends);
      ConcludeLeaves(o, s, step, t, u, sends, mark);
      t := u;
    } else {
      AbortLaw(o, s, step, t, sends, mark);
    }
  }

  // ---- results ---------------------------------------------------------------------

  predicate IsValid(plan: Plan, topic: string, message: string) {
    && topic in plan.byTopic && Parsed(message).Some?
    && plan.byTopic[topic].minValue <= Parsed(message).value <= plan.byTopic[topic].maxValue
  }

  /** What a valid message orders. */
  function OrderOf(plan: Plan, topic: string, message: string): Order
    requires IsValid(plan, topic, message)
  {
    OrderFor(plan, topic, plan.byTopic[topic], Parsed(message).value)
  }

  predicate Dropped(plan: Plan, topic: string, message: string, s: Scene) {
    IsValid(plan, topic, message) && IsDuplicate(s.last, topic, Itoa(OrderOf(plan, topic, message).value), s.world.now)
  }

  /** The answer to a message that is not carried out. */
  function Rejection(plan: Plan, topic: string, message: string): Handled {
    if topic !in plan.byTopic then UnknownTopic
    else if Parsed(message).None? then Malformed
    else if !IsValid(plan, topic, message) then OutOfRange
    else Duplicate
  }

  lemma AcceptedIsCarried(plan: Plan, topic: string, message: string, s: Scene)
    ensures Handle(plan, topic, message, s) ==
              if IsValid(plan, topic, message) && !Dropped(plan, topic, message, s) then Carry(OrderOf(plan, topic, message), s.(acts := []))
              else HandleRun(Rejection(plan, topic, message), s.(acts := []))
  {
  }

  /** In a lawful account every act was allowed by what came before it. */
  lemma {:induction false} LawfulThroughout(o: Order, acts: seq<Act>, i: nat)
    requires TallyOf(o, acts).lawful && i < |acts|
    ensures TallyOf(o, acts[..i]).lawful && Allowed(o, TallyOf(o, acts[..i]), acts[i])
  {
    var n := |acts| - 1;
    if i < n {
      LawfulThroughout(o, acts[..n], i);
      assert acts[..n][..i] == acts[..i];
    }
  }

  /** Nothing was sent between these acts. */
  predicate NoSendBetween(acts: seq<Act>, j: nat, i: nat) {
    forall k :: j < k < i && k < |acts| ==> !(acts[k].Tried? && acts[k].answer.Taken?)
  }

  /** What counts as read was read since the last send. */
  lemma {:induction false} ReadCameFrom(o: Order, acts: seq<Act>, name: string) returns (j: nat)
    requires name in TallyOf(o, acts).read
    ensures j < |acts| && acts[j].ReadBack? && acts[j].name == name && NoSendBetween(acts, j, |acts|)
    ensures acts[j].outcome.Read? && acts[j].outcome.sample == TallyOf(o, acts).read[name]
  {
    var n := |acts| - 1;
    if acts[n].ReadBack? && acts[n].name == name && acts[n].outcome.Read? {
      j := n;
    } else {
      hide Allowed, Owed;
      j := ReadCameFrom(o, acts[..n], name);
      assert forall k :: j < k < n ==> acts[k] == acts[..n][k];
    }
  }

  /** Whenever a state is published and a register carries it, the text is that of a trusted
      reading of this register, made after the last send. */
  ghost predicate StateTrusted(o: Order, acts: seq<Act>) {
    forall i :: 0 <= i < |acts| && acts[i].StatePublished? && o.reg.stateFrom != "" ==>
      exists j :: 0 <= j < i && TrustedReading(o.plan, acts[j], o.reg.stateFrom, acts[i].text) && NoSendBetween(acts, j, i)
  }

  lemma StateIsTrusted(o: Order, start: Wire, acts: seq<Act>)
    requires TallyOf(o, acts).lawful && Genuine(o.plan, start, acts)
    ensures StateTrusted(o, acts)
  {
    forall i | 0 <= i < |acts| && acts[i].StatePublished? && o.reg.stateFrom != ""
      ensures exists j :: 0 <= j < i && TrustedReading(o.plan, acts[j], o.reg.stateFrom, acts[i].text) && NoSendBetween(acts, j, i)
    {
      LawfulThroughout(o, acts, i);
      var j := ReadCameFrom(o, acts[..i], o.reg.stateFrom);
      assert acts[j] == acts[..i][j] && forall k :: j < k < i ==> acts[k] == acts[..i][k];
      GenuineIsTrusted(o.plan, start, acts, j);
    }
  }

  /** The contract of `HandleMessage`. A valid command that is no redelivery is carried out, and
      no other message touches anything. What it does is lawful, with at most two sends and twice
      the attempts, and it ends as its account says; its reads were made on the wire as it was,
      and the state topic only receives what a trusted reading showed. */
  lemma HandleMessageContract(plan: Plan, topic: string, message: string, s: Scene)
    ensures var r := Handle(plan, topic, message, s);
      if IsValid(plan, topic, message) && !Dropped(plan, topic, message, s) then
        && r.outcome.Accepted()
        && CommandLaw(OrderOf(plan, topic, message), r, TallyOf(OrderOf(plan, topic, message), r.scene.acts))
        && Genuine(plan, WireOf(s.world), r.scene.acts) && StateTrusted(OrderOf(plan, topic, message), r.scene.acts)
      else r == HandleRun(Rejection(plan, topic, message), s.(acts := []))
  {
    AcceptedIsCarried(plan, topic, message, s);
    if IsValid(plan, topic, message) && !Dropped(plan, topic, message, s) {
      var o, idle := OrderOf(plan, topic, message), s.(acts := []);
      var t, mark := CarryLaw(o, idle);
      CarryGoesOn(o, idle);
      StateIsTrusted(o, WireOf(s.world), Carry(o, idle).scene.acts);
    }
  }

  /** A nil error means an unknown topic, a redelivery, or a passing last verdict. */
  lemma NilMeans(plan: Plan, topic: string, message: string, s: Scene)
    ensures var r := Handle(plan, topic, message, s);
      r.outcome.Nil() <==>
        || topic !in plan.byTopic
        || Dropped(plan, topic, message, s)
        || (r.outcome.Accepted() && IsValid(plan, topic, message) && TallyOf(OrderOf(plan, topic, message), r.scene.acts).passed)
  {
    HandleMessageContract(plan, topic, message, s);
  }

  lemma {:induction false} ReadingsAreSamples(o: Order, acts: seq<Act>, name: string)
    requires TallyOf(o, acts).lawful && name in TallyOf(o, acts).read
    ensures SampleOf(o.plan, name, TallyOf(o, acts).read[name])
  {
    var n := |acts| - 1;
    if !(acts[n].ReadBack? && acts[n].name == name) {
      ReadingsAreSamples(o, acts[..n], name);
    }
  }

  /** A write that `state_from` confirmed is true: what the unit last reported, in a trusted
      reading after the send, is the commanded value to within half of the last printed place. */
  lemma ConfirmedWriteIsHeld(plan: Plan, topic: string, message: string, s: Scene)
    requires Handle(plan, topic, message, s).outcome.Written? && IsValid(plan, topic, message)
    ensures var o, acts := OrderOf(plan, topic, message), Handle(plan, topic, message, s).scene.acts;
      o.reg.stateFrom != "" && o.reg.stateFrom in TallyOf(o, acts).read ==>
        exists j :: 0 <= j < |acts| && NoSendBetween(acts, j, |acts|) && ShowsHeld(o, acts[j])
  {
    HandleMessageContract(plan, topic, message, s);
    var o := OrderOf(plan, topic, message);
    var acts := Handle(plan, topic, message, s).scene.acts;
    var t := TallyOf(o, acts);
    if o.reg.stateFrom != "" && o.reg.stateFrom in t.read {
      ReadingsAreSamples(o, acts, o.reg.stateFrom);
      PassedIsConfirmed(o, acts);
      ConfirmedReadingIsHeld(o, t.read[o.reg.stateFrom]);
      var j := ReadCameFrom(o, acts, o.reg.stateFrom);
      GenuineIsTrusted(plan, WireOf(s.world), acts, j);
      assert ShowsHeld(o, acts[j]);
    }
  }

  /** A trusted reading that shows the commanded value: the unit's own number is within half of
      the last printed place of it. */
  ghost predicate ShowsHeld(o: Order, a: Act) {
    && a.ReadBack? && a.outcome.Read? && TrustedReading(o.plan, a, o.reg.stateFrom, a.outcome.sample.text)
    && ParseInteger(a.outcome.sample.raw).Some?
    && var reg := o.plan.byName[o.reg.stateFrom];
       WithinHalf(ParseInteger(a.outcome.sample.raw).value, EffectiveDivisor(reg), reg.kind, o.value)
  }

  /** A passing verdict stands: nothing is sent or read after it. */
  lemma {:induction false} PassedIsConfirmed(o: Order, acts: seq<Act>)
    requires TallyOf(o, acts).lawful && TallyOf(o, acts).passed
    ensures TallyOf(o, acts).sends == TallyOf(o, acts).refusals + 1 && Confirms(o, TallyOf(o, acts).read)
  {
    var n := |acts| - 1;
    if !acts[n].Judged? {
      PassedIsConfirmed(o, acts[..n]);
    }
  }

  lemma ConfirmedReadingIsHeld(o: Order, sample: Sample)
    requires SampleOf(o.plan, o.reg.stateFrom, sample) && sample.text == Expected(o.plan, o.reg, o.value)
    ensures var reg := o.plan.byName[o.reg.stateFrom];
      ParseInteger(sample.raw).Some? && WithinHalf(ParseInteger(sample.raw).value, EffectiveDivisor(reg), reg.kind, o.value)
  {
    var reg := o.plan.byName[o.reg.stateFrom];
    SampleIsRounded(sample.raw, reg);
    ConfirmedIsClose(ParseInteger(sample.raw).value, EffectiveDivisor(reg), reg.kind, o.value);
  }
}
