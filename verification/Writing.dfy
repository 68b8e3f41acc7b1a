/** `internal/registers/writer.go` as functions: what a command does, and what a settle re-read
    does, from the state of everything either of them touches. The class that computes them is
    in Writer.dfy. */
module Writing {
  import opened Basics
  import opened FrameGrammar
  import opened Values
  import opened Samples
  import opened ConfirmedRead
  import opened CheckedPublish
  import opened Dedupe

  datatype WriteRegister = WriteRegister(name: string, subscribeTopic: string, topic: string, template: string,
                                         minValue: int, maxValue: int, stateFrom: string, verifyRegisters: seq<string>)

  /** The fixed part of a writer. `hasReader`: it was given a reader. */
  datatype Plan = Plan(byTopic: map<string, WriteRegister>, byName: map<string, ReadRegister>, readRetries: nat, readBackoff: int,
                       retries: nat, backoff: int, settleDelay: int, hasReader: bool)

  datatype SendReply = SendReply(answer: SendAnswer, took: nat)

  const NO_SEND := SendReply(Failed, 0)

  /** Everything a writer depends on and changes. `sends` are the outcomes of the sends to come;
      `bumps` are the commands other goroutines get accepted before each look at a sequence;
      `acts` is what the call under way has done, and `history` what was sent and forgotten. */
  datatype Scene = Scene(world: World, sends: seq<SendReply>, accepted: map<string, nat>, bumps: seq<nat>,
                         last: map<string, LastWrite>, history: seq<Deed>, acts: seq<Act>)
  {
    function NextSend(): SendReply { if sends == [] then NO_SEND else sends[0] }

    function Act(a: CheckedPublish.Act): Scene { this.(acts := acts + [a]) }

    /** The scene after the next send. */
    function Sent(command: string): Scene {
      this.(world := world.(now := world.now + NextSend().took), sends := if sends == [] then [] else sends[1..])
          .Act(Tried(command, NextSend().answer))
    }

    /** The scene when `WriteSequence` is next looked at. */
    function Looked(name: string): Scene {
      this.(accepted := accepted[name := Count(accepted, name) + if bumps == [] then 0 else bumps[0]], bumps := if bumps == [] then [] else bumps[1..])
    }
  }

  // ---- sendCommand -----------------------------------------------------------------

  datatype SendOutcome = Delivered | SendCut | SendFailed

  datatype SendStep = SendDone(outcome: SendOutcome, scene: Scene) | SendAgain(scene: Scene)

  datatype SendRun = SendRun(outcome: SendOutcome, scene: Scene)

  function Pause(backoff: int, attempt: nat, w: World): Slept {
    if attempt > 1 then Sleep(w, backoff) else Slept(true, w)
  }

  /** Only a genuine write error is retried. */
  function Wrote(command: string, s: Scene): SendStep {
    match s.NextSend().answer
    case Taken => SendDone(Delivered, s.Sent(command))
    case Broken => SendDone(SendCut, s.Sent(command))
    case Failed => SendAgain(s.Sent(command))
  }

  /** One attempt to write the command. */
  function StepSend(plan: Plan, command: string, attempt: nat, s: Scene): SendStep {
    if s.world.ctx.Done() then SendDone(SendCut, s.(world := s.world.Checked()))
    else
      var slept := Pause(plan.backoff, attempt, s.world.Checked());
      if slept.ok then Wrote(command, s.(world := slept.world)) else SendDone(SendCut, s.(world := slept.world))
  }

  function SendFrom(plan: Plan, command: string, attempt: nat, s: Scene): SendRun
    decreases Max(0, plan.retries + 1 - attempt)
  {
    if attempt > plan.retries then SendRun(SendFailed, s)
    else
      match StepSend(plan, command, attempt, s)
      case SendDone(outcome, t) => SendRun(outcome, t)
      case SendAgain(t) => SendFrom(plan, command, attempt + 1, t)
  }

  lemma SendUnfolds(plan: Plan, command: string, attempt: nat, s: Scene, step: SendStep)
    requires attempt <= plan.retries && step == StepSend(plan, command, attempt, s)
    ensures step.SendDone? ==> SendFrom(plan, command, attempt, s) == SendRun(step.outcome, step.scene)
    ensures step.SendAgain? ==> SendFrom(plan, command, attempt, s) == SendFrom(plan, command, attempt + 1, step.scene)
  {
  }

  // ---- readBackIfCurrent -----------------------------------------------------------

  datatype BackStep = Abandoned(scene: Scene) | Kept(values: map<string, string>, scene: Scene)

  /** A non-zero sequence number is compared with the newest accepted command. */
  function Look(name: string, number: nat, s: Scene): Scene {
    if number == 0 then s else s.Looked(name).Act(Checked(Count(s.Looked(name).accepted, name) == number))
  }

  function Publish(topic: string, text: string, s: Scene): Scene {
    if topic == "" then s else s.Act(Published(topic, text))
  }

  /** Noting what a read returned, and keeping and publishing its value. */
  function Took(topic: string, name: string, values: map<string, string>, r: ReadRun, s: Scene): BackStep {
    var t := s.(world := r.world).Act(ReadBack(name, s.world, r.outcome));
    if !r.outcome.Read? then Kept(values, t)
    else Kept(values[name := r.outcome.sample.text], Publish(topic, r.outcome.sample.text, t))
  }

  function StepReading(plan: Plan, reg: ReadRegister, name: string, values: map<string, string>, s: Scene): BackStep {
    Took(reg.topic, name, values, ReadSingle(RuleOf(reg), plan.readRetries, plan.readBackoff, s.world), s)
  }

  function StepBack(plan: Plan, owner: string, number: nat, name: string, values: map<string, string>, s: Scene): BackStep {
    if name in values then Kept(values, s)
    else
      var t := Look(owner, number, s);
      if number != 0 && Count(t.accepted, owner) != number then Abandoned(t)
      else if name !in plan.byName then Kept(values, t)
      else StepReading(plan, plan.byName[name], name, values, t)
  }

  /** The rest of a read-back; no values if it was abandoned. */
  datatype BackRun = BackRun(values: Option<map<string, string>>, scene: Scene)

  function BackFrom(plan: Plan, owner: string, number: nat, names: seq<string>, values: map<string, string>, s: Scene): BackRun {
    if names == [] then BackRun(Some(values), s)
    else
      match StepBack(plan, owner, number, names[0], values, s)
      case Abandoned(t) => BackRun(None, t)
      case Kept(more, t) => BackFrom(plan, owner, number, names[1..], more, t)
  }

  lemma BackUnfolds(plan: Plan, owner: string, number: nat, names: seq<string>, values: map<string, string>, s: Scene, step: BackStep)
    requires names != [] && step == StepBack(plan, owner, number, names[0], values, s)
    ensures step.Abandoned? ==> BackFrom(plan, owner, number, names, values, s) == BackRun(None, step.scene)
    ensures step.Kept? ==> BackFrom(plan, owner, number, names, values, s) == BackFrom(plan, owner, number, names[1..], step.values, step.scene)
  {
  }

  /** A read-back that looks for no newer command is never abandoned. */
  lemma {:induction false} NeverAbandoned(plan: Plan, owner: string, names: seq<string>, values: map<string, string>, s: Scene)
    ensures BackFrom(plan, owner, 0, names, values, s).values.Some?
  {
    if names != [] {
      var step := StepBack(plan, owner, 0, names[0], values, s);
      BackUnfolds(plan, owner, 0, names, values, s, step);
      NeverAbandoned(plan, owner, names[1..], step.values, step.scene);
    }
  }

  /** state_from first. */
  function Names(reg: WriteRegister): seq<string> {
    (if reg.stateFrom != "" then [reg.stateFrom] else []) + reg.verifyRegisters
  }

  /** Whether there is anything to read back at all. */
  predicate Checkable(plan: Plan, reg: WriteRegister) { plan.hasReader && Names(reg) != [] }

  /** `readBackIfCurrent`. */
  function ReadBackRun(plan: Plan, reg: WriteRegister, number: nat, s: Scene): BackRun {
    if Checkable(plan, reg) then BackFrom(plan, reg.name, number, Names(reg), map[], s) else BackRun(None, s)
  }

  // ---- verify and publishState -----------------------------------------------------

  /** `strconv.Itoa`. */
  function Itoa(n: int): string { Render(10 * n, IntegerKind) }

  /** The commanded value in the format of the register that reports it. */
  function Expected(plan: Plan, reg: WriteRegister, value: int): string {
    if reg.stateFrom in plan.byName then FormatByType(value, 1, plan.byName[reg.stateFrom].kind) else Itoa(value)
  }

  datatype Verdict = Verdict(actual: Option<string>, pass: bool)

  /** `verify`, once the registers have been read. */
  function Judgement(plan: Plan, reg: WriteRegister, value: int, values: map<string, string>): Verdict {
    if reg.stateFrom != "" && reg.stateFrom in values then
      Verdict(Some(values[reg.stateFrom]), values[reg.stateFrom] == Expected(plan, reg, value))
    else Verdict(None, !(Checkable(plan, reg) && values == map[]))
  }

  datatype VerifyRun = VerifyRun(verdict: Verdict, scene: Scene)

  function Verify(plan: Plan, reg: WriteRegister, value: int, s: Scene): VerifyRun {
    var back := ReadBackRun(plan, reg, 0, s);
    var v := Judgement(plan, reg, value, if back.values.Some? then back.values.value else map[]);
    VerifyRun(v, back.scene.Act(Judged(v.pass)))
  }

  /** `publishState`. */
  function PublishState(reg: WriteRegister, commanded: string, v: Verdict, s: Scene): Scene {
    if reg.topic == "" || (v.actual.None? && reg.stateFrom != "") then s
    else s.Act(StatePublished(reg.topic, if v.actual.Some? then v.actual.value else commanded))
  }

  // ---- HandleMessage ---------------------------------------------------------------

  const WRITE_ATTEMPTS: nat := 2

  datatype WriteStep = Aborted(outcome: Handled, scene: Scene) | Settled(verdict: Verdict, scene: Scene) | Resend(scene: Scene)

  /** What `HandleMessage` returns; the first, the fourth and the last are nil errors. */
  datatype Handled = UnknownTopic | Malformed | OutOfRange | Duplicate | NotSent | Interrupted | NotConfirmed | Written {
    predicate Nil() { UnknownTopic? || Duplicate? || Written? }

    /** A command went in flight. */
    predicate Accepted() { NotSent? || Interrupted? || NotConfirmed? || Written? }
  }

  function Remembered(topic: string, value: string, s: Scene): Scene {
    s.(last := Remember(s.last, topic, value, s.world.now), history := s.history + [Deed.Sent(topic, value, s.world.now)])
  }

  function Forgotten(topic: string, value: string, s: Scene): Scene {
    s.(last := Forget(s.last, topic, value), history := s.history + [Deed.Forgot(topic, value)])
  }

  /** The command in flight: this register, this value, from this topic, as these words. */
  datatype Order = Order(plan: Plan, reg: WriteRegister, topic: string, value: int, command: string)

  /** `strings.Replace` of the first occurrence. */
  function Replaced(s: string, from: string, to: string): string {
    if |from| <= |s| && s[..|from|] == from then to + s[|from|..]
    else if s == "" then s
    else [s[0]] + Replaced(s[1..], from, to)
  }

  function Decide(attempt: nat, verified: VerifyRun): WriteStep {
    if verified.verdict.pass || attempt >= WRITE_ATTEMPTS then Settled(verified.verdict, verified.scene) else Resend(verified.scene)
  }

  /** After a send: give the unit a moment, then read back. */
  function Settle(o: Order, attempt: nat, s: Scene): WriteStep {
    var slept := Sleep(s.world, o.plan.settleDelay);
    if slept.ok then Decide(attempt, Verify(o.plan, o.reg, o.value, s.(world := slept.world)))
    else Aborted(Interrupted, s.(world := slept.world))
  }

  /** The command is made from the number, so every spelling of it sends the same words. */
  function OrderFor(plan: Plan, topic: string, reg: WriteRegister, value: int): Order {
    Order(plan, reg, topic, value, Replaced(reg.template, "{value}", Itoa(value)))
  }

  /** One send and its verification. */
  function StepWrite(o: Order, attempt: nat, s: Scene): WriteStep {
    var sent := SendFrom(o.plan, o.command, 1, s);
    if sent.outcome.Delivered? then Settle(o, attempt, Remembered(o.topic, Itoa(o.value), sent.scene)) else Aborted(NotSent, sent.scene)
  }

  function WriteFrom(o: Order, attempt: nat, s: Scene): (r: WriteStep)
    ensures !r.Resend?
    decreases Max(0, WRITE_ATTEMPTS - attempt)
  {
    var step := StepWrite(o, attempt, s);
    if step.Resend? then WriteFrom(o, attempt + 1, step.scene) else step
  }

  lemma WriteUnfolds(o: Order, attempt: nat, s: Scene, step: WriteStep)
    requires step == StepWrite(o, attempt, s)
    ensures step.Resend? ==> attempt < WRITE_ATTEMPTS && WriteFrom(o, attempt, s) == WriteFrom(o, attempt + 1, step.scene)
    ensures !step.Resend? ==> WriteFrom(o, attempt, s) == step
  {
  }

  datatype HandleRun = HandleRun(outcome: Handled, scene: Scene)

  /** The end of a command that was read back. */
  function Conclude(o: Order, v: Verdict, s: Scene): HandleRun {
    var t := PublishState(o.reg, Itoa(o.value), v, s);
    if v.pass then HandleRun(Written, t) else HandleRun(NotConfirmed, Forgotten(o.topic, Itoa(o.value), t))
  }

  function NextSequence(name: string, s: Scene): Scene { s.(accepted := s.accepted[name := Count(s.accepted, name) + 1]) }

  /** A valid command that is no redelivery. */
  function Carry(o: Order, s: Scene): HandleRun {
    match WriteFrom(o, 1, NextSequence(o.reg.name, s))
    case Aborted(outcome, t) => HandleRun(outcome, t)
    case Settled(v, t) => Conclude(o, v, t)
  }

  const MIN_INT: int := -0x8000_0000_0000_0000
  const MAX_INT: int := 0x7FFF_FFFF_FFFF_FFFF

  /** `strconv.Atoi` on a 64-bit machine. */
  function Atoi(s: string): Option<int> {
    var digits := if s != "" && (s[0] == '+' || s[0] == '-') then s[1..] else s;
    if digits == "" || !AllDigits(digits) then None
    else
      var n: int := DigitsValue(digits);
      var signed := if s[0] == '-' then -n else n;
      if MIN_INT <= signed <= MAX_INT then Some(signed) else None
  }

  function Parsed(message: string): Option<int> { Atoi(TrimSpace(message)) }

  /** `HandleMessage`. */
  function Handle(plan: Plan, topic: string, message: string, s: Scene): HandleRun {
    var idle := s.(acts := []);
    if topic !in plan.byTopic then HandleRun(UnknownTopic, idle)
    else
      var reg := plan.byTopic[topic];
      match Parsed(message)
      case None => HandleRun(Malformed, idle)
      case Some(value) =>
        if value < reg.minValue || value > reg.maxValue then HandleRun(OutOfRange, idle)
        else if IsDuplicate(s.last, topic, Itoa(value), s.world.now) then HandleRun(Duplicate, idle)
        else Carry(OrderFor(plan, topic, reg, value), idle)
  }

  // ---- refreshIfCurrent ------------------------------------------------------------

  /** What follows the read-back of a settle re-read. */
  function RefreshState(reg: WriteRegister, number: nat, values: map<string, string>, s: Scene): Scene {
    if reg.stateFrom == "" || reg.topic == "" || reg.stateFrom !in values then s
    else
      var t := Look(reg.name, number, s);
      if Count(t.accepted, reg.name) != number then t else t.Act(StatePublished(reg.topic, values[reg.stateFrom]))
  }

  /** The part of a settle re-read that holds the gate. */
  function RefreshHeld(plan: Plan, reg: WriteRegister, number: nat, s: Scene): Scene {
    var back := ReadBackRun(plan, reg, number, s);
    if back.values.None? then back.scene else RefreshState(reg, number, back.values.value, back.scene)
  }

  /** `refreshIfCurrent`, for the sequence number of an accepted command. */
  function Refresh(plan: Plan, reg: WriteRegister, number: nat, s: Scene): Scene
    requires number > 0
  {
    var t := Look(reg.name, number, s.(acts := []));
    if Count(t.accepted, reg.name) != number then t else RefreshHeld(plan, reg, number, t)
  }
}
