/** What goes on the wire for a message: which number it means, which words that makes, and how
    often they are sent. */
module Delivery {
  import opened Basics
  import opened FrameGrammar
  import opened Values
  import opened Samples
  import opened ConfirmedRead
  import opened ReadTimes
  import opened CheckedPublish
  import opened Dedupe
  import opened Writing
  import opened ReadTrace
  import opened WriteContract

  // ---- the number a message means --------------------------------------------------

  /** A message as it may be written: white space, a sign or none, digits, white space. */
  datatype Spelling = Spelling(lead: string, sign: string, digits: string, trail: string) {
    ghost predicate Ok() { AllSpace(lead) && AllSpace(trail) && (sign == "" || sign == "+" || sign == "-") && digits != "" && AllDigits(digits) }

    function Core(): string { sign + digits }

    function Text(): string { lead + Core() + trail }

    function Number(): int
      requires AllDigits(digits)
    {
      if sign == "-" then 0 - DigitsValue(digits) as int else DigitsValue(digits)
    }
  }

  /** The message is some spelling of n. */
  ghost predicate Means(message: string, n: int) {
    exists spelling: Spelling :: spelling.Ok() && message == spelling.Text() && n == spelling.Number()
  }

  lemma {:induction false} TrimSpaceParts(s: string) returns (lead: string, trail: string)
    ensures s == lead + TrimSpace(s) + trail && AllSpace(lead) && AllSpace(trail)
    decreases |s|
  {
    lead, trail := "", "";
    if s == "" {
    } else if Space(s[0]) {
      lead, trail := TrimSpaceParts(s[1..]);
      lead := [s[0]] + lead;
    } else if Space(s[|s| - 1]) {
      lead, trail := TrimSpaceParts(s[..|s| - 1]);
      trail := trail + [s[|s| - 1]];
    }
  }

  lemma {:induction false} TrimSpaceOf(lead: string, core: string, trail: string)
    requires AllSpace(lead) && AllSpace(trail) && core != "" && !Space(core[0]) && !Space(core[|core| - 1])
    ensures TrimSpace(lead + core + trail) == core
    decreases |lead| + |trail|
  {
    var s := lead + core + trail;
    if lead != "" {
      assert s[0] == lead[0] && s[1..] == lead[1..] + core + trail;
      TrimSpaceOf(lead[1..], core, trail);
    } else if trail != "" {
      var n := |trail| - 1;
      assert s[0] == core[0] && s[|s| - 1] == trail[n] && s[..|s| - 1] == lead + core + trail[..n];
      TrimSpaceOf(lead, core, trail[..n]);
    } else {
      assert s == core;
    }
  }

  lemma CoreEdges(spelling: Spelling)
    requires spelling.Ok()
    ensures var core := spelling.Core(); core != "" && !Space(core[0]) && !Space(core[|core| - 1])
  {
    var core, digits := spelling.Core(), spelling.digits;
    assert core[|core| - 1] == digits[|digits| - 1] && Digit(digits[|digits| - 1]) && Digit(digits[0]);
  }

  lemma AtoiOfCore(spelling: Spelling)
    requires spelling.Ok()
    ensures Atoi(spelling.Core()) == if MIN_INT <= spelling.Number() <= MAX_INT then Some(spelling.Number()) else None
  {
    var core, digits := spelling.Core(), spelling.digits;
    assert Digit(digits[0]);
    if spelling.sign == "" {
      assert core == digits;
    } else {
      assert core[1..] == digits;
    }
  }

  lemma CoreOfAtoi(core: string) returns (spelling: Spelling)
    requires Atoi(core).Some?
    ensures spelling == Spelling("", spelling.sign, spelling.digits, "") && spelling.Ok() && spelling.Core() == core && Atoi(core) == Some(spelling.Number())
  {
    spelling := if core[0] == '+' || core[0] == '-' then Spelling("", [core[0]], core[1..], "") else Spelling("", "", core, "");
  }

  /** Which messages are numbers, and which numbers they are: every spelling of a number that fits
      64 bits, and nothing else. */
  lemma MessageMeans(message: string, n: int)
    ensures Parsed(message) == Some(n) <==> Means(message, n) && MIN_INT <= n <= MAX_INT
  {
    if Parsed(message) == Some(n) {
      var lead, trail := TrimSpaceParts(message);
      var core := CoreOfAtoi(TrimSpace(message));
      var spelling := Spelling(lead, core.sign, core.digits, trail);
      assert spelling.Ok() && message == spelling.Text() && n == spelling.Number();
    }
    if Means(message, n) {
      var spelling: Spelling :| spelling.Ok() && message == spelling.Text() && n == spelling.Number();
      CoreEdges(spelling);
      TrimSpaceOf(spelling.lead, spelling.Core(), spelling.trail);
      AtoiOfCore(spelling);
    }
  }

  // ---- the words -------------------------------------------------------------------

  const PLACE := "{value}"

  predicate PlaceAt(template: string, i: nat) { i + |PLACE| <= |template| && template[i..i + |PLACE|] == PLACE }

  /** The place for the value in a template, the first one. */
  ghost predicate FirstPlace(template: string, before: string, after: string) {
    template == before + PLACE + after && forall i :: 0 <= i < |before| ==> !PlaceAt(template, i)
  }

  lemma LaterPlace(template: string, before: string, after: string)
    requires FirstPlace(template, before, after) && before != ""
    ensures FirstPlace(template[1..], before[1..], after) && template[0] == before[0]
    ensures template != "" && !(|PLACE| <= |template| && template[..|PLACE|] == PLACE)
  {
    var rest := template[1..];
    assert rest == before[1..] + PLACE + after;
    forall i | 0 <= i < |before[1..]| ensures !PlaceAt(rest, i) {
      assert !PlaceAt(template, i + 1);
      assert i + |PLACE| <= |rest| ==> rest[i..i + |PLACE|] == template[i + 1..i + 1 + |PLACE|];
    }
    assert !PlaceAt(template, 0);
  }

  lemma {:induction false} ReplacedAt(template: string, before: string, after: string, text: string)
    requires FirstPlace(template, before, after)
    ensures Replaced(template, PLACE, text) == before + text + after
    decreases |before|
  {
    if before == "" {
      assert template[..|PLACE|] == PLACE && template[|PLACE|..] == after;
      assert "" + text + after == text + after;
    } else {
      LaterPlace(template, before, after);
      ReplacedAt(template[1..], before[1..], after, text);
      assert before + text + after == [before[0]] + (before[1..] + text + after);
    }
  }

  /** This text is the number n, as the program prints it and as it reads it. */
  ghost predicate IsNumeral(text: string, n: int) { IsInteger(text) && ParseInteger(text) == Some(n) && ParseText(text) == Some(10 * n) }

  lemma ItoaIsNumeral(n: int)
    ensures IsNumeral(Itoa(n), n)
  {
    IntegerRoundTrip(n);
    FormatThenParse(10 * n, IntegerKind);
  }

  /** Everything a command does with its number: what it sends, what it shows when no register
      reports the state, and what it leaves on record. */
  ghost predicate Says(reg: WriteRegister, topic: string, s: Scene, r: HandleRun, words: string, text: string) {
    && (forall i :: 0 <= i < |r.scene.acts| && r.scene.acts[i].Tried? ==> r.scene.acts[i].command == words)
    && (forall i :: 0 <= i < |r.scene.acts| && r.scene.acts[i].StatePublished? && reg.stateFrom == "" ==> r.scene.acts[i].text == text)
    && (topic in r.scene.last && r.scene.last != s.last ==> r.scene.last[topic].value == text)
  }

  lemma LawfulSays(o: Order, s: Scene)
    ensures Says(o.reg, o.topic, s.(acts := []), Carry(o, s.(acts := [])), o.command, Itoa(o.value))
  {
    var idle := s.(acts := []);
    var r := Carry(o, idle);
    var t, mark := CarryLaw(o, idle);
    hide Carry, CommandLaw, TallyOf;
    assert TallyOf(o, r.scene.acts).lawful by { LawfulAccount(o, r, t); }
    forall i | 0 <= i < |r.scene.acts|
      ensures r.scene.acts[i].Tried? ==> r.scene.acts[i].command == o.command
      ensures r.scene.acts[i].StatePublished? && o.reg.stateFrom == "" ==> r.scene.acts[i].text == Itoa(o.value)
    {
      LawfulThroughout(o, r.scene.acts, i);
    }
  }

  lemma LawfulAccount(o: Order, r: HandleRun, t: Tally)
    requires CommandLaw(o, r, t)
    ensures TallyOf(o, r.scene.acts).lawful
  {
  }

  /** Which words go on the wire: for a message that means n, in range, every send is the template
      with n in its place, however the message spelled it; and what is shown and what is recorded
      is n as well. */
  lemma WordsOnTheWire(plan: Plan, topic: string, message: string, s: Scene, n: int, before: string, after: string) returns (text: string)
    requires topic in plan.byTopic && FirstPlace(plan.byTopic[topic].template, before, after)
    requires Means(message, n) && MIN_INT <= n <= MAX_INT && plan.byTopic[topic].minValue <= n <= plan.byTopic[topic].maxValue
    ensures IsNumeral(text, n) && Says(plan.byTopic[topic], topic, s, Handle(plan, topic, message, s), before + text + after, text)
  {
    text := Itoa(n);
    ItoaIsNumeral(n);
    MessageMeans(message, n);
    AcceptedIsCarried(plan, topic, message, s);
    var o := OrderOf(plan, topic, message);
    ReplacedAt(o.reg.template, before, after, text);
    LawfulSays(o, s);
    hide Says, Carry, Means, FirstPlace;
    if Dropped(plan, topic, message, s) {
      SaysNothing(o.reg, topic, s, Rejection(plan, topic, message), before + text + after, text);
    }
  }

  lemma SaysNothing(reg: WriteRegister, topic: string, s: Scene, outcome: Handled, words: string, text: string)
    ensures Says(reg, topic, s, HandleRun(outcome, s.(acts := [])), words, text)
  {
  }

  // ---- how often they are sent -----------------------------------------------------

  /** How the i-th send from s on will be taken. */
  function SendAt(s: Scene, i: nat): SendReply { if i < |s.sends| then s.sends[i] else NO_SEND }

  /** The first k tries. */
  function Tries(command: string, s: Scene, k: nat): seq<Act> {
    if k == 0 then [] else Tries(command, s, k - 1) + [Tried(command, SendAt(s, k - 1).answer)]
  }

  /** How long they take, with a backoff before each but the first. */
  function TriesTake(backoff: int, s: Scene, k: nat): nat {
    if k == 0 then 0 else TriesTake(backoff, s, k - 1) + (if k > 1 then Max(0, backoff) else 0) + SendAt(s, k - 1).took
  }

  ghost predicate AllFail(s: Scene, k: nat) { forall i :: 0 <= i < k ==> SendAt(s, i).answer.Failed? }

  /** How many live checks k tries take: one each, and one more for each pause between two. */
  function ChecksFor(k: nat): nat { if k == 0 then 0 else 2 * k - 1 }

  /** How many tries a context leaves room for. */
  function LiveTries(ctx: Ctx, retries: nat): nat { if ctx.Never? then retries else Min(retries, (ctx.checks + 1) / 2) }

  /** t is s after k failed tries. */
  ghost predicate AfterFailures(plan: Plan, command: string, s: Scene, k: nat, t: Scene) {
    && AllFail(s, k) && t.acts == s.acts + Tries(command, s, k) && t.sends == s.sends[Min(k, |s.sends|)..]
    && t.world.now == s.world.now + TriesTake(plan.backoff, s, k)
    && (if s.world.ctx.Never? then t.world.ctx.Never? else ChecksFor(k) <= s.world.ctx.checks && t.world.ctx == CancelledIn(s.world.ctx.checks - ChecksFor(k)))
  }

  /** Sending ended with the k-th try, the first that did not fail; or all tries failed for which
      there was room, as many as configured or as many as the context left. */
  ghost predicate SentExactly(plan: Plan, command: string, s: Scene, k: nat, r: SendRun) {
    var room := LiveTries(s.world.ctx, plan.retries);
    var made := Min(k + 1, room);
    && k <= room && AllFail(s, k) && (k < room ==> !SendAt(s, k).answer.Failed?)
    && r.outcome == (if k == plan.retries then SendFailed else if k < room && SendAt(s, k).answer.Taken? then Delivered else SendCut)
    && r.scene.acts == s.acts + Tries(command, s, made)
    && (k < room || room == plan.retries ==> r.scene.world.now == s.world.now + TriesTake(plan.backoff, s, made))
  }

  lemma TryIs(command: string, s: Scene, k: nat, u: Scene)
    requires u.acts == s.acts + Tries(command, s, k) && u.sends == s.sends[Min(k, |s.sends|)..]
    ensures u.NextSend() == SendAt(s, k)
    ensures var v := u.Sent(command);
      v.acts == s.acts + Tries(command, s, k + 1) && v.sends == s.sends[Min(k + 1, |s.sends|)..] && v.world.now == u.world.now + SendAt(s, k).took
  {
  }

  /** With room for another try its pause is not cut short. */
  lemma RoomToTry(plan: Plan, command: string, s: Scene, k: nat, t: Scene) returns (u: Scene)
    requires AfterFailures(plan, command, s, k, t) && k < LiveTries(s.world.ctx, plan.retries)
    ensures StepSend(plan, command, k + 1, t) == Wrote(command, u)
    ensures u.acts == t.acts && u.sends == t.sends && u.world.now == t.world.now + if k > 0 then Max(0, plan.backoff) else 0
    ensures if s.world.ctx.Never? then u.world.ctx.Never?
            else ChecksFor(k + 1) <= s.world.ctx.checks && u.world.ctx == CancelledIn(s.world.ctx.checks - ChecksFor(k + 1))
  {
    hide Tries, TriesTake, AllFail;
    u := t.(world := Pause(plan.backoff, k + 1, t.world.Checked()).world);
  }

  lemma AllFailLonger(s: Scene, k: nat)
    requires AllFail(s, k) && SendAt(s, k).answer.Failed?
    ensures AllFail(s, k + 1)
  {
  }

  /** The next try, when the context has room for it. */
  lemma NextTry(plan: Plan, command: string, s: Scene, k: nat, t: Scene)
    requires AfterFailures(plan, command, s, k, t) && k < LiveTries(s.world.ctx, plan.retries)
    ensures match StepSend(plan, command, k + 1, t)
      case SendAgain(u) => SendAt(s, k).answer.Failed? && AfterFailures(plan, command, s, k + 1, u)
      case SendDone(outcome, u) => SentExactly(plan, command, s, k, SendRun(outcome, u))
  {
    var u := RoomToTry(plan, command, s, k, t);
    TryIs(command, s, k, u);
    assert TriesTake(plan.backoff, s, k + 1) == TriesTake(plan.backoff, s, k) + (if k > 0 then Max(0, plan.backoff) else 0) + SendAt(s, k).took;
    hide Tries, TriesTake, AllFail, StepSend, SendAt, Pause, ChecksFor;
    if SendAt(s, k).answer.Failed? {
      AllFailLonger(s, k);
    }
  }

  /** And when it has none. */
  lemma NoRoom(plan: Plan, command: string, s: Scene, k: nat, t: Scene)
    requires AfterFailures(plan, command, s, k, t) && k == LiveTries(s.world.ctx, plan.retries) < plan.retries
    ensures var step := StepSend(plan, command, k + 1, t); step.SendDone? && SentExactly(plan, command, s, k, SendRun(step.outcome, step.scene))
  {
    assert s.world.ctx.checks - ChecksFor(k) < if k > 0 then 2 else 1;
  }

  lemma {:induction false} SendFromExactly(plan: Plan, command: string, s: Scene, k: nat, t: Scene) returns (end: nat)
    requires k <= LiveTries(s.world.ctx, plan.retries) && AfterFailures(plan, command, s, k, t)
    ensures SentExactly(plan, command, s, end, SendFrom(plan, command, k + 1, t))
    decreases plan.retries - k
  {
    end := k;
    if k < plan.retries {
      var step := StepSend(plan, command, k + 1, t);
      SendUnfolds(plan, command, k + 1, t, step);
      if k < LiveTries(s.world.ctx, plan.retries) {
        NextTry(plan, command, s, k, t);
        hide AfterFailures, SentExactly, StepSend, SendFrom;
        if step.SendAgain? {
          end := SendFromExactly(plan, command, s, k + 1, step.scene);
        }
      } else {
        NoRoom(plan, command, s, k, t);
      }
    }
  }

  /** Exactly how often a command is sent, in whatever context, and how that ends: until a try does
      not fail, with a backoff between two, as many times at most as configured, and only while the
      context is live. */
  lemma SendsExactly(plan: Plan, command: string, s: Scene)
    ensures exists k :: 0 <= k <= plan.retries && SentExactly(plan, command, s, k, SendFrom(plan, command, 1, s))
  {
    assert AfterFailures(plan, command, s, 0, s) by {
      assert s.acts + [] == s.acts && s.sends[0..] == s.sends;
    }
    var k := SendFromExactly(plan, command, s, 0, s);
  }

  // ---- what a command waits for ----------------------------------------------------

  /** Every read of a command comes no sooner than this. */
  ghost predicate ReadsFrom(acts: seq<Act>, time: int) { forall i :: 0 <= i < |acts| && acts[i].ReadBack? ==> acts[i].asked.now >= time }

  lemma ReadsFromGrows(acts: seq<Act>, a: Act, time: int)
    requires ReadsFrom(acts, time) && (a.ReadBack? ==> a.asked.now >= time)
    ensures ReadsFrom(acts + [a], time)
  {
  }

  lemma StepBackReadsFrom(plan: Plan, owner: string, name: string, values: map<string, string>, s: Scene, time: int)
    requires ReadsFrom(s.acts, time) && s.world.now >= time
    ensures var step := StepBack(plan, owner, 0, name, values, s); ReadsFrom(step.scene.acts, time) && step.scene.world.now >= time
  {
    hide ReadsFrom;
    if name !in values && name in plan.byName {
      var reg := plan.byName[name];
      var r := ReadSingle(RuleOf(reg), plan.readRetries, plan.readBackoff, s.world);
      ReadIsLater(RuleOf(reg), plan.readRetries, plan.readBackoff, 1, plan.readRetries, [], s.world);
      ReadsFromGrows(s.acts, ReadBack(name, s.world, r.outcome), time);
      if r.outcome.Read? && reg.topic != "" {
        ReadsFromGrows(s.acts + [ReadBack(name, s.world, r.outcome)], Published(reg.topic, r.outcome.sample.text), time);
      }
    }
  }

  lemma {:induction false} BackReadsFrom(plan: Plan, owner: string, names: seq<string>, values: map<string, string>, s: Scene, time: int)
    requires ReadsFrom(s.acts, time) && s.world.now >= time
    ensures ReadsFrom(BackFrom(plan, owner, 0, names, values, s).scene.acts, time)
    decreases |names|
  {
    hide ReadsFrom, StepBack;
    if names != [] {
      var step := StepBack(plan, owner, 0, names[0], values, s);
      StepBackReadsFrom(plan, owner, names[0], values, s, time);
      BackUnfolds(plan, owner, 0, names, values, s, step);
      if step.Kept? {
        BackReadsFrom(plan, owner, names[1..], step.values, step.scene, time);
      }
    }
  }

  lemma VerifyReadsFrom(o: Order, s: Scene, time: int)
    requires ReadsFrom(s.acts, time) && s.world.now >= time
    ensures ReadsFrom(Verify(o.plan, o.reg, o.value, s).scene.acts, time)
  {
    hide ReadsFrom;
    var back, v := ReadBackRun(o.plan, o.reg, 0, s), Verify(o.plan, o.reg, o.value, s);
    if Checkable(o.plan, o.reg) {
      BackReadsFrom(o.plan, o.reg.name, Names(o.reg), map[], s, time);
    }
    ReadsFromGrows(back.scene.acts, Judged(v.verdict.pass), time);
  }

  lemma {:induction false} SendReadsFrom(o: Order, attempt: nat, k: nat, s: Scene, time: int)
    requires attempt + k == o.plan.retries + 1 && ReadsFrom(s.acts, time)
    ensures ReadsFrom(SendFrom(o.plan, o.command, attempt, s).scene.acts, time)
    decreases k
  {
    hide ReadsFrom;
    if k > 0 {
      var step := StepSend(o.plan, o.command, attempt, s);
      ReadsFromGrows(s.acts, Tried(o.command, s.NextSend().answer), time);
      SendUnfolds(o.plan, o.command, attempt, s, step);
      if step.SendAgain? {
        SendReadsFrom(o, attempt + 1, k - 1, step.scene, time);
      }
    }
  }

  /** An attempt that began no sooner than `start` reads no sooner than a settle delay later. */
  lemma StepWaits(o: Order, attempt: nat, s: Scene, start: int)
    requires s.world.now >= start && ReadsFrom(s.acts, start + Max(0, o.plan.settleDelay))
    ensures var step := StepWrite(o, attempt, s);
      && ReadsFrom(step.scene.acts, start + Max(0, o.plan.settleDelay)) && step.scene.world.now >= start
      && (step.Aborted? && step.outcome == Interrupted ==> step.scene.world.ctx.Done())
  {
    hide ReadsFrom, SendFrom, Verify;
    var time := start + Max(0, o.plan.settleDelay);
    var sent := SendFrom(o.plan, o.command, 1, s);
    SendReadsFrom(o, 1, o.plan.retries, s, time);
    StepWriteGoesOn(o, WireOf(s.world), attempt, s);
    SendGoesOn(o.plan, WireOf(s.world), o.command, 1, o.plan.retries, s);
    if sent.outcome.Delivered? {
      var t := Remembered(o.topic, Itoa(o.value), sent.scene);
      var slept := Sleep(t.world, o.plan.settleDelay);
      if slept.ok {
        VerifyReadsFrom(o, t.(world := slept.world), time);
      }
    }
  }

  lemma {:induction false} WriteWaits(o: Order, attempt: nat, s: Scene, start: int)
    requires s.world.now >= start && ReadsFrom(s.acts, start + Max(0, o.plan.settleDelay))
    ensures var step := WriteFrom(o, attempt, s);
      && ReadsFrom(step.scene.acts, start + Max(0, o.plan.settleDelay))
      && (step.Aborted? && step.outcome == Interrupted ==> step.scene.world.ctx.Done())
    decreases Max(0, WRITE_ATTEMPTS - attempt)
  {
    hide ReadsFrom, StepWrite;
    var step := StepWrite(o, attempt, s);
    StepWaits(o, attempt, s, start);
    WriteUnfolds(o, attempt, s, step);
    if step.Resend? {
      WriteWaits(o, attempt + 1, step.scene, start);
    }
  }

  lemma NothingRead(time: int)
    ensures ReadsFrom([], time)
  {
  }

  /** A command gives the unit its moment: no read-back comes sooner than a settle delay after the
      command began; and it is interrupted only when its context was found done. */
  lemma CommandWaits(plan: Plan, topic: string, message: string, s: Scene)
    ensures var r := Handle(plan, topic, message, s);
      ReadsFrom(r.scene.acts, s.world.now + Max(0, plan.settleDelay)) && (r.outcome == Interrupted ==> r.scene.world.ctx.Done())
  {
    AcceptedIsCarried(plan, topic, message, s);
    hide ReadsFrom, WriteFrom, IsDuplicate, Parsed, Handle;
    assert ReadsFrom([], s.world.now + Max(0, plan.settleDelay)) by { NothingRead(s.world.now + Max(0, plan.settleDelay)); }
    if IsValid(plan, topic, message) && !Dropped(plan, topic, message, s) {
      var o, idle := OrderOf(plan, topic, message), s.(acts := []);
      var begun := NextSequence(o.reg.name, idle);
      WriteWaits(o, 1, begun, s.world.now);
      var step := WriteFrom(o, 1, begun);
      if step.Settled? {
        ReadsFromGrows(step.scene.acts, StatePublished(o.reg.topic, if step.verdict.actual.Some? then step.verdict.actual.value else Itoa(o.value)),
                       s.world.now + Max(0, plan.settleDelay));
      }
    }
  }
}
