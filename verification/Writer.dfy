/** The writer of `internal/registers/writer.go`: the program that computes what Writing.dfy
    describes, around the real gate and the real settle runner. */
module Writer {
  import opened Basics
  import opened Values
  import opened Samples
  import opened ConfirmedRead
  import opened CheckedPublish
  import opened Dedupe
  import opened Writing
  import opened WriteContract
  import Gate
  import Resettle

  function ByTopic(regs: seq<WriteRegister>): map<string, WriteRegister> {
    if regs == [] then map[]
    else
      var reg := regs[|regs| - 1];
      if reg.subscribeTopic == "" then ByTopic(regs[..|regs| - 1]) else ByTopic(regs[..|regs| - 1])[reg.subscribeTopic := reg]
  }

  /** The pending re-reads after one more is scheduled; with no delay none is. */
  function Rescheduled(pending: map<string, Resettle.Entry>, delay: int, name: string, number: nat, now: int): map<string, Resettle.Entry> {
    if delay > 0 then pending[name := Resettle.Entry(name, number, now + delay)] else pending
  }

  lemma CheckableIsRead(plan: Plan, reg: WriteRegister, s: Scene)
    ensures ReadBackRun(plan, reg, 0, s).values.Some? <==> Checkable(plan, reg)
  {
    NeverAbandoned(plan, reg.name, Names(reg), map[], s);
  }

  lemma HeldIsReleased(before: Gate.GateState, held: Gate.GateState)
    requires held.holds == before.holds + 1
    ensures held.Released().holds == before.holds
  {
  }

  class Writer {
    const reader: Reader
    const gate: Gate.ReadGate
    const resettle: Resettle.Resettler?
    const byTopic: map<string, WriteRegister>
    const retries: nat
    const backoff: int
    const settleDelay: int
    const hasReader: bool

    var sends: seq<SendReply>
    var bumps: seq<nat>
    var writeSeq: map<string, nat>
    var lastCommand: map<string, LastWrite>
    ghost var history: seq<Deed>
    ghost var acts: seq<Act>

    constructor (reader: Reader, hasReader: bool, gate: Gate.ReadGate, resettle: Resettle.Resettler?, registers: seq<WriteRegister>,
                 retries: int, backoff: int, settleDelay: int, sends: seq<SendReply>, bumps: seq<nat>)
      ensures this.reader == reader && this.hasReader == hasReader && this.gate == gate && this.resettle == resettle
      ensures byTopic == ByTopic(registers) && this.retries == Max(retries, 1) && this.backoff == backoff && this.settleDelay == settleDelay
      ensures this.sends == sends && this.bumps == bumps && writeSeq == map[] && lastCommand == map[] && history == [] && acts == []
    {
      this.reader, this.hasReader, this.gate, this.resettle := reader, hasReader, gate, resettle;
      this.retries, this.backoff, this.settleDelay := if retries < 1 then 1 else retries, backoff, settleDelay;
      this.sends, this.bumps, writeSeq, lastCommand, history, acts := sends, bumps, map[], map[], [], [];
      var index: map<string, WriteRegister> := map[];
      for i := 0 to |registers|
        invariant index == ByTopic(registers[..i])
      {
        if registers[i].subscribeTopic != "" {
          index := index[registers[i].subscribeTopic := registers[i]];
        }
        assert registers[..i + 1][..i] == registers[..i];
      }
      assert registers[..|registers|] == registers;
      byTopic := index;
    }

    ghost function Plan(): Writing.Plan {
      Writing.Plan(byTopic, reader.byName, reader.retries, reader.backoff, retries, backoff, settleDelay, hasReader)
    }

    ghost function Facing(ctx: Ctx): Scene
      reads this, reader, reader.dev
    {
      Scene(reader.Facing(ctx), sends, writeSeq, bumps, lastCommand, history, acts)
    }

    // ---- sequence numbers and the record -------------------------------------------

    /** `WriteSequence`; other goroutines may have got commands accepted before it looks. */
    method WriteSequence(name: string) returns (n: nat)
      modifies this`writeSeq, this`bumps
      ensures forall ctx :: Facing(ctx) == old(Facing(ctx)).Looked(name) && n == Count(Facing(ctx).accepted, name)
    {
      n := Count(writeSeq, name);
      if bumps != [] {
        n, bumps := n + bumps[0], bumps[1..];
      }
      writeSeq := writeSeq[name := n];
    }

    method NextWriteSequence(name: string) returns (n: nat)
      modifies this`writeSeq
      ensures n == Count(old(writeSeq), name) + 1
      ensures forall ctx :: Facing(ctx) == NextSequence(name, old(Facing(ctx)))
    {
      n := Count(writeSeq, name) + 1;
      writeSeq := writeSeq[name := n];
    }

    predicate IsDuplicate(topic: string, value: string)
      reads this, reader.dev
    {
      if topic !in lastCommand || lastCommand[topic].value != value then false
      else reader.dev.now - lastCommand[topic].at < WINDOW
    }

    method ForgetSent(topic: string, value: string)
      modifies this`lastCommand, this`history
      ensures forall ctx :: Facing(ctx) == Forgotten(topic, value, old(Facing(ctx)))
    {
      if topic in lastCommand && lastCommand[topic].value == value {
        lastCommand := lastCommand - {topic};
      }
      history := history + [Deed.Forgot(topic, value)];
    }

    method RememberSent(topic: string, value: string)
      modifies this`lastCommand, this`history
      ensures forall ctx :: Facing(ctx) == Remembered(topic, value, old(Facing(ctx)))
    {
      lastCommand := lastCommand[topic := LastWrite(value, reader.dev.now)];
      history := history + [Deed.Sent(topic, value, reader.dev.now)];
    }

    // ---- sending -------------------------------------------------------------------

    method Send(command: string) returns (answer: SendAnswer)
      modifies this`sends, this`acts, reader.dev`now
      ensures forall ctx :: Facing(ctx) == old(Facing(ctx)).Sent(command) && answer == old(Facing(ctx)).NextSend().answer
    {
      var reply := NO_SEND;
      if sends != [] {
        reply, sends := sends[0], sends[1..];
      }
      reader.dev.now := reader.dev.now + reply.took;
      acts := acts + [Tried(command, reply.answer)];
      answer := reply.answer;
    }

    method SleepCtx(ctx: Ctx, d: int) returns (ok: bool, left: Ctx)
      modifies reader.dev`now, reader.dev`rolls
      ensures var slept := Sleep(old(Facing(ctx)).world, d);
        ok == slept.ok && Facing(left) == old(Facing(ctx)).(world := slept.world)
    {
      ghost var w := Facing(ctx).world;
      ok, left := reader.dev.SleepCtx(ctx, d);
      assert Slept(ok, w.(now := reader.dev.now, ctx := left, rolls := reader.dev.rolls)) == Sleep(w, d);
    }

    /** The body of the loop of `sendCommand`: `None` means another attempt. */
    method TrySend(ctx: Ctx, command: string, attempt: nat) returns (done: Option<SendOutcome>, left: Ctx)
      modifies this`sends, this`acts, reader.dev`now, reader.dev`rolls
      ensures (match done
               case Some(outcome) => SendDone(outcome, Facing(left))
               case None => SendAgain(Facing(left))) == StepSend(Plan(), command, attempt, old(Facing(ctx)))
    {
      left := ctx.Checked();
      if ctx.Done() {
        return Some(SendCut), left;
      }
      ghost var slept := Pause(backoff, attempt, Facing(left).world);
      if attempt > 1 {
        var ok;
        ok, left := SleepCtx(left, backoff);
        if !ok {
          return Some(SendCut), left;
        }
      }
      assert slept == Slept(true, Facing(left).world);
      var answer := Send(command);
      match answer
      case Taken => done := Some(Delivered);
      case Broken => done := Some(SendCut);
      case Failed => done := None;
    }

    method SendCommand(ctx: Ctx, command: string) returns (outcome: SendOutcome, left: Ctx)
      modifies this`sends, this`acts, reader.dev`now, reader.dev`rolls
      ensures SendRun(outcome, Facing(left)) == SendFrom(Plan(), command, 1, old(Facing(ctx)))
    {
      left := ctx;
      for attempt := 1 to retries + 1
        invariant SendFrom(Plan(), command, attempt, Facing(left)) == SendFrom(Plan(), command, 1, old(Facing(ctx)))
      {
        ghost var step := StepSend(Plan(), command, attempt, Facing(left));
        SendUnfolds(Plan(), command, attempt, Facing(left), step);
        var done;
        done, left := TrySend(left, command, attempt);
        if done.Some? {
          return done.value, left;
        }
      }
      outcome := SendFailed;
    }

    // ---- reading back --------------------------------------------------------------

    /** Hands a value to the publisher. Whether it gets through changes nothing here. */
    method Publish(a: Act)
      modifies this`acts
      ensures acts == old(acts) + [a]
    {
      acts := acts + [a];
    }

    method ReadAndPublish(ctx: Ctx, reg: ReadRegister, name: string, values: map<string, string>) returns (kept: map<string, string>, left: Ctx)
      modifies this`acts, reader`trusted, reader.dev
      ensures Kept(kept, Facing(left)) == StepReading(Plan(), reg, name, values, old(Facing(ctx)))
    {
      ghost var asked := Facing(ctx).world;
      var outcome;
      outcome, left := reader.ReadSingleRaw(ctx, reg);
      acts := acts + [ReadBack(name, asked, outcome)];
      kept := values;
      match outcome
      case Read(sample, _) =>
        kept := values[name := sample.text];
        if reg.topic != "" {
          Publish(Published(reg.topic, sample.text));
        }
      case _ =>
    }

    /** The check for a newer command: a zero number is not checked. */
    method IsCurrent(owner: string, number: nat) returns (current: bool)
      modifies this`writeSeq, this`bumps, this`acts
      ensures forall ctx :: Facing(ctx) == Look(owner, number, old(Facing(ctx)))
      ensures forall ctx :: current <==> number == 0 || Count(Facing(ctx).accepted, owner) == number
    {
      current := true;
      if number != 0 {
        var n := WriteSequence(owner);
        current := n == number;
        acts := acts + [Checked(current)];
      }
    }

    /** The body of the loop of `readBackIfCurrent`. */
    method ReadBackOne(ctx: Ctx, owner: string, number: nat, name: string, values: map<string, string>)
      returns (kept: Option<map<string, string>>, left: Ctx)
      modifies this`writeSeq, this`bumps, this`acts, reader`trusted, reader.dev
      ensures (match kept
               case Some(more) => Kept(more, Facing(left))
               case None => Abandoned(Facing(left))) == StepBack(Plan(), owner, number, name, values, old(Facing(ctx)))
    {
      kept, left := Some(values), ctx;
      if name in values {
        return;
      }
      var current := IsCurrent(owner, number);
      if !current {
        return None, ctx;
      }
      if name !in reader.byName {
        return;
      }
      var more;
      more, left := ReadAndPublish(ctx, reader.byName[name], name, values);
      kept := Some(more);
    }

    method ReadBackAll(ctx: Ctx, owner: string, number: nat, names: seq<string>) returns (values: Option<map<string, string>>, confirmed: bool, left: Ctx)
      modifies this`writeSeq, this`bumps, this`acts, reader`trusted, reader.dev
      ensures BackRun(values, Facing(left)) == BackFrom(Plan(), owner, number, names, map[], old(Facing(ctx)))
      ensures confirmed <==> values.Some? && values.value != map[]
    {
      var kept: map<string, string> := map[];
      confirmed, left := false, ctx;
      for i := 0 to |names|
        invariant confirmed <==> kept != map[]
        invariant BackFrom(Plan(), owner, number, names[i..], kept, Facing(left)) == BackFrom(Plan(), owner, number, names, map[], old(Facing(ctx)))
      {
        ghost var step := StepBack(Plan(), owner, number, names[i], kept, Facing(left));
        BackUnfolds(Plan(), owner, number, names[i..], kept, Facing(left), step);
        assert names[i..][1..] == names[i + 1..];
        var more;
        more, left := ReadBackOne(left, owner, number, names[i], kept);
        if more.None? {
          return None, false, left;
        }
        if more.value != kept {
          kept, confirmed := more.value, true;
        }
      }
      values := Some(kept);
    }

    /** `readBackIfCurrent`: what was read, unless it was abandoned; whether anything was; and
        whether there was anything to read. */
    method ReadBackIfCurrent(ctx: Ctx, reg: WriteRegister, number: nat)
      returns (values: Option<map<string, string>>, confirmed: bool, checkable: bool, left: Ctx)
      modifies this`writeSeq, this`bumps, this`acts, reader`trusted, reader.dev
      ensures BackRun(values, Facing(left)) == ReadBackRun(Plan(), reg, number, old(Facing(ctx)))
      ensures confirmed <==> values.Some? && values.value != map[]
      ensures checkable <==> values.Some?
    {
      values, confirmed, checkable, left := None, false, false, ctx;
      var names := (if reg.stateFrom != "" then [reg.stateFrom] else []) + reg.verifyRegisters;
      if !hasReader || names == [] {
        return;
      }
      values, confirmed, left := ReadBackAll(ctx, reg.name, number, names);
      checkable := values.Some?;
    }

    // ---- verify and publishState ---------------------------------------------------

    method Verify(ctx: Ctx, reg: WriteRegister, value: int) returns (verdict: Verdict, left: Ctx)
      modifies this`writeSeq, this`bumps, this`acts, reader`trusted, reader.dev
      ensures VerifyRun(verdict, Facing(left)) == Writing.Verify(Plan(), reg, value, old(Facing(ctx)))
    {
      ghost var back := ReadBackRun(Plan(), reg, 0, Facing(ctx));
      var values, confirmed, checkable;
      CheckableIsRead(Plan(), reg, Facing(ctx));
      values, confirmed, checkable, left := ReadBackIfCurrent(ctx, reg, 0);
      assert back == BackRun(values, Facing(left));
      var actual := None;
      if reg.stateFrom != "" && values.Some? && reg.stateFrom in values.value {
        actual := Some(values.value[reg.stateFrom]);
      }
      var expected := Itoa(value);
      if actual.Some? && hasReader && reg.stateFrom in reader.byName {
        expected := FormatByType(value, 1, reader.byName[reg.stateFrom].kind);
      }
      var pass := true;
      if actual.Some? {
        pass := actual.value == expected;
      } else if checkable && !confirmed {
        pass := false;
      }
      verdict := Verdict(actual, pass);
      assert verdict == Judgement(Plan(), reg, value, if values.Some? then values.value else map[]);
      acts := acts + [Judged(pass)];
    }

    method PublishState(reg: WriteRegister, commanded: string, verdict: Verdict)
      modifies this`acts
      ensures forall ctx :: Facing(ctx) == Writing.PublishState(reg, commanded, verdict, old(Facing(ctx)))
    {
      if reg.topic == "" {
        return;
      }
      var state := commanded;
      if verdict.actual.Some? {
        state := verdict.actual.value;
      } else if reg.stateFrom != "" {
        return;
      }
      Publish(StatePublished(reg.topic, state));
    }

    // ---- HandleMessage -------------------------------------------------------------

    /** The body of the loop of `HandleMessage`. */
    method WriteOnce(ctx: Ctx, ghost o: Order, reg: WriteRegister, topic: string, value: int, command: string, attempt: nat)
      returns (outcome: Option<Handled>, verdict: Option<Verdict>, left: Ctx)
      requires o == Order(Plan(), reg, topic, value, command)
      modifies this`sends, this`writeSeq, this`bumps, this`acts, this`lastCommand, this`history, reader`trusted, reader.dev
      ensures (if outcome.Some? then Aborted(outcome.value, Facing(left))
               else if verdict.Some? then Settled(verdict.value, Facing(left))
               else Resend(Facing(left))) == StepWrite(o, attempt, old(Facing(ctx)))
      ensures outcome.Some? ==> verdict.None? && outcome.value.Accepted()
    {
      outcome, verdict := None, None;
      ghost var sent := SendFrom(o.plan, command, 1, Facing(ctx));
      var delivered;
      delivered, left := SendCommand(ctx, command);
      assert sent == SendRun(delivered, Facing(left));
      if !delivered.Delivered? {
        outcome := Some(NotSent);
        return;
      }
      RememberSent(topic, Itoa(value));
      ghost var noted := Facing(left);
      assert noted == Remembered(topic, Itoa(value), sent.scene);
      var ok;
      ok, left := SleepCtx(left, settleDelay);
      if !ok {
        outcome := Some(Interrupted);
        return;
      }
      ghost var settled := Facing(left);
      var v;
      v, left := Verify(left, reg, value);
      assert VerifyRun(v, Facing(left)) == Writing.Verify(o.plan, reg, value, settled);
      if v.pass || attempt >= WRITE_ATTEMPTS {
        verdict := Some(v);
      }
    }

    /** The sends of a command in flight and what is published for it. */
    method Carry(ctx: Ctx, ghost o: Order, reg: WriteRegister, topic: string, value: int, command: string) returns (outcome: Handled, left: Ctx)
      requires o == Order(Plan(), reg, topic, value, command)
      modifies this`sends, this`writeSeq, this`bumps, this`acts, this`lastCommand, this`history, reader`trusted, reader.dev
      ensures HandleRun(outcome, Facing(left)) ==
              (match WriteFrom(o, 1, old(Facing(ctx)))
               case Aborted(aborted, s) => HandleRun(aborted, s)
               case Settled(v, s) => Conclude(o, v, s))
      ensures outcome.Accepted()
    {
      left := ctx;
      var verdict: Option<Verdict> := None;
      var attempt := 1;
      while true
        invariant 1 <= attempt <= WRITE_ATTEMPTS
        invariant WriteFrom(o, attempt, Facing(left)) == WriteFrom(o, 1, old(Facing(ctx)))
        decreases WRITE_ATTEMPTS - attempt
      {
        ghost var step := StepWrite(o, attempt, Facing(left));
        WriteUnfolds(o, attempt, Facing(left), step);
        var aborted;
        aborted, verdict, left := WriteOnce(left, o, reg, topic, value, command, attempt);
        if aborted.Some? {
          return aborted.value, left;
        }
        if verdict.Some? {
          break;
        }
        attempt := attempt + 1;
      }
      ghost var settled := Facing(left);
      PublishState(reg, Itoa(value), verdict.value);
      assert Facing(left) == Writing.PublishState(reg, Itoa(value), verdict.value, settled);
      if verdict.value.pass {
        return Written, left;
      }
      ForgetSent(topic, Itoa(value));
      outcome := NotConfirmed;
    }

    /** The caller holds the gate: no cycle is registered, and none can begin for a whole window. */
    predicate Holding()
      reads gate, reader.dev
    {
      gate.cancel.None? && gate.holds > 0 && gate.until == Some(reader.dev.now + gate.timeout)
    }

    /** Counts the command before it goes out, and files a settle re-read under its number
        whatever the outcome. */
    method CountAndCarry(ctx: Ctx, ghost o: Order, reg: WriteRegister, topic: string, value: int) returns (outcome: Handled, left: Ctx)
      requires o == OrderFor(Plan(), topic, reg, value) && Holding()
      modifies this`sends, this`writeSeq, this`bumps, this`acts, this`lastCommand, this`history
      modifies reader`trusted, reader.dev, if resettle != null then {resettle} else {}
      ensures HandleRun(outcome, Facing(left)) == Writing.Carry(o, old(Facing(ctx))) && outcome.Accepted()
      ensures resettle != null ==>
        resettle.pending == Rescheduled(old(resettle.pending), resettle.delay, reg.name, Count(old(writeSeq), reg.name) + 1, reader.dev.now)
    {
      hide WriteFrom, Conclude, Replaced;
      var command := Replaced(reg.template, "{value}", Itoa(value));
      ghost var begun := NextSequence(reg.name, Facing(ctx));
      var number := NextWriteSequence(reg.name);
      assert Facing(ctx) == begun;
      outcome, left := Carry(ctx, o, reg, topic, value, command);
      if resettle != null {
        resettle.Schedule(reg.name, number, reader.dev.now);
      }
    }

    /** A command in flight. The gate is held and released exactly once, on every path. */
    method InFlight(ctx: Ctx, ghost o: Order, reg: WriteRegister, topic: string, value: int) returns (outcome: Handled, left: Ctx)
      requires o == OrderFor(Plan(), topic, reg, value)
      modifies this`sends, this`writeSeq, this`bumps, this`acts, this`lastCommand, this`history
      modifies reader`trusted, reader.dev, gate, if resettle != null then {resettle} else {}
      ensures HandleRun(outcome, Facing(left)) == Writing.Carry(o, old(Facing(ctx))) && outcome.Accepted()
      ensures gate.State() == old(gate.State()).Preempted(old(reader.dev.now) + gate.timeout).Released() && gate.holds == old(gate.holds)
      ensures resettle != null ==>
        resettle.pending == Rescheduled(old(resettle.pending), resettle.delay, reg.name, Count(old(writeSeq), reg.name) + 1, reader.dev.now)
    {
      hide Writing.Carry, Rescheduled, OrderFor;
      ghost var scene, before := Facing(ctx), gate.State();
      ghost var held := before.Preempted(reader.dev.now + gate.timeout);
      var captured := gate.Preempt(reader.dev.now);
      assert gate.State() == held && Facing(ctx) == scene;
      outcome, left := CountAndCarry(ctx, o, reg, topic, value);
      ghost var after := Facing(left);
      assert gate.State() == held && HandleRun(outcome, after) == Writing.Carry(o, scene);
      gate.Release();
      assert gate.State() == held.Released() && Facing(left) == after;
      HeldIsReleased(before, held);
    }

    /** Validates a message before anything is disturbed. */
    method Screen(topic: string, message: string, ghost ctx: Ctx) returns (order: Option<(WriteRegister, int)>, rejection: Handled)
      ensures order.Some? <==> IsValid(Plan(), topic, message) && !Dropped(Plan(), topic, message, Facing(ctx))
      ensures order.Some? ==> topic in byTopic && order.value.0 == byTopic[topic]
      ensures !rejection.Accepted()
      ensures Handle(Plan(), topic, message, Facing(ctx)) ==
              if order.Some? then Writing.Carry(OrderFor(Plan(), topic, order.value.0, order.value.1), Facing(ctx).(acts := []))
              else HandleRun(rejection, Facing(ctx).(acts := []))
    {
      AcceptedIsCarried(Plan(), topic, message, Facing(ctx));
      order, rejection := None, UnknownTopic;
      if topic in byTopic {
        var reg, parsed := byTopic[topic], Parsed(message);
        if parsed.None? {
          rejection := Malformed;
        } else if parsed.value < reg.minValue || parsed.value > reg.maxValue {
          rejection := OutOfRange;
        } else if IsDuplicate(topic, Itoa(parsed.value)) {
          rejection := Duplicate;
        } else {
          order := Some((reg, parsed.value));
        }
      }
    }

    /** `HandleMessage`. A message that is not carried out touches neither the gate nor the
        settle runner; for one that is, the gate is held and released exactly once, on every
        path, and a settle re-read is filed under the command's own number. */
    method HandleMessage(ctx: Ctx, topic: string, message: string) returns (outcome: Handled, left: Ctx)
      modifies this`sends, this`writeSeq, this`bumps, this`acts, this`lastCommand, this`history
      modifies reader`trusted, reader.dev, gate, if resettle != null then {resettle} else {}
      ensures HandleRun(outcome, Facing(left)) == Handle(Plan(), topic, message, old(Facing(ctx)))
      ensures gate.holds == old(gate.holds)
      ensures !outcome.Accepted() ==> gate.State() == old(gate.State()) && (resettle != null ==> resettle.pending == old(resettle.pending))
      ensures outcome.Accepted() ==> gate.State() == old(gate.State()).Preempted(old(reader.dev.now) + gate.timeout).Released()
      ensures outcome.Accepted() ==> topic in byTopic
      ensures outcome.Accepted() && resettle != null ==>
        resettle.pending == Rescheduled(old(resettle.pending), resettle.delay, byTopic[topic].name, Count(old(writeSeq), byTopic[topic].name) + 1, reader.dev.now)
    {
      hide Handle, Writing.Carry, Rescheduled, OrderFor;
      var order, rejection := Screen(topic, message, ctx);
      acts, left := [], ctx;
      if order.None? {
        return rejection, ctx;
      }
      var reg := order.value.0;
      ghost var released := gate.State().Preempted(reader.dev.now + gate.timeout).Released();
      ghost var number, pending := Count(writeSeq, reg.name) + 1, if resettle != null then resettle.pending else map[];
      outcome, left := InFlight(ctx, OrderFor(Plan(), topic, reg, order.value.1), reg, topic, order.value.1);
      assert gate.State() == released && reg == byTopic[topic];
      assert resettle != null ==> resettle.pending == Rescheduled(pending, resettle.delay, reg.name, number, reader.dev.now);
    }

    /** `refreshIfCurrent`, which the settle runner calls. */
    method RefreshIfCurrent(ctx: Ctx, reg: WriteRegister, number: nat) returns (left: Ctx)
      requires number > 0
      modifies this`writeSeq, this`bumps, this`acts, reader`trusted, reader.dev, gate
      ensures Facing(left) == Refresh(Plan(), reg, number, old(Facing(ctx)))
      ensures gate.holds == old(gate.holds)
      ensures gate.State() == if Count(old(Facing(ctx)).Looked(reg.name).accepted, reg.name) != number then old(gate.State())
                              else old(gate.State()).Preempted(old(reader.dev.now) + gate.timeout).Released()
    {
      hide Writing.RefreshHeld;
      acts, left := [], ctx;
      ghost var idle := Facing(ctx);
      var current := IsCurrent(reg.name, number);
      if !current {
        return;
      }
      var captured := gate.Preempt(reader.dev.now);
      ghost var looked := Facing(ctx);
      left := RefreshHeld(ctx, reg, number);
      gate.Release();
    }

    /** The part of a settle re-read that holds the gate. */
    method RefreshHeld(ctx: Ctx, reg: WriteRegister, number: nat) returns (left: Ctx)
      requires number > 0 && Holding()
      modifies this`writeSeq, this`bumps, this`acts, reader`trusted, reader.dev
      ensures Facing(left) == Writing.RefreshHeld(Plan(), reg, number, old(Facing(ctx)))
    {
      ghost var back := ReadBackRun(Plan(), reg, number, Facing(ctx));
      var values, confirmed, checkable;
      values, confirmed, checkable, left := ReadBackIfCurrent(ctx, reg, number);
      assert back == BackRun(values, Facing(left));
      if values.None? || reg.stateFrom == "" || reg.topic == "" || reg.stateFrom !in values.value {
        return;
      }
      var current := IsCurrent(reg.name, number);
      if current {
        Publish(StatePublished(reg.topic, values.value[reg.stateFrom]));
      }
    }
  }
}
