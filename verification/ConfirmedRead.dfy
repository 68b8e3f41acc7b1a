/** `internal/registers/reader.go`: readings that are trusted only when they are close to the
    last trusted value or when a second reading agrees.

    The transactor is adversarial: a script of replies, each of which may also record what
    other goroutines came to trust while this exchange waited for the wire. */
module ConfirmedRead {
  import opened Basics
  import opened Values
  import opened Samples

  /** What a transaction returns: a value, a port-level error, or any other error. */
  datatype Answer = Replied(raw: string) | Lost | Gone

  datatype Reply = Reply(answer: Answer, took: nat, meanwhile: map<string, int>)

  const NO_REPLY := Reply(Lost, 0, map[])

  // ---- readSingleRaw ---------------------------------------------------------------

  /** Everything a read depends on and changes: the clock, the caller's context, the random
      rolls, the replies to come, how many transactions were made, and what is trusted. */
  datatype World = World(now: int, ctx: Ctx, rolls: seq<nat>, replies: seq<Reply>, asked: nat, trusted: map<string, int>) {
    function Checked(): World { this.(ctx := ctx.Checked()) }

    function NextReply(): Reply { if replies == [] then NO_REPLY else replies[0] }

    function NextRoll(): nat { if rolls == [] then 0 else rolls[0] }

    function Rolled(): World { this.(rolls := if rolls == [] then [] else rolls[1..]) }

    /** The world after the next transaction. */
    function Transacted(): World {
      this.(now := now + NextReply().took, replies := if replies == [] then [] else replies[1..], asked := asked + 1,
            trusted := trusted + NextReply().meanwhile)
    }
  }

  /** `jittered`. */
  function Jittered(d: int, roll: nat): int { if d <= 0 then d else d + roll % (d / 2 + 1) }

  /** `sleepCtx`: a cancelled sleep ends early, the random roll says when. */
  datatype Slept = Slept(ok: bool, world: World)

  function Sleep(w: World, d: int): Slept {
    if w.ctx.Done() then Slept(false, w.Checked().Rolled().(now := w.now + if d <= 0 then 0 else w.NextRoll() % (d + 1)))
    else Slept(true, w.Checked().(now := w.now + Max(0, d)))
  }

  /** `ByTrust`: close to the trusted value. `ByAgreement`: another reading of this call agrees. */
  datatype Support = ByTrust | ByAgreement

  datatype ReadOutcome = Read(sample: Sample, support: Support) | ReadCancelled | PortLost | Unconfirmed(readings: seq<string>) | Unread

  datatype ReadStep = Finished(outcome: ReadOutcome, world: World) | Again(samples: seq<Sample>, world: World)

  /** The wait before an attempt: none before the first. */
  function BackOff(backoff: int, attempt: nat, w: World): Slept {
    if attempt > 1 then Sleep(w.Rolled(), Jittered(backoff, w.NextRoll())) else Slept(true, w)
  }

  /** Judging a reply; w is the world after the transaction. */
  function Judge(answer: Answer, rule: Rule, samples: seq<Sample>, w: World): ReadStep {
    match answer
    case Lost => if w.ctx.Done() then Finished(ReadCancelled, w.Checked()) else Again(samples, w.Checked())
    case Gone => Finished(if w.ctx.Done() then ReadCancelled else PortLost, w.Checked())
    case Replied(raw) =>
      match rule.sample(raw)
      case None => Again(samples, w)
      case Some(s) =>
        if IsTrusted(w.trusted, rule, s.tenths) then
          Finished(Read(s, ByTrust), w.(trusted := w.trusted[rule.name := s.tenths]))
        else if AgreesWithAny(s, samples, rule) then
          Finished(Read(s, ByAgreement), w.(trusted := w.trusted[rule.name := s.tenths]))
        else Again(samples + [s], w)
  }

  /** One attempt. */
  function StepRead(rule: Rule, backoff: int, attempt: nat, samples: seq<Sample>, w: World): ReadStep {
    if w.ctx.Done() then Finished(ReadCancelled, w.Checked())
    else
      var slept := BackOff(backoff, attempt, w.Checked());
      if !slept.ok then Finished(ReadCancelled, slept.world)
      else Judge(slept.world.NextReply().answer, rule, samples, slept.world.Transacted())
  }

  function Raws(samples: seq<Sample>): seq<string> { seq(|samples|, i requires 0 <= i < |samples| => samples[i].raw) }

  datatype ReadRun = ReadRun(outcome: ReadOutcome, world: World)

  function ReadFrom(rule: Rule, retries: nat, backoff: int, attempt: nat, samples: seq<Sample>, w: World): ReadRun
    decreases Max(0, retries + 1 - attempt)
  {
    if attempt > retries then ReadRun(if samples != [] then Unconfirmed(Raws(samples)) else Unread, w)
    else
      match StepRead(rule, backoff, attempt, samples, w)
      case Finished(outcome, after) => ReadRun(outcome, after)
      case Again(more, after) => ReadFrom(rule, retries, backoff, attempt + 1, more, after)
  }

  lemma ReadUnfolds(rule: Rule, retries: nat, backoff: int, attempt: nat, samples: seq<Sample>, w: World, s: ReadStep)
    requires attempt <= retries && s == StepRead(rule, backoff, attempt, samples, w)
    ensures s.Finished? ==> ReadFrom(rule, retries, backoff, attempt, samples, w) == ReadRun(s.outcome, s.world)
    ensures s.Again? ==> ReadFrom(rule, retries, backoff, attempt, samples, w) == ReadFrom(rule, retries, backoff, attempt + 1, s.samples, s.world)
  {
  }

  /** `readSingleRaw`. */
  function ReadSingle(rule: Rule, retries: nat, backoff: int, w: World): ReadRun {
    ReadFrom(rule, retries, backoff, 1, [], w)
  }

  // ---- what a read may trust -------------------------------------------------------

  /** The reply to the i-th transaction from w on. */
  function ReplyAt(w: World, i: nat): Reply { if i < |w.replies| then w.replies[i] else NO_REPLY }

  /** The trust map once k replies have come, by what other goroutines have trusted. */
  function TrustAfter(w: World, k: nat): map<string, int> {
    if k == 0 then w.trusted else TrustAfter(w, k - 1) + ReplyAt(w, k - 1).meanwhile
  }

  function SampleAt(w: World, rule: Rule, i: nat): Option<Sample> {
    if ReplyAt(w, i).answer.Replied? then rule.sample(ReplyAt(w, i).answer.raw) else None
  }

  /** The valid readings among the first k replies, in order. */
  function SamplesUpTo(w: World, rule: Rule, k: nat): seq<Sample> {
    if k == 0 then []
    else
      match SampleAt(w, rule, k - 1)
      case Some(s) => SamplesUpTo(w, rule, k - 1) + [s]
      case None => SamplesUpTo(w, rule, k - 1)
  }

  /** v is w after k transactions whose readings were not trusted. */
  ghost predicate After(w: World, v: World, k: nat) {
    v.asked == w.asked + k && v.replies == w.replies[Min(k, |w.replies|)..] && v.trusted == TrustAfter(w, k)
  }

  /** A call that began in w and made k transactions ended as it may: with the last reading,
      valid, in range, and near the value trusted by then or in agreement with an earlier
      reading, and that one value newly trusted; or with nothing newly trusted. */
  ghost predicate Justified(rule: Rule, w: World, k: nat, r: ReadRun) {
    && r.world.asked == w.asked + k
    && match r.outcome
       case Read(s, support) =>
         && k >= 1 && SampleAt(w, rule, k - 1) == Some(s)
         && (if support.ByTrust? then IsTrusted(TrustAfter(w, k), rule, s.tenths)
             else AgreesWithAny(s, SamplesUpTo(w, rule, k - 1), rule))
         && r.world.trusted == TrustAfter(w, k)[rule.name := s.tenths]
       case _ => r.world.trusted == TrustAfter(w, k)
  }

  lemma BackOffKeeps(backoff: int, attempt: nat, w: World)
    ensures var v := BackOff(backoff, attempt, w).world;
      v.asked == w.asked && v.replies == w.replies && v.trusted == w.trusted
  {
  }

  lemma TransactedIsAfter(w: World, v: World, k: nat)
    requires After(w, v, k)
    ensures After(w, v.Transacted(), k + 1) && v.NextReply() == ReplyAt(w, k)
  {
  }

  lemma JudgeJustified(rule: Rule, w: World, v: World, k: nat)
    requires After(w, v, k + 1)
    ensures match Judge(ReplyAt(w, k).answer, rule, SamplesUpTo(w, rule, k), v)
      case Finished(outcome, u) => Justified(rule, w, k + 1, ReadRun(outcome, u))
      case Again(more, u) => After(w, u, k + 1) && more == SamplesUpTo(w, rule, k + 1)
  {
  }

  lemma StepJustified(rule: Rule, backoff: int, attempt: nat, w: World, v: World, k: nat) returns (made: nat)
    requires After(w, v, k)
    ensures k <= made <= k + 1
    ensures match StepRead(rule, backoff, attempt, SamplesUpTo(w, rule, k), v)
      case Finished(outcome, u) => Justified(rule, w, made, ReadRun(outcome, u))
      case Again(more, u) => After(w, u, k + 1) && more == SamplesUpTo(w, rule, k + 1)
  {
    made := k;
    if !v.ctx.Done() {
      var slept := BackOff(backoff, attempt, v.Checked());
      BackOffKeeps(backoff, attempt, v.Checked());
      assert After(w, slept.world, k);
      if slept.ok {
        TransactedIsAfter(w, slept.world, k);
        JudgeJustified(rule, w, slept.world.Transacted(), k);
        made := k + 1;
      }
    }
  }

  /** From the k-th attempt on, counting from 0. */
  lemma {:induction false} ReadFromJustified(rule: Rule, retries: nat, backoff: int, k: nat, w: World, v: World) returns (made: nat)
    requires After(w, v, k)
    ensures made <= Max(retries, k)
    ensures Justified(rule, w, made, ReadFrom(rule, retries, backoff, k + 1, SamplesUpTo(w, rule, k), v))
    decreases Max(0, retries - k)
  {
    if k >= retries {
      return k;
    }
    var samples := SamplesUpTo(w, rule, k);
    var step := StepRead(rule, backoff, k + 1, samples, v);
    made := StepJustified(rule, backoff, k + 1, w, v, k);
    ReadUnfolds(rule, retries, backoff, k + 1, samples, v, step);
    if step.Again? {
      made := ReadFromJustified(rule, retries, backoff, k + 1, w, step.world);
    }
  }

  lemma ReadIsJustified(rule: Rule, retries: nat, backoff: int, w: World)
    ensures exists k :: 0 <= k <= retries && Justified(rule, w, k, ReadSingle(rule, retries, backoff, w))
  {
    assert After(w, w, 0) && SamplesUpTo(w, rule, 0) == [];
    var k := ReadFromJustified(rule, retries, backoff, 0, w, w);
    assert Justified(rule, w, k, ReadSingle(rule, retries, backoff, w));
  }

  /** The trust-map invariant: success sets exactly this register's trust to the value returned
      and any error leaves the map to the other goroutines; a returned value is in range and
      near the value trusted at its check or an earlier reading of the same call; and no call
      makes more transactions than it has attempts. */
  lemma TrustMapInvariant(reg: ReadRegister, retries: nat, backoff: int, w: World)
    ensures var r := ReadSingle(RuleOf(reg), retries, backoff, w);
      && (exists k :: 0 <= k <= retries && Justified(RuleOf(reg), w, k, r))
      && (r.outcome.Read? ==> InRange(r.outcome.sample.tenths, reg) && reg.name in r.world.trusted && r.world.trusted[reg.name] == r.outcome.sample.tenths)
  {
    var rule := RuleOf(reg);
    var r := ReadSingle(rule, retries, backoff, w);
    RegisterRules(reg);
    ReadIsJustified(rule, retries, backoff, w);
    var k :| 0 <= k <= retries && Justified(rule, w, k, r);
    if r.outcome.Read? {
      assert rule.sample(ReplyAt(w, k - 1).answer.raw).Some?;
    }
  }

  // ---- ReadAll ---------------------------------------------------------------------

  datatype RegisterValue = RegisterValue(value: string, raw: string, valid: bool)

  const INVALID := RegisterValue("", "", false)

  function Recorded(o: ReadOutcome): RegisterValue {
    if o.Read? then RegisterValue(o.sample.text, o.sample.raw, true) else INVALID
  }

  datatype Cycle = Cycle(results: map<string, RegisterValue>, cancelled: bool, world: World)

  /** `ReadAll` from some register on. */
  function ReadAllFrom(regs: seq<ReadRegister>, retries: nat, backoff: int, results: map<string, RegisterValue>, w: World): Cycle {
    if regs == [] then Cycle(results, false, w)
    else if w.ctx.Done() then Cycle(results, true, w.Checked())
    else
      var r := ReadSingle(RuleOf(regs[0]), retries, backoff, w.Checked());
      if r.outcome.ReadCancelled? then Cycle(results, true, r.world)
      else ReadAllFrom(regs[1..], retries, backoff, results[regs[0].name := Recorded(r.outcome)], r.world)
  }

  /** A cycle that was not cancelled has an entry for exactly the configured registers. */
  lemma {:induction false} CycleCovers(regs: seq<ReadRegister>, retries: nat, backoff: int, results: map<string, RegisterValue>, w: World)
    ensures var c := ReadAllFrom(regs, retries, backoff, results, w);
      && c.results.Keys <= results.Keys + (set r | r in regs :: r.name)
      && results.Keys <= c.results.Keys
      && (!c.cancelled ==> c.results.Keys == results.Keys + (set r | r in regs :: r.name))
  {
    if regs != [] && !w.ctx.Done() {
      var r := ReadSingle(RuleOf(regs[0]), retries, backoff, w.Checked());
      assert (set q | q in regs :: q.name) == {regs[0].name} + (set q | q in regs[1..] :: q.name) by {
        assert regs == [regs[0]] + regs[1..];
      }
      if !r.outcome.ReadCancelled? {
        CycleCovers(regs[1..], retries, backoff, results[regs[0].name := Recorded(r.outcome)], r.world);
      }
    }
  }

  // ---- the program -----------------------------------------------------------------

  /** The transactor, the clock and the random source a reader runs against. */
  class Device {
    var now: int
    var rolls: seq<nat>
    var replies: seq<Reply>
    var asked: nat

    constructor (now: int, rolls: seq<nat>, replies: seq<Reply>)
      ensures this.now == now && this.rolls == rolls && this.replies == replies && asked == 0
    {
      this.now, this.rolls, this.replies, asked := now, rolls, replies, 0;
    }

    method Transact(command: string) returns (reply: Reply)
      modifies this`now, this`replies, this`asked
      ensures reply == if old(replies) == [] then NO_REPLY else old(replies)[0]
      ensures replies == if old(replies) == [] then [] else old(replies)[1..]
      ensures now == old(now) + reply.took && asked == old(asked) + 1
    {
      reply := NO_REPLY;
      if replies != [] {
        reply, replies := replies[0], replies[1..];
      }
      now, asked := now + reply.took, asked + 1;
    }

    method Roll() returns (roll: nat)
      modifies this`rolls
      ensures roll == if old(rolls) == [] then 0 else old(rolls)[0]
      ensures rolls == if old(rolls) == [] then [] else old(rolls)[1..]
    {
      roll := 0;
      if rolls != [] {
        roll, rolls := rolls[0], rolls[1..];
      }
    }

    /** `sleepCtx`. */
    method SleepCtx(ctx: Ctx, d: int) returns (ok: bool, left: Ctx)
      modifies this`now, this`rolls
      ensures forall w: World :: w.now == old(now) && w.ctx == ctx && w.rolls == old(rolls) ==>
        Slept(ok, w.(now := now, ctx := left, rolls := rolls)) == Sleep(w, d)
    {
      left := ctx.Checked();
      ok := !ctx.Done();
      if ok {
        now := now + Max(0, d);
      } else {
        var roll := Roll();
        now := now + if d <= 0 then 0 else roll % (d + 1);
      }
    }
  }

  /** How many attempts a reader makes that is given so many. */
  function AttemptsFor(retries: int): nat { Max(retries, 2) }

  /** The registers by their names; a later one replaces an earlier one of the same name. */
  function ByName(regs: seq<ReadRegister>): map<string, ReadRegister> {
    if regs == [] then map[] else ByName(regs[..|regs| - 1])[regs[|regs| - 1].name := regs[|regs| - 1]]
  }

  class Reader {
    const dev: Device
    const registers: seq<ReadRegister>
    const byName: map<string, ReadRegister>
    const retries: nat
    const backoff: int
    var trusted: map<string, int>

    /** With a single attempt no reading could be confirmed, so there are always two. */
    constructor (dev: Device, registers: seq<ReadRegister>, retries: int, backoff: int)
      ensures this.dev == dev && this.registers == registers && this.backoff == backoff && trusted == map[]
      ensures this.retries == AttemptsFor(retries) >= 2 && byName == ByName(registers)
    {
      this.dev, this.registers, this.backoff, trusted := dev, registers, backoff, map[];
      this.retries := if retries < 2 then 2 else retries;
      var index: map<string, ReadRegister> := map[];
      for i := 0 to |registers|
        invariant index == ByName(registers[..i])
      {
        index := index[registers[i].name := registers[i]];
        assert registers[..i + 1][..i] == registers[..i];
      }
      assert registers[..|registers|] == registers;
      byName := index;
    }

    ghost function Facing(ctx: Ctx): World
      reads this, dev
    {
      World(dev.now, ctx, dev.rolls, dev.replies, dev.asked, trusted)
    }

    method AgreesWithEarlier(s: Sample, samples: seq<Sample>, reg: ReadRegister) returns (agrees: bool)
      ensures agrees == AgreesWithAny(s, samples, RuleOf(reg))
    {
      for i := 0 to |samples|
        invariant forall j :: 0 <= j < i ==> !Agree(samples[j], s, RuleOf(reg))
      {
        if Agree(samples[i], s, RuleOf(reg)) {
          return true;
        }
      }
      agrees := false;
    }

    method Trust(name: string, tenths: int)
      modifies this`trusted
      ensures trusted == old(trusted)[name := tenths]
    {
      trusted := trusted[name := tenths];
    }

    /** The part of an attempt that follows the reply: `None` means another attempt. */
    method JudgeReply(ctx: Ctx, answer: Answer, reg: ReadRegister, samples: seq<Sample>)
      returns (done: Option<ReadOutcome>, more: seq<Sample>, left: Ctx)
      modifies this`trusted
      ensures (match done
               case Some(o) => Finished(o, Facing(left))
               case None => Again(more, Facing(left))) == Judge(answer, RuleOf(reg), samples, old(Facing(ctx)))
    {
      more, left, done := samples, ctx, None;
      match answer
      case Lost =>
        left := ctx.Checked();
        if ctx.Done() { done := Some(ReadCancelled); }
      case Gone =>
        left := ctx.Checked();
        done := Some(if ctx.Done() then ReadCancelled else PortLost);
      case Replied(raw) =>
        match ToSample(raw, reg)
        case None =>
        case Some(s) =>
          if IsTrusted(trusted, RuleOf(reg), s.tenths) {
            Trust(reg.name, s.tenths);
            done := Some(Read(s, ByTrust));
            return;
          }
          var agrees := AgreesWithEarlier(s, samples, reg);
          if agrees {
            Trust(reg.name, s.tenths);
            done := Some(Read(s, ByAgreement));
          } else {
            more := samples + [s];
          }
    }

    /** The body of the loop of `readSingleRaw`: `None` means another attempt. */
    method Attempt(ctx: Ctx, reg: ReadRegister, attempt: nat, samples: seq<Sample>)
      returns (done: Option<ReadOutcome>, more: seq<Sample>, left: Ctx)
      modifies this`trusted, dev
      ensures (match done
               case Some(o) => Finished(o, Facing(left))
               case None => Again(more, Facing(left))) == StepRead(RuleOf(reg), backoff, attempt, samples, old(Facing(ctx)))
    {
      more, left := samples, ctx.Checked();
      if ctx.Done() {
        return Some(ReadCancelled), more, left;
      }
      ghost var slept := BackOff(backoff, attempt, Facing(left));
      if attempt > 1 {
        var roll := dev.Roll();
        ghost var w := Facing(left);
        var ok;
        ok, left := dev.SleepCtx(left, Jittered(backoff, roll));
        assert slept == Slept(ok, Facing(left));
        if !ok {
          return Some(ReadCancelled), more, left;
        }
      }
      assert slept == Slept(true, Facing(left));
      var reply := dev.Transact(reg.command);
      trusted := trusted + reply.meanwhile;
      assert Facing(left) == slept.world.Transacted();
      done, more, left := JudgeReply(left, reply.answer, reg, samples);
    }

    method ReadSingleRaw(ctx: Ctx, reg: ReadRegister) returns (outcome: ReadOutcome, left: Ctx)
      modifies this`trusted, dev
      ensures ReadRun(outcome, Facing(left)) == ReadSingle(RuleOf(reg), retries, backoff, old(Facing(ctx)))
    {
      var samples := [];
      left := ctx;
      for attempt := 1 to retries + 1
        invariant ReadFrom(RuleOf(reg), retries, backoff, attempt, samples, Facing(left)) ==
                  ReadSingle(RuleOf(reg), retries, backoff, old(Facing(ctx)))
      {
        ghost var step := StepRead(RuleOf(reg), backoff, attempt, samples, Facing(left));
        ReadUnfolds(RuleOf(reg), retries, backoff, attempt, samples, Facing(left), step);
        var done;
        done, samples, left := Attempt(left, reg, attempt, samples);
        if done.Some? {
          outcome := done.value;
          return;
        }
      }
      outcome := if samples != [] then Unconfirmed(Raws(samples)) else Unread;
    }

    method ReadAll(ctx: Ctx) returns (results: map<string, RegisterValue>, cancelled: bool, left: Ctx)
      modifies this`trusted, dev
      ensures Cycle(results, cancelled, Facing(left)) == ReadAllFrom(registers, retries, backoff, map[], old(Facing(ctx)))
    {
      results, cancelled, left := map[], false, ctx;
      for i := 0 to |registers|
        invariant !cancelled
        invariant ReadAllFrom(registers[i..], retries, backoff, results, Facing(left)) ==
                  ReadAllFrom(registers, retries, backoff, map[], old(Facing(ctx)))
      {
        ghost var w := Facing(left);
        var register := registers[i];
        assert registers[i..][0] == register && registers[i..][1..] == registers[i + 1..];
        var live := !left.Done();
        left := left.Checked();
        if !live {
          cancelled := true;
          return;
        }
        var outcome;
        outcome, left := ReadSingleRaw(left, register);
        if outcome.ReadCancelled? {
          cancelled := true;
          return;
        }
        results := results[register.name := Recorded(outcome)];
      }
    }
  }
}
