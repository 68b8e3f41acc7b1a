/** Exactly when a confirmed read ends, and how: in the world, and in its context. */
module ReadExactly {
  import opened Basics
  import opened Samples
  import opened ConfirmedRead
  import opened ReadFaults

  // ---- the replies that end a read --------------------------------------------------

  /** Two values in tenths, at most one confirm step apart. */
  predicate WithinStep(a: int, b: int, rule: Rule) { -rule.confirmStep <= (a - b) as real / 10.0 <= rule.confirmStep }

  /** The i-th reply is a reading close to what was trusted when it came. */
  ghost predicate EndsByTrust(rule: Rule, w: World, i: nat) {
    && SampleAt(w, rule, i).Some? && rule.name in TrustAfter(w, i + 1)
    && WithinStep(SampleAt(w, rule, i).value.tenths, TrustAfter(w, i + 1)[rule.name], rule)
  }

  /** The i-th reply is a reading that an earlier one of the same call confirms. */
  ghost predicate EndsByAgreement(rule: Rule, w: World, i: nat) {
    SampleAt(w, rule, i).Some? && exists j :: 0 <= j < i && Confirm(rule, SampleAt(w, rule, j), SampleAt(w, rule, i).value)
  }

  predicate Confirm(rule: Rule, earlier: Option<Sample>, s: Sample) {
    earlier.Some? && (earlier.value.text == s.text || WithinStep(earlier.value.tenths, s.tenths, rule))
  }

  /** The i-th reply ends the call. */
  ghost predicate Ends(rule: Rule, w: World, i: nat) {
    ReplyAt(w, i).answer.Gone? || EndsByTrust(rule, w, i) || EndsByAgreement(rule, w, i)
  }

  /** The i-th reply ends the call, and ends it like this. */
  ghost predicate EndsAs(rule: Rule, w: World, i: nat, o: ReadOutcome) {
    && Ends(rule, w, i)
    && o == if ReplyAt(w, i).answer.Gone? then PortLost
            else Read(SampleAt(w, rule, i).value, if EndsByTrust(rule, w, i) then ByTrust else ByAgreement)
  }

  ghost predicate NoneEnds(rule: Rule, w: World, k: nat) { forall i :: 0 <= i < k ==> !Ends(rule, w, i) }

  /** A call from w ended with the k-th reply, the first that could end it; or none of them could,
      and it used all its attempts. */
  ghost predicate EndedAt(rule: Rule, retries: nat, w: World, k: nat, r: ReadRun) {
    && k <= retries && NoneEnds(rule, w, k)
    && r.world.asked == w.asked + Min(k + 1, retries)
    && if k < retries then EndsAs(rule, w, k, r.outcome)
       else r.outcome == if SamplesUpTo(w, rule, k) != [] then Unconfirmed(Raws(SamplesUpTo(w, rule, k))) else Unread
  }

  /** Where the j-th reply's sample is among the valid readings. */
  lemma {:induction false} SamplePlace(w: World, rule: Rule, k: nat, j: nat) returns (i: nat)
    requires j < k && SampleAt(w, rule, j).Some?
    ensures i < |SamplesUpTo(w, rule, k)| && SamplesUpTo(w, rule, k)[i] == SampleAt(w, rule, j).value
  {
    if j == k - 1 {
      i := |SamplesUpTo(w, rule, k)| - 1;
    } else {
      i := SamplePlace(w, rule, k - 1, j);
    }
  }

  lemma ConfirmIsAgree(rule: Rule, y: Sample, s: Sample)
    ensures Confirm(rule, Some(y), s) <==> Agree(y, s, rule)
  {
  }

  lemma AgreementEnds(rule: Rule, w: World, k: nat, s: Sample)
    requires SampleAt(w, rule, k) == Some(s)
    ensures EndsByAgreement(rule, w, k) <==> AgreesWithAny(s, SamplesUpTo(w, rule, k), rule)
  {
    if AgreesWithAny(s, SamplesUpTo(w, rule, k), rule) {
      var j := AgreementNamesReply(w, rule, k, s);
      ConfirmIsAgree(rule, SampleAt(w, rule, j).value, s);
    }
    if EndsByAgreement(rule, w, k) {
      var j :| 0 <= j < k && Confirm(rule, SampleAt(w, rule, j), s);
      var i := SamplePlace(w, rule, k, j);
      ConfirmIsAgree(rule, SampleAt(w, rule, j).value, s);
    }
  }

  lemma TrustEnds(rule: Rule, w: World, k: nat, s: Sample)
    requires SampleAt(w, rule, k) == Some(s)
    ensures EndsByTrust(rule, w, k) <==> IsTrusted(TrustAfter(w, k + 1), rule, s.tenths)
  {
  }

  lemma JudgeEnds(rule: Rule, w: World, v: World, k: nat)
    requires After(w, v, k + 1)
    ensures var s := Judge(ReplyAt(w, k).answer, rule, SamplesUpTo(w, rule, k), v);
      && (s.Again? ==> !Ends(rule, w, k))
      && (s.Finished? ==> s.world.asked == v.asked && (s.outcome.ReadCancelled? || EndsAs(rule, w, k, s.outcome)))
  {
    if SampleAt(w, rule, k).Some? {
      var s := SampleAt(w, rule, k).value;
      AgreementEnds(rule, w, k, s);
      TrustEnds(rule, w, k, s);
      hide Ends, EndsByTrust, EndsByAgreement, IsTrusted, AgreesWithAny, SamplesUpTo, TrustAfter;
      EndsWhen(rule, w, k);
    } else {
      EndsWhen(rule, w, k);
    }
  }

  lemma EndsWhen(rule: Rule, w: World, k: nat)
    ensures Ends(rule, w, k) <==> ReplyAt(w, k).answer.Gone? || EndsByTrust(rule, w, k) || EndsByAgreement(rule, w, k)
    ensures SampleAt(w, rule, k).None? ==> !EndsByTrust(rule, w, k) && !EndsByAgreement(rule, w, k)
  {
  }

  lemma StillNone(rule: Rule, w: World, k: nat)
    requires NoneEnds(rule, w, k) && !Ends(rule, w, k)
    ensures NoneEnds(rule, w, k + 1)
  {
    hide Ends;
  }

  lemma AllAttemptsUsed(rule: Rule, retries: nat, backoff: int, w: World, v: World)
    requires After(w, v, retries) && NoneEnds(rule, w, retries)
    ensures EndedAt(rule, retries, w, retries, ReadFrom(rule, retries, backoff, retries + 1, SamplesUpTo(w, rule, retries), v))
  {
    hide Ends, NoneEnds, SamplesUpTo;
  }

  lemma EndsNow(rule: Rule, retries: nat, w: World, k: nat, r: ReadRun)
    requires k < retries && NoneEnds(rule, w, k) && r.world.asked == w.asked + k + 1 && EndsAs(rule, w, k, r.outcome)
    ensures EndedAt(rule, retries, w, k, r)
  {
    hide Ends, NoneEnds, EndsAs;
  }

  lemma {:induction false} ReadFromEnds(rule: Rule, retries: nat, backoff: int, k: nat, w: World, v: World) returns (end: nat)
    requires After(w, v, k) && k <= retries && NoneEnds(rule, w, k)
    requires !ReadFrom(rule, retries, backoff, k + 1, SamplesUpTo(w, rule, k), v).outcome.ReadCancelled?
    ensures EndedAt(rule, retries, w, end, ReadFrom(rule, retries, backoff, k + 1, SamplesUpTo(w, rule, k), v))
    decreases retries - k
  {
    end := k;
    if k == retries {
      AllAttemptsUsed(rule, retries, backoff, w, v);
    } else {
      hide Ends, EndsAs, NoneEnds, EndedAt, After, SamplesUpTo, StepRead, ReadFrom;
      var samples := SamplesUpTo(w, rule, k);
      var step := StepRead(rule, backoff, k + 1, samples, v);
      ReadUnfolds(rule, retries, backoff, k + 1, samples, v, step);
      StepEndsCall(rule, backoff, k, w, v);
      if step.Finished? {
        EndsNow(rule, retries, w, k, ReadRun(step.outcome, step.world));
      } else {
        StillNone(rule, w, k);
        end := ReadFromEnds(rule, retries, backoff, k + 1, w, step.world);
      }
    }
  }

  lemma StepEndsCall(rule: Rule, backoff: int, k: nat, w: World, v: World)
    requires After(w, v, k)
    ensures var s := StepRead(rule, backoff, k + 1, SamplesUpTo(w, rule, k), v);
      && (s.Again? ==> !Ends(rule, w, k) && After(w, s.world, k + 1) && s.samples == SamplesUpTo(w, rule, k + 1))
      && (s.Finished? ==> s.outcome.ReadCancelled? || (s.world.asked == w.asked + k + 1 && EndsAs(rule, w, k, s.outcome)))
  {
    hide Ends, EndsByTrust, EndsByAgreement;
    if !v.ctx.Done() {
      var slept := BackOff(backoff, k + 1, v.Checked());
      BackOffKeeps(backoff, k + 1, v.Checked());
      if slept.ok {
        TransactedIsAfter(w, slept.world, k);
        JudgeJustified(rule, w, slept.world.Transacted(), k);
        JudgeEnds(rule, w, slept.world.Transacted(), k);
      }
    }
  }

  /** Exactly when a read ends, and how: a call that is not cancelled goes on to the first reply
      that is a port error, a reading close to the value trusted by then, or a reading that an
      earlier one confirms; and without one, to its last attempt. */
  lemma ReadEndsExactly(rule: Rule, retries: nat, backoff: int, w: World)
    requires !ReadSingle(rule, retries, backoff, w).outcome.ReadCancelled?
    ensures exists k :: 0 <= k <= retries && EndedAt(rule, retries, w, k, ReadSingle(rule, retries, backoff, w))
  {
    assert After(w, w, 0) && SamplesUpTo(w, rule, 0) == [];
    var k := ReadFromEnds(rule, retries, backoff, 0, w, w);
  }

  // ---- a read and its context -------------------------------------------------------

  /** A transaction is made only while the context is live: the first takes one live check, and
      every later one two more, before and after the pause. */
  lemma {:induction false} AsksWhileLive(rule: Rule, retries: nat, backoff: int, attempt: nat, k: nat, samples: seq<Sample>, w: World)
    requires attempt >= 1 && attempt + k == retries + 1 && w.ctx.CancelledIn?
    ensures ReadFrom(rule, retries, backoff, attempt, samples, w).world.asked - w.asked <= (w.ctx.checks + if attempt == 1 then 1 else 0) / 2
    decreases k
  {
    if k > 0 {
      var step := StepRead(rule, backoff, attempt, samples, w);
      StepAsksWhileLive(rule, backoff, attempt, samples, w);
      ReadUnfolds(rule, retries, backoff, attempt, samples, w, step);
      hide StepRead, ReadFrom;
      if step.Again? {
        AsksWhileLive(rule, retries, backoff, attempt + 1, k - 1, step.samples, step.world);
      }
    }
  }

  lemma StepAsksWhileLive(rule: Rule, backoff: int, attempt: nat, samples: seq<Sample>, w: World)
    requires w.ctx.CancelledIn?
    ensures var s, need := StepRead(rule, backoff, attempt, samples, w), if attempt > 1 then 2 else 1;
      && w.asked <= s.world.asked <= w.asked + 1 && (s.world.asked > w.asked ==> w.ctx.checks >= need)
      && (s.Again? ==> s.world.asked == w.asked + 1 && s.world.ctx.CancelledIn? && s.world.ctx.checks + need <= w.ctx.checks)
  {
  }

  /** The live checks that a call takes for its first k transactions: one before each, one more for
      the pause before it, and one more after a transaction that fails. */
  function ChecksSpent(w: World, k: nat): nat {
    if k == 0 then 0 else ChecksSpent(w, k - 1) + (if k > 1 then 2 else 1) + if ReplyAt(w, k - 1).answer.Replied? then 0 else 1
  }

  /** v is w after k transactions, with the context live at every check. */
  ghost predicate LiveAfter(w: World, v: World, k: nat) {
    After(w, v, k) && w.ctx.CancelledIn? && ChecksSpent(w, k) <= w.ctx.checks && v.ctx == CancelledIn(w.ctx.checks - ChecksSpent(w, k))
  }

  /** What a pause spends. */
  lemma PauseWhileLive(backoff: int, attempt: nat, w: World)
    requires w.ctx.CancelledIn? && w.ctx.checks > 0
    ensures var slept, need := BackOff(backoff, attempt, w.Checked()), if attempt > 1 then 2 else 1;
      slept.ok ==> w.ctx.checks >= need && slept.world.ctx == CancelledIn(w.ctx.checks - need)
  {
  }

  /** What judging a reply spends. */
  lemma JudgeWhileLive(answer: Answer, rule: Rule, samples: seq<Sample>, w: World)
    requires w.ctx.CancelledIn?
    ensures var s, need := Judge(answer, rule, samples, w), if answer.Replied? then 0 else 1;
      && (s.Again? ==> w.ctx.checks >= need && s.world.ctx == CancelledIn(w.ctx.checks - need))
      && (s.Finished? && !s.outcome.ReadCancelled? ==> w.ctx.checks >= need)
      && s.world.asked == w.asked
  {
  }

  lemma StepWhileLive(rule: Rule, backoff: int, w: World, v: World, k: nat)
    requires LiveAfter(w, v, k)
    ensures var s := StepRead(rule, backoff, k + 1, SamplesUpTo(w, rule, k), v);
      && (s.Again? ==> s.samples == SamplesUpTo(w, rule, k + 1) && LiveAfter(w, s.world, k + 1))
      && (s.Finished? ==> s.outcome.ReadCancelled? || (s.world.asked == w.asked + k + 1 && ChecksSpent(w, k + 1) <= w.ctx.checks))
  {
    if !v.ctx.Done() {
      var slept := BackOff(backoff, k + 1, v.Checked());
      BackOffKeeps(backoff, k + 1, v.Checked());
      PauseWhileLive(backoff, k + 1, v);
      if slept.ok {
        TransactedIsAfter(w, slept.world, k);
        JudgeJustified(rule, w, slept.world.Transacted(), k);
        JudgeWhileLive(ReplyAt(w, k).answer, rule, SamplesUpTo(w, rule, k), slept.world.Transacted());
        hide After, SamplesUpTo, Judge, BackOff, Justified;
      }
    }
  }

  /** A call made so many transactions, with the context live at every check for them. */
  ghost predicate SpentFor(w: World, r: ReadRun, made: nat)
    requires w.ctx.CancelledIn?
  {
    r.world.asked == w.asked + made && ChecksSpent(w, made) <= w.ctx.checks
  }

  lemma {:induction false} ReadFromWhileLive(rule: Rule, retries: nat, backoff: int, k: nat, w: World, v: World) returns (made: nat)
    requires LiveAfter(w, v, k) && k <= retries && w.ctx.CancelledIn?
    requires !ReadFrom(rule, retries, backoff, k + 1, SamplesUpTo(w, rule, k), v).outcome.ReadCancelled?
    ensures SpentFor(w, ReadFrom(rule, retries, backoff, k + 1, SamplesUpTo(w, rule, k), v), made)
    decreases retries - k
  {
    made := k;
    if k < retries {
      hide LiveAfter, StepRead, ReadFrom, SamplesUpTo, ChecksSpent, SpentFor;
      var step := StepRead(rule, backoff, k + 1, SamplesUpTo(w, rule, k), v);
      ReadUnfolds(rule, retries, backoff, k + 1, SamplesUpTo(w, rule, k), v, step);
      StepWhileLive(rule, backoff, w, v, k);
      if step.Again? {
        made := ReadFromWhileLive(rule, retries, backoff, k + 1, w, step.world);
      } else {
        made := k + 1;
        EndedWhileLive(w, ReadRun(step.outcome, step.world), made);
      }
    } else {
      NoAttemptLeft(rule, retries, backoff, w, v);
    }
  }

  lemma EndedWhileLive(w: World, r: ReadRun, made: nat)
    requires w.ctx.CancelledIn? && r.world.asked == w.asked + made && ChecksSpent(w, made) <= w.ctx.checks
    ensures SpentFor(w, r, made)
  {
  }

  lemma NoAttemptLeft(rule: Rule, retries: nat, backoff: int, w: World, v: World)
    requires LiveAfter(w, v, retries)
    ensures SpentFor(w, ReadFrom(rule, retries, backoff, retries + 1, SamplesUpTo(w, rule, retries), v), retries)
  {
  }

  /** A call that is not cancelled found its context live at every one of its checks. */
  lemma ReadEndsWhileLive(rule: Rule, retries: nat, backoff: int, w: World)
    requires w.ctx.CancelledIn? && !ReadSingle(rule, retries, backoff, w).outcome.ReadCancelled?
    ensures exists made :: SpentFor(w, ReadSingle(rule, retries, backoff, w), made)
  {
    assert LiveAfter(w, w, 0) && SamplesUpTo(w, rule, 0) == [];
    hide LiveAfter, SpentFor, SamplesUpTo, ReadFrom;
    var made := ReadFromWhileLive(rule, retries, backoff, 0, w, w);
  }

  lemma SleepIsCancelled(w: World, d: int)
    ensures !Sleep(w, d).ok ==> Sleep(w, d).world.ctx.Done()
    ensures w.ctx.Never? ==> Sleep(w, d).ok && Sleep(w, d).world.ctx.Never?
  {
  }

  lemma StepCancelledIsDone(rule: Rule, backoff: int, attempt: nat, samples: seq<Sample>, w: World)
    ensures var s := StepRead(rule, backoff, attempt, samples, w);
      && (s.Finished? && s.outcome.ReadCancelled? ==> s.world.ctx.Done())
      && (w.ctx.Never? ==> s.world.ctx.Never?)
      && (w.ctx.Done() ==> s == Finished(ReadCancelled, w))
  {
    SleepIsCancelled(w.Checked().Rolled(), Jittered(backoff, w.Checked().NextRoll()));
  }

  /** A read is cancelled only when its context was found done. */
  lemma {:induction false} CancelledIsDone(rule: Rule, retries: nat, backoff: int, attempt: nat, k: nat, samples: seq<Sample>, w: World)
    requires attempt + k == retries + 1
    ensures var r := ReadFrom(rule, retries, backoff, attempt, samples, w);
      && (r.outcome.ReadCancelled? ==> r.world.ctx.Done())
      && (w.ctx.Never? ==> r.world.ctx.Never?)
      && (w.ctx.Done() && k > 0 ==> r.outcome.ReadCancelled? && r.world.asked == w.asked)
    decreases k
  {
    if k > 0 {
      var step := StepRead(rule, backoff, attempt, samples, w);
      StepCancelledIsDone(rule, backoff, attempt, samples, w);
      ReadUnfolds(rule, retries, backoff, attempt, samples, w, step);
      if step.Again? {
        CancelledIsDone(rule, retries, backoff, attempt + 1, k - 1, step.samples, step.world);
      }
    }
  }

  /** And so is a cycle. */
  lemma {:induction false} CycleCancelledIsDone(regs: seq<ReadRegister>, retries: nat, backoff: int, results: map<string, RegisterValue>, w: World)
    ensures var c := ReadAllFrom(regs, retries, backoff, results, w);
      && (c.cancelled ==> c.world.ctx.Done())
      && (w.ctx.Never? ==> !c.cancelled && c.world.ctx.Never?)
      && (w.ctx.Done() && regs != [] ==> c.cancelled && c.world.asked == w.asked)
  {
    if regs != [] && !w.ctx.Done() {
      var r := ReadSingle(RuleOf(regs[0]), retries, backoff, w.Checked());
      CancelledIsDone(RuleOf(regs[0]), retries, backoff, 1, retries, [], w.Checked());
      if !r.outcome.ReadCancelled? {
        CycleCancelledIsDone(regs[1..], retries, backoff, results[regs[0].name := Recorded(r.outcome)], r.world);
      }
    }
  }
}
