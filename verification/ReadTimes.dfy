/** How long a read and a cycle take. */
module ReadTimes {
  import opened Samples
  import opened ConfirmedRead

  /** Every reply takes at most `longest`. */
  predicate RepliesWithin(replies: seq<Reply>, longest: int) {
    replies == [] || (replies[0].took <= longest && RepliesWithin(replies[1..], longest))
  }

  predicate AllWithin(w: World, longest: int) { RepliesWithin(w.replies, longest) }

  lemma {:induction false} EachWithin(replies: seq<Reply>, longest: int)
    requires forall r :: r in replies ==> r.took <= longest
    ensures RepliesWithin(replies, longest)
  {
    if replies != [] {
      assert replies[0] in replies && forall r :: r in replies[1..] ==> r in replies;
      EachWithin(replies[1..], longest);
    }
  }

  /** The longest wait between two attempts: the delay and half of it again. */
  function LongestPause(backoff: int): nat { if backoff <= 0 then 0 else backoff + backoff / 2 }

  lemma PauseEnds(backoff: int, attempt: nat, w: World)
    ensures var v := BackOff(backoff, attempt, w).world;
      && v.replies == w.replies
      && w.now <= v.now <= w.now + if attempt > 1 then LongestPause(backoff) else 0
  {
    var d := Jittered(backoff, w.NextRoll());
    assert backoff > 0 ==> backoff <= d <= LongestPause(backoff);
  }

  lemma StepEnds(rule: Rule, backoff: int, attempt: nat, samples: seq<Sample>, w: World, longest: nat)
    requires AllWithin(w, longest)
    ensures Within(w, StepRead(rule, backoff, attempt, samples, w).world, longest, longest + if attempt > 1 then LongestPause(backoff) else 0)
  {
    PauseEnds(backoff, attempt, w.Checked());
  }

  /** n times x. */
  function Times(n: nat, x: nat): nat { if n == 0 then 0 else x + Times(n - 1, x) }

  lemma {:induction false} TimesIsProduct(n: nat, x: nat)
    ensures Times(n, x) == n * x
  {
    if n > 0 {
      TimesIsProduct(n - 1, x);
      assert n * x == x + (n - 1) * x;
    }
  }

  /** v comes at most `time` after w, with replies that take no longer. */
  predicate Within(w: World, v: World, longest: nat, time: nat) {
    AllWithin(v, longest) && w.now <= v.now <= w.now + time
  }

  lemma WithinAdds(w: World, u: World, v: World, longest: nat, a: nat, b: nat)
    requires Within(w, u, longest, a) && Within(u, v, longest, b)
    ensures Within(w, v, longest, a + b)
  {
  }

  /** Each of k more attempts takes at most a transaction and the pause before it. */
  lemma {:induction false} ReadEnds(rule: Rule, retries: nat, backoff: int, attempt: nat, k: nat, samples: seq<Sample>, w: World, longest: nat)
    requires attempt > 1 && attempt + k == retries + 1 && AllWithin(w, longest)
    ensures Within(w, ReadFrom(rule, retries, backoff, attempt, samples, w).world, longest, Times(k, longest + LongestPause(backoff)))
    decreases k
  {
    if k > 0 {
      var each := longest + LongestPause(backoff);
      var step := StepRead(rule, backoff, attempt, samples, w);
      StepEnds(rule, backoff, attempt, samples, w, longest);
      ReadUnfolds(rule, retries, backoff, attempt, samples, w, step);
      if step.Again? {
        ReadEnds(rule, retries, backoff, attempt + 1, k - 1, step.samples, step.world, longest);
        WithinAdds(w, step.world, ReadFrom(rule, retries, backoff, attempt, samples, w).world, longest, each, Times(k - 1, each));
      }
    }
  }

  lemma StepIsLater(rule: Rule, backoff: int, attempt: nat, samples: seq<Sample>, w: World)
    ensures w.now <= StepRead(rule, backoff, attempt, samples, w).world.now
  {
    PauseEnds(backoff, attempt, w.Checked());
  }

  /** A read does not end before it begins. */
  lemma {:induction false} ReadIsLater(rule: Rule, retries: nat, backoff: int, attempt: nat, k: nat, samples: seq<Sample>, w: World)
    requires attempt + k == retries + 1
    ensures w.now <= ReadFrom(rule, retries, backoff, attempt, samples, w).world.now
    decreases k
  {
    if k > 0 {
      var step := StepRead(rule, backoff, attempt, samples, w);
      StepIsLater(rule, backoff, attempt, samples, w);
      ReadUnfolds(rule, retries, backoff, attempt, samples, w, step);
      if step.Again? {
        ReadIsLater(rule, retries, backoff, attempt + 1, k - 1, step.samples, step.world);
      }
    }
  }

  // ---- a cycle ----------------------------------------------------------------------

  /** Every attempt but the first is preceded by a pause. */
  function LongestRead(retries: nat, backoff: int, longest: nat): nat {
    if retries == 0 then 0 else longest + Times(retries - 1, longest + LongestPause(backoff))
  }

  lemma SingleReadEnds(rule: Rule, retries: nat, backoff: int, w: World, longest: nat)
    requires AllWithin(w, longest)
    ensures Within(w, ReadSingle(rule, retries, backoff, w).world, longest, LongestRead(retries, backoff, longest))
  {
    if retries > 0 {
      var step := StepRead(rule, backoff, 1, [], w);
      StepEnds(rule, backoff, 1, [], w, longest);
      ReadUnfolds(rule, retries, backoff, 1, [], w, step);
      if step.Again? {
        ReadEnds(rule, retries, backoff, 2, retries - 1, step.samples, step.world, longest);
        WithinAdds(w, step.world, ReadSingle(rule, retries, backoff, w).world, longest, longest, Times(retries - 1, longest + LongestPause(backoff)));
      }
    }
  }

  /** A whole cycle takes at most one longest read per register. */
  lemma {:induction false} CycleEnds(regs: seq<ReadRegister>, retries: nat, backoff: int, results: map<string, RegisterValue>, w: World, longest: nat)
    requires AllWithin(w, longest)
    ensures var v := ReadAllFrom(regs, retries, backoff, results, w).world;
      w.now <= v.now <= w.now + Times(|regs|, LongestRead(retries, backoff, longest))
  {
    if regs != [] && !w.ctx.Done() {
      var r := ReadSingle(RuleOf(regs[0]), retries, backoff, w.Checked());
      SingleReadEnds(RuleOf(regs[0]), retries, backoff, w.Checked(), longest);
      if !r.outcome.ReadCancelled? {
        CycleEnds(regs[1..], retries, backoff, results[regs[0].name := Recorded(r.outcome)], r.world, longest);
      }
    }
  }
}
