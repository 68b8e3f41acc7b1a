/** A confirmed read and a single corrupted or lost reply. */
module ReadFaults {
  import opened Basics
  import opened Samples
  import opened ConfirmedRead

  /** The i-th reply is a valid reading that shows the same as x. */
  ghost predicate ReadsAs(w: World, rule: Rule, i: nat, x: Sample) {
    SampleAt(w, rule, i).Some? && SampleAt(w, rule, i).value.text == x.text
  }

  /** Among the first n replies, all but possibly the one at `bad` show x. */
  ghost predicate AllButOneRead(w: World, rule: Rule, n: int, bad: Option<nat>, x: Sample) {
    forall i :: 0 <= i < n && bad != Some(i) ==> ReadsAs(w, rule, i, x)
  }

  /** x itself, or near it, or near what was trusted when the reading came. */
  ghost predicate Believable(w: World, rule: Rule, n: nat, tenths: int, x: Sample) {
    || tenths == x.tenths
    || Near(x.tenths, tenths, rule)
    || exists k :: 0 < k <= n && IsTrusted(TrustAfter(w, k), rule, tenths)
  }

  lemma SampleMeaning(w: World, rule: Rule, i: nat, x: Sample, raw: string)
    requires Canonical(rule) && rule.sample(raw) == Some(x) && SampleAt(w, rule, i).Some?
    ensures SameMeaning(SampleAt(w, rule, i).value, x)
  {
    assert rule.sample(ReplyAt(w, i).answer.raw).Some?;
  }

  lemma SamplesMeaning(w: World, rule: Rule, i: nat, j: nat)
    requires Canonical(rule) && SampleAt(w, rule, i).Some? && SampleAt(w, rule, j).Some?
    ensures SameMeaning(SampleAt(w, rule, i).value, SampleAt(w, rule, j).value)
  {
    SampleMeaning(w, rule, i, SampleAt(w, rule, j).value, ReplyAt(w, j).answer.raw);
  }

  /** Every sample is one of the replies. */
  lemma {:induction false} SampleOrigin(w: World, rule: Rule, k: nat, j: nat) returns (i: nat)
    requires j < |SamplesUpTo(w, rule, k)|
    ensures i < k && SampleAt(w, rule, i) == Some(SamplesUpTo(w, rule, k)[j])
  {
    if SampleAt(w, rule, k - 1).Some? && j == |SamplesUpTo(w, rule, k - 1)| {
      i := k - 1;
    } else {
      i := SampleOrigin(w, rule, k - 1, j);
    }
  }

  lemma AgreementNamesReply(w: World, rule: Rule, k: nat, s: Sample) returns (i: nat)
    requires AgreesWithAny(s, SamplesUpTo(w, rule, k), rule)
    ensures i < k && SampleAt(w, rule, i).Some? && Agree(SampleAt(w, rule, i).value, s, rule)
  {
    var j :| 0 <= j < |SamplesUpTo(w, rule, k)| && Agree(SamplesUpTo(w, rule, k)[j], s, rule);
    i := SampleOrigin(w, rule, k, j);
  }

  lemma AgreesWithShown(s: Sample, y: Sample, x: Sample, rule: Rule)
    requires Agree(y, s, rule) && y.text == x.text && SameMeaning(y, x) && SameMeaning(y, s)
    ensures s.tenths == x.tenths || Near(x.tenths, s.tenths, rule)
  {
  }

  /** A reading in agreement with an earlier one, when all but itself show x. */
  lemma AgreementIsBelievable(rule: Rule, n: nat, w: World, k: nat, raw: string, x: Sample, s: Sample)
    requires Canonical(rule) && rule.sample(raw) == Some(x) && k < n && AllButOneRead(w, rule, n, Some(k), x)
    requires SampleAt(w, rule, k) == Some(s) && AgreesWithAny(s, SamplesUpTo(w, rule, k), rule)
    ensures s.tenths == x.tenths || Near(x.tenths, s.tenths, rule)
  {
    var i := AgreementNamesReply(w, rule, k, s);
    assert ReadsAs(w, rule, i, x);
    SampleMeaning(w, rule, i, x, raw);
    SamplesMeaning(w, rule, i, k);
    AgreesWithShown(s, SampleAt(w, rule, i).value, x, rule);
  }

  lemma GoodReadingIsBelievable(rule: Rule, w: World, k: nat, raw: string, x: Sample)
    requires Canonical(rule) && rule.sample(raw) == Some(x) && ReadsAs(w, rule, k, x)
    ensures SampleAt(w, rule, k).value.tenths == x.tenths
  {
    SampleMeaning(w, rule, k, x, raw);
  }

  lemma JustifiedIsBelievable(rule: Rule, n: nat, w: World, k: nat, r: ReadRun, bad: Option<nat>, raw: string, x: Sample)
    requires Canonical(rule) && rule.sample(raw) == Some(x) && AllButOneRead(w, rule, n, bad, x)
    requires k <= n && Justified(rule, w, k, r) && r.outcome.Read?
    ensures Believable(w, rule, n, r.outcome.sample.tenths, x)
  {
    if bad != Some(k - 1) {
      assert ReadsAs(w, rule, k - 1, x);
      GoodReadingIsBelievable(rule, w, k - 1, raw, x);
    } else if r.outcome.support.ByAgreement? {
      AgreementIsBelievable(rule, n, w, k - 1, raw, x, r.outcome.sample);
    }
  }

  /** A single corrupted reading is never returned unless it is believable, however many
      attempts there are. */
  lemma SingleFaultNeverReturned(rule: Rule, retries: nat, backoff: int, w: World, bad: Option<nat>, raw: string, x: Sample)
    requires Canonical(rule) && rule.sample(raw) == Some(x) && AllButOneRead(w, rule, retries, bad, x)
    ensures var o := ReadSingle(rule, retries, backoff, w).outcome;
      o.Read? ==> Believable(w, rule, retries, o.sample.tenths, x)
  {
    var r := ReadSingle(rule, retries, backoff, w);
    ReadIsJustified(rule, retries, backoff, w);
    var k :| 0 <= k <= retries && Justified(rule, w, k, r);
    if r.outcome.Read? {
      JustifiedIsBelievable(rule, retries, w, k, r, bad, raw, x);
    }
  }

  /** Some earlier sample shows x. */
  ghost predicate Holds(samples: seq<Sample>, x: Sample) {
    exists i :: 0 <= i < |samples| && samples[i].text == x.text
  }

  /** An attempt that is not cancelled and meets no port error either ends the call with a
      value or keeps its reading for later. */
  lemma UncancelledStep(rule: Rule, backoff: int, attempt: nat, samples: seq<Sample>, w: World)
    requires w.ctx == Never && !ReplyAt(w, 0).answer.Gone?
    ensures match StepRead(rule, backoff, attempt, samples, w)
      case Finished(outcome, _) => outcome.Read?
      case Again(more, v) =>
        && v.ctx == Never && v.replies == w.replies[Min(1, |w.replies|)..]
        && match SampleAt(w, rule, 0)
           case Some(s) => more == samples + [s] && !AgreesWithAny(s, samples, rule)
           case None => more == samples
  {
    var slept := BackOff(backoff, attempt, w.Checked());
    BackOffKeeps(backoff, attempt, w.Checked());
    assert slept.ok && slept.world.ctx == Never && slept.world.NextReply() == ReplyAt(w, 0);
  }

  lemma HoldsLonger(samples: seq<Sample>, s: Sample, x: Sample)
    ensures Holds(samples, x) || s.text == x.text ==> Holds(samples + [s], x)
  {
    if Holds(samples, x) {
      var i :| 0 <= i < |samples| && samples[i].text == x.text;
      assert (samples + [s])[i].text == x.text;
    }
    assert (samples + [s])[|samples|] == s;
  }

  lemma HeldSampleAgrees(samples: seq<Sample>, s: Sample, x: Sample, rule: Rule)
    requires Holds(samples, x) && s.text == x.text
    ensures AgreesWithAny(s, samples, rule)
  {
    var i :| 0 <= i < |samples| && samples[i].text == x.text;
    assert Agree(samples[i], s, rule);
  }

  function Sooner(bad: Option<nat>): Option<nat> { if bad.Some? && bad.value > 0 then Some(bad.value - 1) else None }

  lemma RestAllButOne(rule: Rule, n: int, w: World, v: World, bad: Option<nat>, x: Sample)
    requires v.replies == w.replies[Min(1, |w.replies|)..] && AllButOneRead(w, rule, n, bad, x)
    requires forall i: nat {:trigger ReplyAt(w, i)} :: i < n ==> !ReplyAt(w, i).answer.Gone?
    ensures AllButOneRead(v, rule, n - 1, Sooner(bad), x)
    ensures forall i: nat {:trigger ReplyAt(v, i)} :: i < n - 1 ==> !ReplyAt(v, i).answer.Gone?
  {
    forall i: nat | i < n - 1 ensures !ReplyAt(v, i).answer.Gone? && (Sooner(bad) != Some(i) ==> ReadsAs(v, rule, i, x)) {
      assert ReplyAt(v, i) == ReplyAt(w, i + 1);
      assert bad != Some(i + 1) ==> ReadsAs(w, rule, i + 1, x);
    }
  }

  /** While no cancellation comes and at most one more reply is bad, two more good readings, or
      one if there is one already, end the call with a value. */
  lemma {:induction false} FaultIsOutvoted(rule: Rule, retries: nat, backoff: int, attempt: nat, samples: seq<Sample>, w: World,
                                           bad: Option<nat>, x: Sample)
    requires attempt >= 1 && w.ctx == Never
    requires (if Holds(samples, x) then 1 else 2) + (if bad.Some? then 1 else 0) <= retries + 1 - attempt
    requires AllButOneRead(w, rule, retries + 1 - attempt, bad, x)
    requires forall i: nat {:trigger ReplyAt(w, i)} :: i < retries + 1 - attempt ==> !ReplyAt(w, i).answer.Gone?
    ensures ReadFrom(rule, retries, backoff, attempt, samples, w).outcome.Read?
    decreases Max(0, retries + 1 - attempt)
  {
    UncancelledStep(rule, backoff, attempt, samples, w);
    match StepRead(rule, backoff, attempt, samples, w)
    case Finished(outcome, _) =>
    case Again(more, v) =>
      RestAllButOne(rule, retries + 1 - attempt, w, v, bad, x);
      assert bad != Some(0) ==> ReadsAs(w, rule, 0, x);
      if SampleAt(w, rule, 0).Some? {
        var s := SampleAt(w, rule, 0).value;
        HoldsLonger(samples, s, x);
        if Holds(samples, x) && s.text == x.text {
          HeldSampleAgrees(samples, s, x, rule);
        }
      }
      FaultIsOutvoted(rule, retries, backoff, attempt + 1, more, v, Sooner(bad), x);
  }

  /** One-fault tolerance: with at least three attempts and at most one corrupted or lost reply
      among otherwise equal readings x, an uncancelled call succeeds, with x, a value near x,
      or one near what was trusted when it came. */
  lemma OneFaultTolerated(rule: Rule, retries: nat, backoff: int, w: World, bad: nat, raw: string, x: Sample)
    requires retries >= 3 && w.ctx == Never && Canonical(rule) && rule.sample(raw) == Some(x)
    requires AllButOneRead(w, rule, retries, Some(bad), x) && !ReplyAt(w, bad).answer.Gone?
    ensures var o := ReadSingle(rule, retries, backoff, w).outcome;
      o.Read? && Believable(w, rule, retries, o.sample.tenths, x)
  {
    forall i: nat | i < retries ensures !ReplyAt(w, i).answer.Gone? {
      assert i != bad ==> ReadsAs(w, rule, i, x);
    }
    FaultIsOutvoted(rule, retries, backoff, 1, [], w, Some(bad), x);
    SingleFaultNeverReturned(rule, retries, backoff, w, Some(bad), raw, x);
  }
}
