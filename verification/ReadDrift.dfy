/** How far the trusted value can move while no second reading confirms it. */
module ReadDrift {
  import opened Basics
  import opened Samples
  import opened ConfirmedRead

  /** How far other goroutines moved the trusted value during the first k transactions. */
  function Moved(rule: Rule, w: World, k: nat): nat {
    if k == 0 then 0
    else
      var before, update := TrustAfter(w, k - 1), ReplyAt(w, k - 1).meanwhile;
      Moved(rule, w, k - 1) + if rule.name in before && rule.name in update then Abs(update[rule.name] - before[rule.name]) else 0
  }

  /** How often they did. */
  function Updates(rule: Rule, w: World, k: nat): nat {
    if k == 0 then 0 else Updates(rule, w, k - 1) + if rule.name in ReplyAt(w, k - 1).meanwhile then 1 else 0
  }

  /** Each time to a value near the one trusted before: a reading that nothing else confirmed. */
  ghost predicate OthersUnconfirmed(rule: Rule, w: World, k: nat) {
    forall i: nat :: i < k && rule.name in ReplyAt(w, i).meanwhile && rule.name in TrustAfter(w, i) ==>
      Near(ReplyAt(w, i).meanwhile[rule.name], TrustAfter(w, i)[rule.name], rule)
  }

  lemma {:induction false} MovedBounds(rule: Rule, w: World, k: nat)
    requires rule.name in w.trusted
    ensures rule.name in TrustAfter(w, k) && Abs(TrustAfter(w, k)[rule.name] - w.trusted[rule.name]) <= Moved(rule, w, k)
  {
    if k > 0 {
      MovedBounds(rule, w, k - 1);
    }
  }

  /** n confirm steps, in tenths. */
  function Steps(n: nat, step: real): real { if n == 0 then 0.0 else Steps(n - 1, step) + 10.0 * step }

  lemma TenTimesMore(m: real, step: real)
    ensures 10.0 * (m + 1.0) * step == 10.0 * m * step + 10.0 * step
  {
  }

  lemma {:induction false} StepsIsProduct(n: nat, step: real)
    ensures Steps(n, step) == 10.0 * (n as real) * step
  {
    if n > 0 {
      StepsIsProduct(n - 1, step);
      TenTimesMore((n - 1) as real, step);
    }
  }

  lemma {:induction false} StepsAdd(m: nat, n: nat, step: real)
    ensures Steps(m, step) + Steps(n, step) == Steps(m + n, step)
  {
    if n > 0 {
      StepsAdd(m, n - 1, step);
    }
  }

  lemma {:induction false} UnconfirmedMoves(rule: Rule, w: World, k: nat)
    requires rule.name in w.trusted && rule.confirmStep >= 0.0 && OthersUnconfirmed(rule, w, k)
    ensures Moved(rule, w, k) as real <= Steps(Updates(rule, w, k), rule.confirmStep)
  {
    if k > 0 {
      assert OthersUnconfirmed(rule, w, k - 1);
      UnconfirmedMoves(rule, w, k - 1);
    }
  }

  /** How many transactions were made from w to v. */
  function Made(w: World, v: World): nat { if v.asked >= w.asked then v.asked - w.asked else 0 }

  /** Trusted by closeness alone, or not at all. */
  predicate NotConfirmed(o: ReadOutcome) { !(o.Read? && o.support.ByAgreement?) }

  /** What a justified end does to the trusted value. */
  lemma JustifiedDrift(rule: Rule, w: World, k: nat, r: ReadRun)
    requires rule.name in w.trusted && rule.confirmStep >= 0.0 && Justified(rule, w, k, r) && NotConfirmed(r.outcome)
    ensures Made(w, r.world) == k && rule.name in r.world.trusted
    ensures Abs(r.world.trusted[rule.name] - w.trusted[rule.name]) as real <= Moved(rule, w, k) as real + 10.0 * rule.confirmStep
  {
    MovedBounds(rule, w, k);
    hide Moved, TrustAfter, SamplesUpTo, SampleAt;
  }

  lemma OneReadDrift(rule: Rule, retries: nat, backoff: int, w: World)
    requires rule.name in w.trusted && rule.confirmStep >= 0.0 && NotConfirmed(ReadSingle(rule, retries, backoff, w).outcome)
    ensures var v := ReadSingle(rule, retries, backoff, w).world;
      && rule.name in v.trusted
      && Abs(v.trusted[rule.name] - w.trusted[rule.name]) as real <= Moved(rule, w, Made(w, v)) as real + 10.0 * rule.confirmStep
  {
    var r := ReadSingle(rule, retries, backoff, w);
    ReadIsJustified(rule, retries, backoff, w);
    hide Justified, ReadSingle, Moved, NotConfirmed;
    var k :| 0 <= k <= retries && Justified(rule, w, k, r);
    JustifiedDrift(rule, w, k, r);
  }

  /** Any number of reads of one register, one after the other: the world they lead to, whether
      all were unconfirmed, by whoever made them, and what other goroutines did meanwhile. */
  datatype Reads = Reads(world: World, unconfirmed: bool, othersUnconfirmed: bool, moved: nat, updates: nat)

  ghost function OneMore(rule: Rule, retries: nat, backoff: int, all: Reads): Reads {
    var r := ReadSingle(rule, retries, backoff, all.world);
    var made := Made(all.world, r.world);
    Reads(r.world, all.unconfirmed && NotConfirmed(r.outcome), all.othersUnconfirmed && OthersUnconfirmed(rule, all.world, made),
          all.moved + Moved(rule, all.world, made), all.updates + Updates(rule, all.world, made))
  }

  ghost function ReadMany(rule: Rule, retries: nat, backoff: int, n: nat, w: World): Reads {
    if n == 0 then Reads(w, true, true, 0, 0) else OneMore(rule, retries, backoff, ReadMany(rule, retries, backoff, n - 1, w))
  }

  /** After n reads: at most one confirm step for each, beyond what others moved the value; and
      if they too only trusted by closeness, at most one for each of their updates. */
  ghost predicate Drifted(rule: Rule, start: int, n: nat, all: Reads) {
    all.unconfirmed ==>
      && rule.name in all.world.trusted
      && Abs(all.world.trusted[rule.name] - start) as real <= Steps(n, rule.confirmStep) + all.moved as real
      && (all.othersUnconfirmed ==> all.moved as real <= Steps(all.updates, rule.confirmStep))
  }

  lemma DriftAdds(start: int, before: int, after: int, n: nat, moved: nat, more: nat, step: real)
    requires Abs(before - start) as real <= Steps(n, step) + moved as real
    requires Abs(after - before) as real <= more as real + 10.0 * step
    ensures Abs(after - start) as real <= Steps(n + 1, step) + (moved + more) as real
  {
    assert Abs(after - start) <= Abs(before - start) + Abs(after - before);
  }

  lemma MovesAdd(a: nat, b: nat, m: nat, n: nat, step: real)
    requires a as real <= Steps(m, step) && b as real <= Steps(n, step)
    ensures (a + b) as real <= Steps(m + n, step)
  {
    StepsAdd(m, n, step);
  }

  lemma OneMoreDrifts(rule: Rule, retries: nat, backoff: int, start: int, n: nat, all: Reads)
    requires rule.confirmStep >= 0.0 && Drifted(rule, start, n, all)
    ensures Drifted(rule, start, n + 1, OneMore(rule, retries, backoff, all))
  {
    var r := ReadSingle(rule, retries, backoff, all.world);
    var made := Made(all.world, r.world);
    if all.unconfirmed && NotConfirmed(r.outcome) {
      OneReadDrift(rule, retries, backoff, all.world);
      DriftAdds(start, all.world.trusted[rule.name], r.world.trusted[rule.name], n, all.moved, Moved(rule, all.world, made), rule.confirmStep);
      if all.othersUnconfirmed && OthersUnconfirmed(rule, all.world, made) {
        UnconfirmedMoves(rule, all.world, made);
        MovesAdd(all.moved, Moved(rule, all.world, made), all.updates, Updates(rule, all.world, made), rule.confirmStep);
      }
    }
  }

  lemma NoDrift(rule: Rule, w: World)
    requires rule.name in w.trusted
    ensures Drifted(rule, w.trusted[rule.name], 0, Reads(w, true, true, 0, 0))
  {
  }

  lemma {:induction false} AllDrift(rule: Rule, retries: nat, backoff: int, n: nat, w: World)
    requires rule.name in w.trusted && rule.confirmStep >= 0.0
    ensures Drifted(rule, w.trusted[rule.name], n, ReadMany(rule, retries, backoff, n, w))
  {
    hide Drifted, OneMore;
    if n == 0 {
      NoDrift(rule, w);
    } else {
      AllDrift(rule, retries, backoff, n - 1, w);
      OneMoreDrifts(rule, retries, backoff, w.trusted[rule.name], n - 1, ReadMany(rule, retries, backoff, n - 1, w));
    }
  }

  lemma DriftInSteps(drift: nat, n: nat, moved: nat, m: nat, step: real)
    requires drift as real <= Steps(n, step) + moved as real && moved as real <= Steps(m, step)
    ensures drift as real <= Steps(n + m, step)
  {
    StepsAdd(n, m, step);
  }

  /** Without a confirmation by a second reading the trusted value moves by at most one confirm
      step per update: one for each of n reads, and one for each update by another goroutine. */
  lemma UnconfirmedDrift(rule: Rule, retries: nat, backoff: int, n: nat, w: World, all: Reads)
    requires rule.name in w.trusted && rule.confirmStep >= 0.0
    requires all == ReadMany(rule, retries, backoff, n, w) && all.unconfirmed && all.othersUnconfirmed
    ensures rule.name in all.world.trusted
    ensures Abs(all.world.trusted[rule.name] - w.trusted[rule.name]) as real <= Steps(n + all.updates, rule.confirmStep)
  {
    AllDrift(rule, retries, backoff, n, w);
    DriftInSteps(Abs(all.world.trusted[rule.name] - w.trusted[rule.name]), n, all.moved, all.updates, rule.confirmStep);
  }
}
