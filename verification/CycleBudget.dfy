/** The cycle budget: the closed form of `ValidateCycleBudget` in `internal/config/config.go`
    against the loops it stands for, in `internal/serial` and `internal/registers`.

    Only blocking reads, idle polls and backoffs take time. */
module CycleBudget {
  import opened Basics
  import Framing
  import opened SerialLink
  import opened Samples
  import opened ConfirmedRead
  import opened ReadTimes
  import FrameGrammar
  import Supervisor

  // ---- configuration ---------------------------------------------------------------

  /** The serial settings as configured, in milliseconds. */
  datatype SerialConfig = SerialConfig(readTimeout: int, responseTimeout: int, retries: int, retryBackoff: int,
                                       reopenBackoff: int, reopenMaxBackoff: int, healthCheckInterval: int,
                                       busQuietGap: int, busQuietMaxWait: int)

  function Default(value: int, default: int): int { if value == 0 then default else value }

  function Defaulted(c: SerialConfig): SerialConfig {
    SerialConfig(Default(c.readTimeout, 200), Default(c.responseTimeout, 300), Default(c.retries, 3), Default(c.retryBackoff, 100),
                 Default(c.reopenBackoff, 500), Default(c.reopenMaxBackoff, 30000), Default(c.healthCheckInterval, 1000),
                 Default(c.busQuietGap, 20), Default(c.busQuietMaxWait, 100))
  }

  function Durations(c: SerialConfig): seq<int> {
    [c.readTimeout, c.responseTimeout, c.retryBackoff, c.reopenBackoff, c.reopenMaxBackoff, c.healthCheckInterval,
     c.busQuietGap, c.busQuietMaxWait]
  }

  /** What `Validate` accepts, as far as the serial link and the read interval go. */
  predicate IsValid(c: SerialConfig, readInterval: int) {
    && c.retries >= 1 && readInterval > 0
    && (forall i :: 0 <= i < |Durations(c)| ==> Durations(c)[i] >= 0)
    && c.reopenMaxBackoff >= c.reopenBackoff
  }

  /** What is left standing at startup: defaults applied and validated. */
  predicate Accepted(c: SerialConfig, readInterval: int) { Defaulted(c) == c && IsValid(c, readInterval) }

  function EffectiveResponseTimeout(c: SerialConfig): int { Max(c.responseTimeout, c.readTimeout) }

  function EffectiveBusQuietMaxWait(c: SerialConfig): int { Max(c.busQuietMaxWait, c.busQuietGap) }

  function EffectiveAttempts(c: SerialConfig): int { Max(c.retries, 2) }

  /** Go's integer division truncates toward zero. */
  function Quo(a: int, b: int): int
    requires b > 0
  {
    if a >= 0 then a / b else -(-a / b)
  }

  /** `ValidateCycleBudget` reports no error. */
  predicate BudgetAccepted(c: SerialConfig, readInterval: int, registers: int) {
    || registers <= 0
    || EffectiveAttempts(c) * (EffectiveBusQuietMaxWait(c) + EffectiveResponseTimeout(c) + Quo(c.retryBackoff * 3, 2)) * registers
       <= readInterval * 1000
  }

  // ---- what the serial layer makes of it -------------------------------------------

  /** `applyDefaults` of the serial layer, on durations. */
  function LinkDefaults(s: Settings): Settings {
    var response := if s.responseTimeout <= 0 then 500 * MS else s.responseTimeout;
    var read := if s.readTimeout <= 0 then 100 * MS else s.readTimeout;
    var gap := if s.busQuietGap <= 0 then 20 * MS else s.busQuietGap;
    var maxWait := if s.busQuietMaxWait <= 0 then 100 * MS else s.busQuietMaxWait;
    Settings(read, Max(response, read), gap, Max(maxWait, gap))
  }

  function LinkSettings(c: SerialConfig): Settings {
    LinkDefaults(Settings(c.readTimeout * MS, c.responseTimeout * MS, c.busQuietGap * MS, c.busQuietMaxWait * MS))
  }

  lemma AcceptedIsPositive(c: SerialConfig, readInterval: int)
    requires Accepted(c, readInterval)
    ensures c.readTimeout > 0 && c.responseTimeout > 0 && c.retryBackoff > 0 && c.busQuietGap > 0 && c.busQuietMaxWait > 0
    ensures c.reopenBackoff > 0 && c.retries > 0
  {
    var d := Durations(c);
    assert d[0] >= 0 && d[1] >= 0 && d[2] >= 0 && d[3] >= 0 && d[6] >= 0 && d[7] >= 0;
  }

  /** Applying defaults twice is applying them once, so what passes validation is accepted. */
  lemma DefaultsAreStable(c: SerialConfig, readInterval: int)
    ensures Defaulted(Defaulted(c)) == Defaulted(c)
    ensures IsValid(Defaulted(c), readInterval) ==> Accepted(Defaulted(c), readInterval)
  {
  }

  /** The `Effective` values of the configuration are the ones that the serial layer and the reader
      use. */
  lemma EffectiveValuesAreUsed(c: SerialConfig, readInterval: int)
    requires Accepted(c, readInterval)
    ensures LinkSettings(c) == Settings(c.readTimeout * MS, EffectiveResponseTimeout(c) * MS, c.busQuietGap * MS, EffectiveBusQuietMaxWait(c) * MS)
    ensures EffectiveAttempts(c) == AttemptsFor(c.retries)
  {
    AcceptedIsPositive(c, readInterval);
  }

  /** An accepted pair of reopen delays, and an accepted interval, are the supervisor's own. */
  lemma AcceptedPacingIsUsed(c: SerialConfig, readInterval: int)
    requires Accepted(c, readInterval)
    ensures var pacing := Supervisor.Pacing(c.reopenBackoff * MS, c.reopenMaxBackoff * MS, c.healthCheckInterval * MS);
      Supervisor.PacingDefaults(pacing) == pacing && Supervisor.Sound(pacing)
  {
    AcceptedIsPositive(c, readInterval);
    assert Durations(c)[5] >= 0;
  }

  // ---- runs ------------------------------------------------------------------------

  /** What the reader sees of a transaction's result. */
  predicate Reports(result: TxResult, answer: Answer) {
    match result
    case Value(v) => answer == Replied(v)
    case Error(e) => answer == if e.PortError() then Gone else Lost
  }

  /** Some transaction of this link, started some time in some context, gives this reply. */
  ghost predicate Producible(s: Settings, r: Reply) {
    exists x: Framing.Exchange, now: int, limit: int, ctx: Ctx, command: string ::
      var run := TransactRun(x, s, now, limit, ctx, command);
      r.took == run.now - now && Reports(run.result, r.answer)
  }

  /** What the reader makes of it. */
  function Attempts(c: SerialConfig): nat { AttemptsFor(c.retries) }

  /** A cycle over these registers. */
  function CycleRun(c: SerialConfig, regs: seq<ReadRegister>, w: World): Cycle {
    ReadAllFrom(regs, Attempts(c), c.retryBackoff * MS, map[], w)
  }

  /** Every cycle over n registers, whatever the unit answers, the bus carries and the dice
      roll, ends within the read interval. */
  ghost predicate BudgetKept(c: SerialConfig, readInterval: int, n: nat) {
    forall regs: seq<ReadRegister>, w: World ::
      |regs| == n && (forall r :: r in w.replies ==> Producible(LinkSettings(c), r)) ==>
      CycleRun(c, regs, w).world.now - w.now <= readInterval * 1000 * MS
  }

  /** The longest read of one register: every attempt pays both waits in full and one idle
      poll over in each, and all but the first the longest backoff. */
  function WorstRead(c: SerialConfig): int {
    Attempts(c) * (EffectiveBusQuietMaxWait(c) * MS + EffectiveResponseTimeout(c) * MS + 2 * Framing.IDLE_POLL)
    + (Attempts(c) - 1) * LongestPause(c.retryBackoff * MS)
  }

  lemma ProducibleEnds(s: Settings, r: Reply)
    requires Producible(s, r)
    ensures r.took <= LongestTransaction(s)
  {
    var x: Framing.Exchange, now: int, limit: int, ctx: Ctx, command: string :|
      var run := TransactRun(x, s, now, limit, ctx, command);
      r.took == run.now - now && Reports(run.result, r.answer);
    TransactEnds(x, s, now, limit, ctx, command);
  }

  lemma PausesBetween(n: nat, x: nat, pause: nat)
    requires n > 0
    ensures x + Times(n - 1, x + pause) == n * x + (n - 1) * pause
  {
    TimesIsProduct(n - 1, x + pause);
    assert (n - 1) * (x + pause) == (n - 1) * x + (n - 1) * pause;
    assert n * x == x + (n - 1) * x;
  }

  lemma LongestIs(c: SerialConfig, readInterval: int)
    requires Accepted(c, readInterval)
    ensures LongestTransaction(LinkSettings(c)) == EffectiveBusQuietMaxWait(c) * MS + EffectiveResponseTimeout(c) * MS + 2 * Framing.IDLE_POLL
    ensures LongestRead(Attempts(c), c.retryBackoff * MS, LongestTransaction(LinkSettings(c))) == WorstRead(c)
  {
    AcceptedIsPositive(c, readInterval);
    EffectiveValuesAreUsed(c, readInterval);
    PausesBetween(Attempts(c), LongestTransaction(LinkSettings(c)), LongestPause(c.retryBackoff * MS));
  }

  /** No run is longer than n worst reads. */
  lemma NoCycleIsLonger(c: SerialConfig, readInterval: int, regs: seq<ReadRegister>, w: World)
    requires Accepted(c, readInterval)
    requires forall r :: r in w.replies ==> Producible(LinkSettings(c), r)
    ensures WorstRead(c) >= 0 && CycleRun(c, regs, w).world.now - w.now <= Times(|regs|, WorstRead(c))
  {
    LongestIs(c, readInterval);
    forall r | r in w.replies ensures r.took <= LongestTransaction(LinkSettings(c)) {
      ProducibleEnds(LinkSettings(c), r);
    }
    EachWithin(w.replies, LongestTransaction(LinkSettings(c)));
    CycleEnds(regs, Attempts(c), c.retryBackoff * MS, map[], w, LongestTransaction(LinkSettings(c)));
  }

  // ---- the worst run exists --------------------------------------------------------

  /** At least m more transactions are lost after the longest time, and the dice always stretch
      the backoff as far as they can. */
  ghost predicate AllSlow(w: World, took: nat, backoff: int, m: nat) {
    && w.ctx == Never && m <= |w.replies| && m <= |w.rolls|
    && (forall i :: 0 <= i < |w.replies| ==> w.replies[i] == Reply(Lost, took, map[]))
    && (forall i :: 0 <= i < |w.rolls| ==> w.rolls[i] == backoff / 2)
  }

  lemma SlowStep(rule: Rule, backoff: int, attempt: nat, w: World, took: nat, m: nat)
    requires AllSlow(w, took, backoff, m) && m > 0 && backoff > 0
    ensures var s := StepRead(rule, backoff, attempt, [], w);
      && s.Again? && s.samples == [] && AllSlow(s.world, took, backoff, m - 1)
      && s.world.now == w.now + took + if attempt > 1 then LongestPause(backoff) else 0
  {
    assert w.NextReply() == w.replies[0] && w.NextRoll() == w.rolls[0];
    assert Jittered(backoff, backoff / 2) == backoff + backoff / 2;
  }

  /** k more attempts, all but the first of the read preceded by the longest pause. */
  lemma {:induction false} SlowRead(rule: Rule, retries: nat, backoff: int, attempt: nat, k: nat, w: World, took: nat, m: nat)
    requires AllSlow(w, took, backoff, m) && backoff > 0 && attempt > 1 && attempt + k == retries + 1 && k <= m
    ensures var r := ReadFrom(rule, retries, backoff, attempt, [], w);
      && r.outcome.Unread? && AllSlow(r.world, took, backoff, m - k)
      && r.world.now == w.now + Times(k, took + LongestPause(backoff))
    decreases k
  {
    if k > 0 {
      var s := StepRead(rule, backoff, attempt, [], w);
      SlowStep(rule, backoff, attempt, w, took, m);
      ReadUnfolds(rule, retries, backoff, attempt, [], w, s);
      SlowRead(rule, retries, backoff, attempt + 1, k - 1, s.world, took, m - 1);
    }
  }

  lemma SlowSingle(rule: Rule, retries: nat, backoff: int, w: World, took: nat, m: nat)
    requires AllSlow(w, took, backoff, m) && backoff > 0 && retries <= m
    ensures var r := ReadSingle(rule, retries, backoff, w);
      && r.outcome.Unread? && AllSlow(r.world, took, backoff, m - retries)
      && r.world.now == w.now + LongestRead(retries, backoff, took)
  {
    if retries > 0 {
      var s := StepRead(rule, backoff, 1, [], w);
      SlowStep(rule, backoff, 1, w, took, m);
      ReadUnfolds(rule, retries, backoff, 1, [], w, s);
      SlowRead(rule, retries, backoff, 2, retries - 1, s.world, took, m - 1);
    }
  }

  lemma {:induction false} SlowCycle(regs: seq<ReadRegister>, retries: nat, backoff: int, results: map<string, RegisterValue>, w: World, took: nat)
    requires AllSlow(w, took, backoff, Times(|regs|, retries)) && backoff > 0
    ensures ReadAllFrom(regs, retries, backoff, results, w).world.now == w.now + Times(|regs|, LongestRead(retries, backoff, took))
  {
    if regs != [] {
      assert w.Checked() == w;
      SlowSingle(RuleOf(regs[0]), retries, backoff, w, took, Times(|regs|, retries));
      var r := ReadSingle(RuleOf(regs[0]), retries, backoff, w);
      SlowCycle(regs[1..], retries, backoff, results[regs[0].name := Recorded(r.outcome)], r.world, took);
    }
  }

  function Copies<T>(n: nat, x: T): (s: seq<T>)
    ensures |s| == n && forall i :: 0 <= i < n ==> s[i] == x
  {
    seq(n, _ => x)
  }

  const ANY_REGISTER := ReadRegister("any", "130 1067", "any", 1, Values.IntegerKind, 0, 1, 0.0)

  /** The slowest transaction is one the link can produce. */
  lemma SlowestIsProducible(c: SerialConfig, readInterval: int)
    requires Accepted(c, readInterval)
    ensures Producible(LinkSettings(c), Reply(Lost, LongestTransaction(LinkSettings(c)), map[]))
  {
    AcceptedIsPositive(c, readInterval);
    EffectiveValuesAreUsed(c, readInterval);
    var s := LinkSettings(c);
    SlowestExchangeIsSlowest(s, 0, 0, "");
    var run := TransactRun(SlowestExchange(s), s, 0, 0, Never, "");
    assert run.now - 0 == LongestTransaction(s) && Reports(run.result, Lost);
  }

  /** Some run takes exactly n worst reads. */
  lemma SomeCycleIsThatLong(c: SerialConfig, readInterval: int, n: nat) returns (regs: seq<ReadRegister>, w: World)
    requires Accepted(c, readInterval)
    ensures WorstRead(c) >= 0
    ensures |regs| == n && (forall r :: r in w.replies ==> Producible(LinkSettings(c), r))
    ensures CycleRun(c, regs, w).world.now - w.now == Times(n, WorstRead(c))
  {
    AcceptedIsPositive(c, readInterval);
    LongestIs(c, readInterval);
    SlowestIsProducible(c, readInterval);
    var took := LongestTransaction(LinkSettings(c));
    var m := Times(n, Attempts(c));
    regs := Copies(n, ANY_REGISTER);
    w := World(0, Never, Copies(m, c.retryBackoff * MS / 2), Copies(m, Reply(Lost, took, map[])), 0, map[]);
    SlowCycle(regs, Attempts(c), c.retryBackoff * MS, map[], w, took);
  }

  // ---- soundness -------------------------------------------------------------------

  /** Exactly when the budget is kept: the worst read, times the number of registers, fits
      the read interval. */
  lemma BudgetKeptExactly(c: SerialConfig, readInterval: int, n: nat)
    requires Accepted(c, readInterval)
    ensures BudgetKept(c, readInterval, n) <==> n * WorstRead(c) <= readInterval * 1000 * MS
  {
    var regs, w := SomeCycleIsThatLong(c, readInterval, n);
    TimesIsProduct(n, WorstRead(c));
    if n * WorstRead(c) <= readInterval * 1000 * MS {
      forall regs: seq<ReadRegister>, w: World | |regs| == n && (forall r :: r in w.replies ==> Producible(LinkSettings(c), r))
        ensures CycleRun(c, regs, w).world.now - w.now <= readInterval * 1000 * MS
      {
        NoCycleIsLonger(c, readInterval, regs, w);
      }
    }
  }

  lemma ProductKeepsOrder(a: int, b: int, n: nat)
    requires a <= b
    ensures n * a <= n * b
  {
  }

  /** What the check leaves out of an odd backoff. */
  function HalfDropped(backoff: int): int { if backoff % 2 == 1 then MS / 2 else 0 }

  /** What the check should charge for one register, in nanoseconds, to be what it is: the worst
      read without the idle poll that each of its waits may overrun, with one more longest pause,
      and for an odd backoff less half a millisecond for each attempt. */
  function Charge(c: SerialConfig): int {
    WorstRead(c) - Attempts(c) * (2 * Framing.IDLE_POLL) + LongestPause(c.retryBackoff * MS) - Attempts(c) * HalfDropped(c.retryBackoff)
  }

  lemma PauseCharged(b: int)
    requires b > 0
    ensures Quo(b * 3, 2) * MS == LongestPause(b * MS) - HalfDropped(b)
  {
    assert LongestPause(b * MS) == b * 1_500_000;
  }

  lemma WorstReadSplits(c: SerialConfig)
    ensures var a, q := Attempts(c), EffectiveBusQuietMaxWait(c) + EffectiveResponseTimeout(c);
      WorstRead(c) == a * (q * MS + 2 * MS) + (a - 1) * LongestPause(c.retryBackoff * MS)
  {
    hide LongestPause;
  }

  lemma ChargeIs(c: SerialConfig, readInterval: int)
    requires Accepted(c, readInterval)
    ensures EffectiveAttempts(c) * (EffectiveBusQuietMaxWait(c) + EffectiveResponseTimeout(c) + Quo(c.retryBackoff * 3, 2)) * MS == Charge(c)
  {
    AcceptedIsPositive(c, readInterval);
    PauseCharged(c.retryBackoff);
    WorstReadSplits(c);
    assert EffectiveAttempts(c) == Attempts(c);
    hide LongestPause, WorstRead, HalfDropped, EffectiveAttempts, Attempts, EffectiveBusQuietMaxWait, EffectiveResponseTimeout, Quo;
    ChargeSplits(EffectiveAttempts(c), EffectiveBusQuietMaxWait(c) + EffectiveResponseTimeout(c), Quo(c.retryBackoff * 3, 2),
                 LongestPause(c.retryBackoff * MS), HalfDropped(c.retryBackoff));
  }

  lemma ChargeSplits(a: int, q: int, charged: int, pause: int, odd: int)
    requires charged * MS == pause - odd
    ensures a * (q + charged) * MS == a * (q * MS + 2 * MS) + (a - 1) * pause - a * (2 * MS) + pause - a * odd
  {
    assert a * (q + charged) * MS == a * (q * MS) + a * (charged * MS);
    assert a * (charged * MS) == a * pause - a * odd;
    assert a * (q * MS + 2 * MS) == a * (q * MS) + a * (2 * MS);
    assert (a - 1) * pause == a * pause - pause;
  }

  /** The check accepts a configuration exactly when the charge for every register fits the
      interval. */
  lemma BudgetAcceptedExactly(c: SerialConfig, readInterval: int, n: nat)
    requires Accepted(c, readInterval)
    ensures BudgetAccepted(c, readInterval, n) <==> n * Charge(c) <= readInterval * 1000 * MS
  {
    var charge := EffectiveAttempts(c) * (EffectiveBusQuietMaxWait(c) + EffectiveResponseTimeout(c) + Quo(c.retryBackoff * 3, 2));
    ChargeIs(c, readInterval);
    hide Charge;
    assert n * (charge * MS) == charge * n * MS;
  }

  /** One and a half backoffs pay for the idle polls that the waits overrun, and for what the check
      drops of an odd backoff. */
  predicate BackoffPays(c: SerialConfig) {
    3 * c.retryBackoff >= (if c.retryBackoff % 2 == 1 then 5 else 4) * Attempts(c)
  }

  lemma PaysMeans(c: SerialConfig, readInterval: int)
    requires Accepted(c, readInterval)
    ensures BackoffPays(c) <==> WorstRead(c) <= Charge(c)
  {
    AcceptedIsPositive(c, readInterval);
    var a, b := Attempts(c), c.retryBackoff;
    assert LongestPause(b * MS) == b * 1_500_000;
    assert a * (2 * MS) == (2 * a) * MS && 2 * (a * (MS / 2)) == a * MS;
    hide WorstRead;
  }

  lemma ChargeIsPositive(c: SerialConfig, readInterval: int)
    requires Accepted(c, readInterval)
    ensures Charge(c) > 0
  {
    AcceptedIsPositive(c, readInterval);
    ChargeIs(c, readInterval);
    ProductIsPositive(EffectiveAttempts(c), EffectiveBusQuietMaxWait(c) + EffectiveResponseTimeout(c) + Quo(c.retryBackoff * 3, 2));
  }

  lemma ProductIsPositive(a: int, b: int)
    requires a > 0 && b > 0
    ensures a * b > 0
  {
  }

  /** Exactly when the check is enough, for every interval and every number of registers: when the
      backoff pays. */
  lemma BudgetSoundExactly(c: SerialConfig)
    requires Accepted(c, 1)
    ensures (forall readInterval: int, n: nat :: readInterval > 0 && BudgetAccepted(c, readInterval, n) ==> BudgetKept(c, readInterval, n))
            <==> BackoffPays(c)
  {
    PaysMeans(c, 1);
    if BackoffPays(c) {
      forall readInterval: int, n: nat | readInterval > 0 && BudgetAccepted(c, readInterval, n) ensures BudgetKept(c, readInterval, n) {
        BudgetAcceptedExactly(c, readInterval, n);
        BudgetKeptExactly(c, readInterval, n);
        ProductKeepsOrder(WorstRead(c), Charge(c), n);
      }
    } else {
      ChargeIsPositive(c, 1);
      BudgetAcceptedExactly(c, Charge(c), 1000 * MS);
      BudgetKeptExactly(c, Charge(c), 1000 * MS);
      assert BudgetAccepted(c, Charge(c), 1000 * MS) && !BudgetKept(c, Charge(c), 1000 * MS);
    }
  }

  /** Budget soundness: a configuration that passes the defaults, `Validate` and
      `ValidateCycleBudget` keeps every cycle within the read interval, if its backoff pays. */
  lemma BudgetSound(c: SerialConfig, readInterval: int, n: nat)
    requires Accepted(c, readInterval) && BudgetAccepted(c, readInterval, n) && BackoffPays(c)
    ensures BudgetKept(c, readInterval, n)
  {
    BudgetSoundExactly(c);
  }

  /** Without that condition the check is not enough: a configuration it accepts for 166
      registers has cycles that overrun their interval. */
  lemma BudgetCheckAloneIsUnsound()
    ensures var c := SerialConfig(1, 1, 2, 1, 500, 30000, 1000, 1, 1);
      Accepted(c, 1) && BudgetAccepted(c, 1, 166) && !BudgetKept(c, 1, 166)
  {
    var c := SerialConfig(1, 1, 2, 1, 500, 30000, 1000, 1, 1);
    assert WorstRead(c) == 9_500_000 && 166 * 9_500_000 > 1_000_000_000;
    BudgetKeptExactly(c, 1, 166);
  }

  // ---- the program -----------------------------------------------------------------

  /** `AppConfig`, as far as the serial link and the read interval go. */
  class AppConfig {
    var serial: SerialConfig
    var readInterval: int

    constructor (serial: SerialConfig, readInterval: int)
      ensures this.serial == serial && this.readInterval == readInterval
    {
      this.serial, this.readInterval := serial, readInterval;
    }

    method ApplyDefaults()
      modifies this
      ensures serial == Defaulted(old(serial)) && readInterval == Default(old(readInterval), 60)
    {
      var c := serial;
      var readTimeout, responseTimeout, retries, retryBackoff := c.readTimeout, c.responseTimeout, c.retries, c.retryBackoff;
      var reopenBackoff, reopenMaxBackoff, healthCheckInterval := c.reopenBackoff, c.reopenMaxBackoff, c.healthCheckInterval;
      var busQuietGap, busQuietMaxWait := c.busQuietGap, c.busQuietMaxWait;
      if readTimeout == 0 { readTimeout := 200; }
      if responseTimeout == 0 { responseTimeout := 300; }
      if retries == 0 { retries := 3; }
      if retryBackoff == 0 { retryBackoff := 100; }
      if reopenBackoff == 0 { reopenBackoff := 500; }
      if reopenMaxBackoff == 0 { reopenMaxBackoff := 30000; }
      if healthCheckInterval == 0 { healthCheckInterval := 1000; }
      if busQuietGap == 0 { busQuietGap := 20; }
      if busQuietMaxWait == 0 { busQuietMaxWait := 100; }
      if readInterval == 0 { readInterval := 60; }
      serial := SerialConfig(readTimeout, responseTimeout, retries, retryBackoff, reopenBackoff, reopenMaxBackoff,
                             healthCheckInterval, busQuietGap, busQuietMaxWait);
    }

    /** `Validate` reports a problem for each thing wrong; none means valid. */
    method Validate() returns (problems: seq<string>)
      ensures problems == [] <==> IsValid(serial, readInterval)
    {
      problems := [];
      if serial.retries < 1 {
        problems := problems + ["serial.retries must be at least 1"];
      }
      if readInterval <= 0 {
        problems := problems + ["read_interval must be positive"];
      }
      var durations := Durations(serial);
      for i := 0 to |durations|
        invariant problems == [] <==>
          serial.retries >= 1 && readInterval > 0 && forall j :: 0 <= j < i ==> durations[j] >= 0
      {
        if durations[i] < 0 {
          problems := problems + ["a duration must not be negative"];
        }
      }
      if serial.reopenMaxBackoff < serial.reopenBackoff {
        problems := problems + ["serial.reopen_max_backoff is below serial.reopen_backoff"];
      }
    }
  }

  /** The serial layer's own configuration. */
  class LinkConfig {
    var settings: Settings

    constructor (settings: Settings)
      ensures this.settings == settings
    {
      this.settings := settings;
    }

    method ApplyDefaults()
      modifies this
      ensures settings == LinkDefaults(old(settings))
      ensures 0 < settings.readTimeout <= settings.responseTimeout && 0 < settings.busQuietGap <= settings.busQuietMaxWait
    {
      if settings.responseTimeout <= 0 { settings := settings.(responseTimeout := 500 * MS); }
      if settings.readTimeout <= 0 { settings := settings.(readTimeout := 100 * MS); }
      if settings.busQuietGap <= 0 { settings := settings.(busQuietGap := 20 * MS); }
      if settings.busQuietMaxWait <= 0 { settings := settings.(busQuietMaxWait := 100 * MS); }
      if settings.busQuietMaxWait < settings.busQuietGap { settings := settings.(busQuietMaxWait := settings.busQuietGap); }
      if settings.responseTimeout < settings.readTimeout { settings := settings.(responseTimeout := settings.readTimeout); }
    }
  }
}
