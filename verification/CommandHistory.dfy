/** Deduplication over runs of `HandleMessage`: which commands are dropped, and which retries
    reach the wire. */
module CommandHistory {
  import opened Basics
  import opened Values
  import opened ConfirmedRead
  import opened CheckedPublish
  import opened Dedupe
  import opened Writing
  import opened ReadTrace
  import opened WriteContract

  /** A message, and everything about the world in which the worker comes to handle it. */
  datatype Incoming = Incoming(topic: string, message: string, world: World, sends: seq<SendReply>)

  function Facing(m: Incoming, s: Scene): Scene { s.(world := m.world, sends := m.sends) }

  const UNUSED := Scene(World(0, Never, [], [], 0, map[]), [], map[], [], map[], [], [])

  /** The command worker, after these messages in order. */
  function Serve(plan: Plan, messages: seq<Incoming>): Scene {
    if messages == [] then UNUSED
    else
      var m := messages[|messages| - 1];
      Handle(plan, m.topic, m.message, Facing(m, Serve(plan, messages[..|messages| - 1]))).scene
  }

  /** Two commands are compared by their parsed values: "+3" and "03" are both 3. */
  lemma ItoaDistinguishes(a: int, b: int)
    ensures Itoa(a) == Itoa(b) <==> a == b
  {
    SameTextSameValue(10 * a, 10 * b, IntegerKind);
  }

  lemma HandleRecords(plan: Plan, topic: string, message: string, s: Scene)
    requires OnRecord(s)
    ensures OnRecord(Handle(plan, topic, message, s).scene)
  {
    AcceptedIsCarried(plan, topic, message, s);
    if IsValid(plan, topic, message) && !Dropped(plan, topic, message, s) {
      var t, mark := CarryLaw(OrderOf(plan, topic, message), s.(acts := []));
    }
  }

  lemma {:induction false} ServeRecords(plan: Plan, messages: seq<Incoming>)
    ensures OnRecord(Serve(plan, messages))
  {
    if messages != [] {
      var m := messages[|messages| - 1];
      var before := Serve(plan, messages[..|messages| - 1]);
      ServeRecords(plan, messages[..|messages| - 1]);
      HandleRecords(plan, m.topic, m.message, Facing(m, before));
    }
  }

  /** Over every run: a valid message is dropped if and only if the newest command sent on its
      topic had the same parsed value, less than one window ago, and was not forgotten after a
      failed read-back. */
  lemma DropsOnlyRedeliveries(plan: Plan, messages: seq<Incoming>, m: Incoming)
    requires IsValid(plan, m.topic, m.message)
    ensures var s := Facing(m, Serve(plan, messages));
      Handle(plan, m.topic, m.message, s).outcome == Duplicate <==>
        exists at :: Newest(s.history, m.topic, Itoa(Parsed(m.message).value), at) && m.world.now - at < WINDOW
  {
    var s := Facing(m, Serve(plan, messages));
    ServeRecords(plan, messages);
    HandleMessageContract(plan, m.topic, m.message, s);
    DroppedIffRedelivered(s.history, m.topic, Itoa(Parsed(m.message).value), m.world.now);
  }

  /** v, w, v: after any run in which another value was sent on the topic, and this one was not
      sent on it since, the change back is carried out, however soon it comes. */
  lemma ChangeBackReachesWire(plan: Plan, messages: seq<Incoming>, m: Incoming, i: nat, other: int)
    requires IsValid(plan, m.topic, m.message) && Parsed(m.message).value != other
    requires var history := Serve(plan, messages).history;
      && i < |history| && history[i].Sent? && history[i].topic == m.topic && history[i].value == Itoa(other)
      && forall j :: i < j < |history| ==> !(history[j].Sent? && history[j].topic == m.topic && history[j].value == Itoa(Parsed(m.message).value))
    ensures var s := Facing(m, Serve(plan, messages));
      && Handle(plan, m.topic, m.message, s).outcome.Accepted()
      && Handle(plan, m.topic, m.message, s) == Carry(OrderOf(plan, m.topic, m.message), s.(acts := []))
  {
    var s := Facing(m, Serve(plan, messages));
    ServeRecords(plan, messages);
    ItoaDistinguishes(Parsed(m.message).value, other);
    ChangeBackIsSent(s.history, m.topic, Itoa(Parsed(m.message).value), Itoa(other), i, m.world.now);
    AcceptedIsCarried(plan, m.topic, m.message, s);
    HandleMessageContract(plan, m.topic, m.message, s);
  }

  // ---- repeating a failed command ---------------------------------------------------

  /** The wait after a send is not cut short. */
  predicate Settles(o: Order, sent: SendRun) { Sleep(sent.scene.world, o.plan.settleDelay).ok }

  /** The send that a command makes and never gets to read back, if there is one, and when it
      makes it: the first, when the wait after it is cut short, or when it is read back as
      refused and the second is not delivered; or the second, when the wait after that is cut
      short. Each case is the guard of a branch that returns early. */
  function LeftUnread(o: Order, s: Scene): Option<int> {
    var begun := NextSequence(o.reg.name, s);
    var first := SendFrom(o.plan, o.command, 1, begun);
    if !first.outcome.Delivered? then None
    else if !Settles(o, first) then Some(first.scene.world.now)
    else
      var step := StepWrite(o, 1, begun);
      if !step.Resend? then None
      else
        var second := SendFrom(o.plan, o.command, 1, step.scene);
        if !second.outcome.Delivered? then Some(first.scene.world.now)
        else if !Settles(o, second) then Some(second.scene.world.now)
        else None
  }

  lemma StepByGuards(o: Order, attempt: nat, s: Scene)
    ensures var sent, step := SendFrom(o.plan, o.command, 1, s), StepWrite(o, attempt, s);
      && (!sent.outcome.Delivered? <==> step.Aborted? && step.outcome == NotSent)
      && (sent.outcome.Delivered? && !Settles(o, sent) <==> step.Aborted? && step.outcome == Interrupted)
      && (step.Aborted? ==> step.outcome == NotSent || step.outcome == Interrupted)
  {
  }

  /** The guards decide how the command ends. */
  lemma CarryByGuards(o: Order, s: Scene)
    ensures var r, begun := Carry(o, s), NextSequence(o.reg.name, s);
      match LeftUnread(o, s)
      case Some(at) => (r.outcome == NotSent || r.outcome == Interrupted) && LastSentAt(o, begun) == Some(at)
      case None => r.outcome == Written || r.outcome == NotConfirmed || (r.outcome == NotSent && LastSentAt(o, begun) == None)
  {
    var begun := NextSequence(o.reg.name, s);
    var first := StepWrite(o, 1, begun);
    StepByGuards(o, 1, begun);
    WriteUnfolds(o, 1, begun, first);
    if first.Resend? {
      var second := StepWrite(o, 2, first.scene);
      StepByGuards(o, 2, first.scene);
      WriteUnfolds(o, 2, first.scene, second);
    }
  }

  /** The unread send was made while the command was being carried out. */
  lemma UnreadIsDuring(o: Order, s: Scene)
    requires LeftUnread(o, s).Some?
    ensures s.world.now <= LeftUnread(o, s).value <= Carry(o, s).scene.world.now
  {
    var start, begun := WireOf(s.world), NextSequence(o.reg.name, s);
    var first := SendFrom(o.plan, o.command, 1, begun);
    var step := StepWrite(o, 1, begun);
    SendGoesOn(o.plan, start, o.command, 1, o.plan.retries, begun);
    SettleGoesOn(o, start, 1, Remembered(o.topic, Itoa(o.value), first.scene));
    WriteUnfolds(o, 1, begun, step);
    if step.Resend? {
      var second := SendFrom(o.plan, o.command, 1, step.scene);
      SendGoesOn(o.plan, start, o.command, 1, o.plan.retries, step.scene);
      SettleGoesOn(o, start, 2, Remembered(o.topic, Itoa(o.value), second.scene));
      WriteUnfolds(o, 2, step.scene, StepWrite(o, 2, step.scene));
    }
  }

  /** Whether a failed command can be repeated: always, unless it made a send that it never read
      back. Then the repeat is taken for a redelivery for one window after that send. */
  lemma RetryReachesWireUnless(plan: Plan, topic: string, message: string, s: Scene, later: int)
    requires IsValid(plan, topic, message) && !Dropped(plan, topic, message, s) && s.world.now <= later
    requires !Handle(plan, topic, message, s).outcome.Nil()
    ensures var o, r := OrderOf(plan, topic, message), Handle(plan, topic, message, s);
      var unread := LeftUnread(o, s.(acts := []));
      && (IsDuplicate(r.scene.last, topic, Itoa(o.value), later) <==> unread.Some? && later - unread.value < WINDOW)
      && (unread.Some? ==> s.world.now <= unread.value <= r.scene.world.now)
  {
    var o, idle := OrderOf(plan, topic, message), s.(acts := []);
    AcceptedIsCarried(plan, topic, message, s);
    var t, mark := CarryLaw(o, idle);
    CarryByGuards(o, idle);
    if LeftUnread(o, idle).Some? {
      UnreadIsDuring(o, idle);
    }
  }

  /** So one window after its call has ended every failed command can be repeated. */
  lemma RetryAfterWindow(plan: Plan, topic: string, message: string, s: Scene, later: int)
    requires IsValid(plan, topic, message) && !Dropped(plan, topic, message, s)
    requires !Handle(plan, topic, message, s).outcome.Nil() && later >= Handle(plan, topic, message, s).scene.world.now + WINDOW
    ensures !IsDuplicate(Handle(plan, topic, message, s).scene.last, topic, Itoa(Parsed(message).value), later)
  {
    AcceptedIsCarried(plan, topic, message, s);
    CarryGoesOn(OrderOf(plan, topic, message), s.(acts := []));
    RetryReachesWireUnless(plan, topic, message, s, later);
  }

  /** And an interrupted command that is repeated within a window of its beginning is dropped. */
  lemma InterruptedRepeatIsDropped(plan: Plan, topic: string, message: string, s: Scene, later: int)
    requires IsValid(plan, topic, message) && Handle(plan, topic, message, s).outcome == Interrupted
    requires s.world.now <= later < s.world.now + WINDOW
    ensures IsDuplicate(Handle(plan, topic, message, s).scene.last, topic, Itoa(Parsed(message).value), later)
  {
    AcceptedIsCarried(plan, topic, message, s);
    CarryByGuards(OrderOf(plan, topic, message), s.(acts := []));
    RetryReachesWireUnless(plan, topic, message, s, later);
  }

  // ---- a failed command that cannot be repeated -------------------------------------

  const SILENT := WriteRegister("stage", "cmd", "", "{value}", 0, 3, "actual", [])
  const UNREAD := Plan(map["cmd" := SILENT], map[], 2, 0, 1, 0, 0, true)

  /** The first send goes out, nothing can be read back, and the second send fails. */
  const FLAKY := UNUSED.(sends := [SendReply(Taken, 0), SendReply(Failed, 0)])

  lemma OneIsParsed()
    ensures Parsed("1") == Some(1)
  {
    assert "1"[..0] == "" && DigitsValue("1") == 1;
  }

  /** The first send goes out and is not confirmed. */
  lemma FlakyFirst(o: Order, s: Scene)
    requires o == OrderFor(UNREAD, "cmd", SILENT, 1) && s == NextSequence("stage", FLAKY)
    ensures var step := StepWrite(o, 1, s);
      && step.Resend? && step.scene.last == map["cmd" := LastWrite(Itoa(1), 0)]
      && step.scene.world == UNUSED.world && step.scene.sends == [SendReply(Failed, 0)]
  {
    var sent := SendFrom(UNREAD, o.command, 1, s);
    assert sent == SendRun(Delivered, s.Sent(o.command));
    var t := Remembered("cmd", Itoa(1), sent.scene);
    assert Names(SILENT) == ["actual"];
    assert BackFrom(UNREAD, "stage", 0, ["actual"], map[], t) == BackRun(Some(map[]), t);
  }

  /** The second does not. */
  lemma FlakySecond(o: Order, s: Scene)
    requires o == OrderFor(UNREAD, "cmd", SILENT, 1) && s.world == UNUSED.world && s.sends == [SendReply(Failed, 0)]
    ensures var step := StepWrite(o, 2, s);
      step.Aborted? && step.outcome == NotSent && step.scene.last == s.last && step.scene.world == s.world
  {
    assert SendFrom(UNREAD, o.command, 1, s) == SendRun(SendFailed, s.Sent(o.command));
  }

  lemma FlakyCommand(o: Order)
    requires o == OrderFor(UNREAD, "cmd", SILENT, 1)
    ensures var r := Carry(o, FLAKY);
      r.outcome == NotSent && r.scene.last == map["cmd" := LastWrite(Itoa(1), 0)] && r.scene.world == UNUSED.world
  {
    var begun := NextSequence("stage", FLAKY);
    FlakyFirst(o, begun);
    var first := StepWrite(o, 1, begun);
    WriteUnfolds(o, 1, begun, first);
    FlakySecond(o, first.scene);
    WriteUnfolds(o, 2, first.scene, StepWrite(o, 2, first.scene));
  }

  /** So not every failed command can be repeated: this one fails because its second send does,
      and the user's retry is dropped as a redelivery. */
  lemma FailedCommandIsDropped()
    ensures var first := Handle(UNREAD, "cmd", "1", FLAKY);
      && first.outcome == NotSent && !first.outcome.Nil()
      && Handle(UNREAD, "cmd", "1", first.scene).outcome == Duplicate
  {
    OneIsParsed();
    assert IsValid(UNREAD, "cmd", "1");
    FlakyCommand(OrderOf(UNREAD, "cmd", "1"));
    AcceptedIsCarried(UNREAD, "cmd", "1", FLAKY);
    AcceptedIsCarried(UNREAD, "cmd", "1", Handle(UNREAD, "cmd", "1", FLAKY).scene);
  }
}
