# Aerosmart gateway: the shared-bus read/write protocol

The gateway polls and commands a ventilation unit over a serial line that the unit's own panel
also talks on. Frames carry no checksum, the unit does not confirm commands, and a poll loop, a
command worker and a settle runner share the wire. This project models that protocol and proves
what it keeps.

How it is modelled:

- What the program updates in place is a class whose methods are proved against functions on
  values; what the program promises is proved of those functions, for all inputs, or of every
  reachable state of a protocol of interleaved steps.
- The environment is adversarial. A port, a transactor, the dice and the other goroutines are
  scripts, and every finite behaviour is some script. A context is the number of checks that
  still find it live, so a cancellation can fall between any two checks.
- Time is an unbounded integer of nanoseconds. Only blocking reads, idle polls, sleeps and, where
  a script says so, sends and reopens take time.
- A string is a sequence of bytes. A register value is an integer number of tenths, which is all
  that its formats can show; `confirm_step` is a real.
- One poll loop, one command worker and one settle runner are assumed, as `cmd/main.go` starts them.

Where to look:

| file | what it holds |
|---|---|
| Basics.dfy, Lines.dfy | options, contexts; splitting a stream at newlines |
| FrameGrammar.dfy | which frames answer a command |
| Framing.dfy | the persistent frame buffer and the wait for a quiet bus |
| SerialLink.dfy | transactions, and the port that makes them |
| Supervisor.dfy | reopening at a pace |
| Values.dfy | formatting, and write/read-back agreement |
| Samples.dfy | how a raw value becomes a sample, and when two samples agree |
| ConfirmedRead.dfy | readings that are trusted or confirmed; the read cycle |
| ReadExactly.dfy, ReadEntries.dfy, ReadFaults.dfy, ReadDrift.dfy, ReadTimes.dfy | exactly when and how a read ends; the entries of a cycle; one corrupted reply; the drift of the trusted value; how long reads and cycles take |
| CycleBudget.dfy | the cycle budget against the loops it stands for |
| Gate.dfy | write priority: the gate and its interleavings |
| Resettle.dfy | the settle runner, its pending map and its wake token |
| CheckedPublish.dfy | checking again before every publish |
| Dedupe.dfy, CommandHistory.dfy | which commands are dropped, over every run |
| Writing.dfy, WriteContract.dfy | a command and a re-read as functions, and the contract of a command |
| ReadBacks.dfy | what a read-back reads, and that an undisturbed re-read does its work |
| Delivery.dfy | which number a message means, which words go on the wire, and how often |
| ReadTrace.dfy | what the reads of a command or a re-read saw, and which readings may be believed |
| Supersession.dfy | a re-read overtaken by newer commands |
| Writer.dfy | the writer itself |
| Poller.dfy | one cycle, read and then published |
| Preemption.dfy | write priority from end to end: the gate's protocol with the cycle's publishing |

Five promises do not hold as documented, and the model follows the code:

- The budget check charges neither the idle poll that each of the two waits may overrun nor the
  half millisecond that its integer division drops (`internal/config/config.go:498-506`).
  `BudgetCheckAloneIsUnsound` names a configuration it accepts whose cycles overrun;
  `BudgetKeptExactly` says exactly when cycles keep the interval, and `BudgetSoundExactly` that the
  check is enough, for every interval and every number of registers, if and only if one and a half
  backoffs pay for what it leaves out.
- A failed command is not always retryable (`internal/registers/writer.go:224-241`).
  `FailedCommandIsDropped` is a run in which the retry is dropped. `RetryReachesWireUnless` says
  exactly when that happens, by the guards of the branches that end a command early: for one window
  after a send that the command made and never got to read back. So `RetryAfterWindow` and
  `InterruptedRepeatIsDropped`.
- A `Preempt` that has returned has not always stopped the cycle (`internal/registers/gate.go:78-95`).
  When two overlap, the first may have captured the cycle and not cancelled it yet, and the second
  finds none to cancel: `OverlapPublishesOn`. `PreemptBoundsPublishing` says that this is the only
  way in which more than one value follows.
- A register of a read-back is not always read once (`internal/registers/writer.go:372-410`): one
  that is listed twice is read again if the first read gave nothing. `ReadBackInFull` says what is
  read.
- A wait for a quiet bus can end one idle poll past its limit: no read runs past it, as its comment
  says, but the idle poll after the last read does (`internal/serial/framing.go:137-169`).
  `BusyBusOverruns` reaches that bound.

## Model

| member | source | states |
|---|---|---|
| FrameGrammar.Exactness | internal/serial/serial.go:516-531 | on newline-free input a value is accepted if and only if the frame, between edge noise, is node, register and that number, blank-separated and printable, for the wanted prefix |
| FrameGrammar.PrintThenParse | internal/serial/serial.go:516-531 | a printed frame parses to its value under any edge noise |
| FrameGrammar.SplicedFramesRejected | internal/serial/serial.go:507-531 | two well-formed frames joined by anything without a newline, or by nothing, are rejected for every prefix |
| FrameGrammar.CommandPrefixNamesTarget | internal/serial/serial.go:497-505 | the prefix of a command is its node and register, whatever white space it is written with and whatever follows them |
| FrameGrammar.AcceptedIsInteger | internal/serial/serial.go:537-550 | an accepted value is an optional minus sign and digits |
| Lines.ScanSplitsAtNewlines | internal/serial/framing.go:99-102 | the lines of a stream, each with its newline, and then the rest are the stream, and no newline is anywhere else |
| Framing.NextFrame | internal/serial/framing.go:95-127 | a call ends at most one idle poll past its deadline and times out only once it has come; frames hold no newline; a dropped segment is one newline-free run of 513 to 768 bytes; the buffer stays within 768 |
| Framing.NextFrameConserves | internal/serial/framing.go:95-127 | one call neither loses, invents nor reorders a byte |
| Framing.NextFrameReads | internal/serial/framing.go:95-127 | one call makes at most 513 reads that return data |
| Framing.FrameInTime | internal/serial/framing.go:95-127 | a line is delivered by the deadline, or at once when the buffer holds it already |
| Framing.FrameIsExact | internal/serial/framing.go:95-127 | exactly what a call delivers, given all that a reader hears by its deadline: the next line of that, or else the error that ended the reading, or else a timeout; and what it leaves behind |
| Framing.TrimCRMeans | internal/serial/framing.go:99-102 | exactly the carriage returns at the end of a line are removed |
| Framing.OutcomeShapes | internal/serial/framing.go:95-127 | the shapes of frames, dropped segments and buffer over any number of calls |
| Framing.NoOverflow | internal/serial/framing.go:104-107 | a stream with no newline-free run longer than 512 never overflows |
| Framing.StreamConserved | internal/serial/framing.go:95-127 | over any calls on any stream, what was buffered and is to come is what was delivered and dropped, in order, then the buffer, then what is to come |
| Framing.Conservation | internal/serial/framing.go:62-127 | the bytes received are the delivered lines and dropped segments in order, followed by the buffer |
| Framing.ChunkingIndependence | internal/serial/framing.go:93-127 | however reads are cut, timed and interleaved with timeouts, the frames are the stream's lines in order and the buffer is the unterminated rest |
| Framing.WaitQuietFrom | internal/serial/framing.go:142-171 | the wait ends at most one idle poll past its limit and gives up only once the limit has come |
| Framing.WaitQuietSucceeds | internal/serial/framing.go:142-171 | on a port that does not fail the wait ends quiet or busy, unless its context was found done |
| Framing.QuietCancelledIsDone | internal/serial/framing.go:146-149 | the wait is cancelled only for a context found done, and then at once |
| Framing.SilentBusIsQuiet | internal/serial/framing.go:150-169 | a bus on which nobody talks is found quiet after exactly one gap |
| Framing.BusyBusOverruns | internal/serial/framing.go:150-169 | a bus that overruns the limit by one idle poll exists for every gap and limit |
| Framing.SilentUnitOverruns | internal/serial/framing.go:108-125 | a unit that overruns the deadline by one idle poll exists for every read timeout and deadline |
| Framing.FrameReader.Read | internal/serial/framing.go:81-91 | a read blocks for the time asked for, whatever timeout the port had, and an unknown one is set again |
| Framing.FrameReader.FrameTurn | internal/serial/framing.go:96-126 | one turn of the reading loop |
| Framing.FrameReader.ReadFrame | internal/serial/framing.go:95-127 | the loop over the scratch array computes the frame function and terminates |
| Framing.FrameReader.QuietTurn | internal/serial/framing.go:146-170 | one turn of the listening loop, and which byte was the last |
| Framing.FrameReader.AwaitQuiet | internal/serial/framing.go:142-171 | quiet is reported exactly when no byte has arrived for a whole gap, give or take an idle poll, and busy only if that never was so |
| Framing.FrameReader.Reset | internal/serial/framing.go:173-175 | the buffer is empty afterwards |
| SerialLink.InterruptionsAreResumed | internal/serial/serial.go:397-415 | fewer than ten interruptions of a drain never show |
| SerialLink.DrainIsResumed | internal/serial/serial.go:397-415 | a drain survives nine interruptions in a row and not ten |
| SerialLink.AwaitReplyIsFirstMatch | internal/serial/serial.go:314-331 | the reading loop is "split what was read, take the first match", from any buffer: a value is the first match in the bytes read so far, and without one no line read so far matches |
| SerialLink.TransactIsFirstMatch | internal/serial/serial.go:294-332 | a value is that of the first line, among those received after the flush and by the deadline, that answers the command, which was written; giving up comes no sooner than the deadline and means no line received matched |
| SerialLink.AwaitReplyIsComplete | internal/serial/serial.go:314-331 | the reading loop returns the first match among all that is heard by the deadline, or else the fault, or else that there was no reply; anything else only for a context found done |
| SerialLink.TransactIsComplete | internal/serial/serial.go:294-332 | the same of a whole transaction, with the faults of its transmission first, whether the bus turns quiet or stays busy; a context that nobody cancels is never found done |
| SerialLink.CancelledIsDone | internal/serial/serial.go:294-332 | a transaction is cancelled only for a context found done, and a failed quiet wait fails it before anything is written |
| SerialLink.AnswerIsReturned | internal/serial/serial.go:294-332 | a frame for the command that comes first within the deadline is what an undisturbed transaction returns |
| SerialLink.MatchIsFinal | internal/serial/serial.go:314-331 | bytes that come later cannot change a match |
| SerialLink.ReplyBytesDecideTheValue | internal/serial/serial.go:307-331 | nothing heard before the flush, and no chunking, can change the value |
| SerialLink.ValueIsAnswer | internal/serial/serial.go:314-331 | a value is a number that a frame for this command carried, among the lines received after the flush |
| SerialLink.AwaitReplyEnds | internal/serial/serial.go:314-331 | awaiting a reply ends within one idle poll of its deadline, gives up no sooner, and returns a value by it |
| SerialLink.TransactEnds | internal/serial/serial.go:294-332 | the longest time a transaction takes, whatever is on the bus |
| SerialLink.SlowestExchangeIsSlowest | internal/serial/serial.go:294-332 | that time is reached |
| SerialLink.SerialPort.Open | internal/serial/serial.go:204-224 | opening is idempotent, and makes the port healthy if and only if the device opens |
| SerialLink.SerialPort.Close | internal/serial/serial.go:231-249 | closing forgets the port, its frame buffer and its health, and may be repeated |
| SerialLink.SerialPort.Reopen | internal/serial/serial.go:467-480 | a reopened port is open and healthy if and only if the device opens |
| SerialLink.SerialPort.MarkUnhealthy | internal/serial/serial.go:266-275 | health is lost |
| SerialLink.SerialPort.Drain | internal/serial/serial.go:397-415 | the retry loop computes the drain's outcome |
| SerialLink.SerialPort.FlushWriteDrain | internal/serial/serial.go:383-394 | the command reaches the port at most once, and only after the flush; only a port-level error costs the port its health |
| SerialLink.SerialPort.Transmit | internal/serial/serial.go:363-395 | quiet wait, flush, one write and drain, and after success an empty buffer |
| SerialLink.SerialPort.AwaitAnswer | internal/serial/serial.go:314-331 | the reading loop computes the reply function |
| SerialLink.SerialPort.ConverseOn | internal/serial/serial.go:307-331 | the exchange on a given session |
| SerialLink.SerialPort.Transact | internal/serial/serial.go:294-332 | the transaction function on an open port, an error without a write on a closed one; at most one write per call |
| SerialLink.SerialPort.Send | internal/serial/serial.go:342-358 | the transmission and nothing after it; success means the port was open and the command was written exactly once |
| Supervisor.PacingDefaults | internal/serial/serial.go:107-119 | after defaults 0 < backoff <= maximum, and a configured pair in order is kept |
| Supervisor.SinceIsSpan | internal/serial/serial.go:433-442 | counting from the recorded time is counting from the first check of the unbroken healthy span |
| Supervisor.SupervisePaced | internal/serial/serial.go:425-465 | over every run: the k-th wait since the last reset is min(base * 2^k, max), no reopen starts before an earlier hold-off is over, and the backoff resets exactly after an unbroken healthy span of at least the maximum |
| Supervisor.SuperviseVigilant | internal/serial/serial.go:425-465 | over every run: a port that a turn finds unhealthy, a failed reopen included, is reopened next and no other is; the supervisor comes back when its interval or hold-off is over, exactly then with punctual timers; and it makes a turn for every two live checks |
| Supervisor.PacingConfig.ApplyDefaults | internal/serial/serial.go:107-119 | the defaults in place |
| Supervisor.Supervision.Watch | internal/serial/serial.go:433-442 | a turn on a healthy port |
| Supervisor.Supervision.ReopenAfter | internal/serial/serial.go:448-454 | a turn on an unhealthy port |
| Supervisor.Supervision.TurnOnce | internal/serial/serial.go:429-464 | one turn of the loop, with its two ways out |
| Supervisor.Supervision.Supervise | internal/serial/serial.go:425-465 | the loop over the real port computes the supervised run |
| Values.FormatThenParse | internal/registers/reader.go:352-365 | formatting then parsing is the identity on rounded values |
| Values.IntegerRoundTrip | internal/registers/reader.go:201-214 | printing a whole number and reading it as the unit sends it is the identity, for negative numbers too |
| Values.SameTextSameValue | internal/registers/reader.go:352-365 | two rounded values have the same text if and only if they are equal |
| Values.NoNegativeZero | internal/registers/reader.go:352-365 | a minus sign is printed for values below zero and no other |
| Values.ReadBackAgreement | internal/registers/writer.go:287-302 | the texts of a reading and of a command agree if and only if the reading rounds to the command |
| Values.HeldValueIsConfirmed | internal/registers/writer.go:287-302 | a unit that holds what was commanded is confirmed, for every value, divisor and type |
| Values.ConfirmedIsClose | internal/registers/writer.go:287-302 | equal texts put the unit within half of the last printed place of the command |
| Samples.SampleIsRounded | internal/registers/reader.go:203-214 | a raw value makes a sample if and only if it is a number whose quotient by the divisor, rounded to what is shown, is in range; the sample is that, with its own text |
| Samples.RegisterRules | internal/registers/reader.go:201-229 | every register's samples are in range, and show the same text exactly when they have the same value |
| ConfirmedRead.ReadIsJustified | internal/registers/reader.go:131-199 | every call ends with its last reading, trusted or in agreement with an earlier one, and that alone newly trusted; or with nothing newly trusted |
| ReadExactly.ReadEndsExactly | internal/registers/reader.go:131-199 | exactly when an uncancelled call ends and how: with the first reply that is a port error, a reading close to the value trusted by then, or one that an earlier reading confirms; and without one, after its last attempt |
| ReadExactly.CancelledIsDone | internal/registers/reader.go:135-145 | a call is cancelled only for a context found done, and before its first transaction if it was done then |
| ReadExactly.AsksWhileLive | internal/registers/reader.go:135-145 | transactions are made only while the context is live, at most one for every two checks |
| ReadExactly.ReadEndsWhileLive | internal/registers/reader.go:135-165 | an uncancelled call found its context live before each transaction, at each pause and after each failure |
| ConfirmedRead.TrustMapInvariant | internal/registers/reader.go:119-199 | a returned value is justified and in range and is what the register's trust becomes; an error leaves trust to the other goroutines; no more transactions than attempts |
| ReadFaults.SingleFaultNeverReturned | internal/registers/reader.go:123-190 | with one corrupted or lost reply, whatever the attempts, a returned value is the true reading, or within confirm_step of it or of the trusted value |
| ReadFaults.OneFaultTolerated | internal/registers/reader.go:123-190 | with at least three attempts and at most one fault the call succeeds, with such a value |
| ReadDrift.UnconfirmedDrift | internal/registers/reader.go:176-190 | without a second reading the trusted value moves by at most one confirm step per read and one per update by another goroutine |
| ReadTimes.ReadEnds | internal/registers/reader.go:135-187 | a read takes at most its attempts and the jittered backoffs between them |
| ReadTimes.CycleEnds | internal/registers/reader.go:254-289 | a cycle takes at most one longest read per register |
| ConfirmedRead.CycleCovers | internal/registers/reader.go:254-289 | an uncancelled cycle has an entry for exactly the configured registers |
| ReadEntries.EntriesAreReads | internal/registers/reader.go:254-289 | an entry is valid if and only if its register's read returned a sample, and then carries its text and its raw text; each read is made in the world the one before it left |
| ReadExactly.CycleCancelledIsDone | internal/registers/reader.go:258-275 | a cycle is cancelled only for a context found done |
| ConfirmedRead.Device.SleepCtx | internal/registers/gate.go:140-152 | a sleep ends early exactly when its context is cancelled |
| ConfirmedRead.Reader.constructor | internal/registers/reader.go:70-91 | at least two attempts, and an index in which the last register of a name stands |
| ConfirmedRead.Reader.AgreesWithEarlier | internal/registers/reader.go:180-185 | whether any earlier reading agrees |
| ConfirmedRead.Reader.Trust | internal/registers/reader.go:231-236 | exactly one entry of the trust map changes |
| ConfirmedRead.Reader.JudgeReply | internal/registers/reader.go:147-186 | what a reply means for the attempt |
| ConfirmedRead.Reader.Attempt | internal/registers/reader.go:135-187 | one attempt |
| ConfirmedRead.Reader.ReadSingleRaw | internal/registers/reader.go:131-199 | the loop computes the confirmed read |
| ConfirmedRead.Reader.ReadAll | internal/registers/reader.go:254-289 | the loop computes the cycle's snapshot |
| CycleBudget.DefaultsAreStable | internal/config/config.go:262-329 | applying defaults twice is applying them once |
| CycleBudget.EffectiveValuesAreUsed | internal/config/config.go:468-485 | the effective values are those that the serial layer's own defaults and the reader produce |
| CycleBudget.AcceptedPacingIsUsed | internal/serial/serial.go:107-119 | accepted reopen delays and health check interval are the supervisor's own |
| CycleBudget.NoCycleIsLonger | internal/config/config.go:493-513 | no cycle, on any transactions the link can produce, takes longer than its worst reads |
| CycleBudget.SomeCycleIsThatLong | internal/config/config.go:493-513 | some cycle takes exactly that long |
| CycleBudget.BudgetKeptExactly | internal/config/config.go:493-513 | cycles keep the read interval if and only if the worst reads fit it |
| CycleBudget.BudgetAcceptedExactly | internal/config/config.go:493-513 | the check passes if and only if the worst reads fit, less the idle polls and half milliseconds it leaves out and with one pause more per register |
| CycleBudget.BudgetSoundExactly | internal/config/config.go:493-513 | passing the check keeps the interval, for every interval and number of registers, if and only if one and a half backoffs are at least 2 ms per attempt, or 2.5 ms if the backoff is odd |
| CycleBudget.BudgetSound | internal/config/config.go:493-513 | a configuration that passes every check keeps the interval when its backoff pays |
| CycleBudget.BudgetCheckAloneIsUnsound | internal/config/config.go:498-506 | a configuration that passes every check and overruns |
| CycleBudget.AppConfig.ApplyDefaults | internal/config/config.go:280-329 | the defaults in place |
| CycleBudget.AppConfig.Validate | internal/config/config.go:403-447 | no problem is reported if and only if the settings are valid |
| CycleBudget.LinkConfig.ApplyDefaults | internal/serial/serial.go:120-138 | positive timeouts in order, whatever was configured |
| Gate.ReadGate.constructor | internal/registers/gate.go:39-45 | the timeout is positive |
| Gate.ReadGate.SuppressedLocked | internal/registers/gate.go:116-130 | the answer, and the sweep of an expired deadline |
| Gate.ReadGate.TryBeginCycle | internal/registers/gate.go:47-76 | a cycle begins if and only if reads are not held off |
| Gate.ReadGate.EndCycle | internal/registers/gate.go:67-75 | only the current cycle deregisters itself |
| Gate.StaleEndIsHarmless | internal/registers/gate.go:67-75 | the end of an earlier cycle leaves a later one registered |
| Gate.ReadGate.Preempt | internal/registers/gate.go:78-95 | the locked section: the cycle to cancel, one more hold, a new deadline |
| Gate.ReadGate.Release | internal/registers/gate.go:97-107 | one hold less, and suppression lifted with the last |
| Gate.InvHolds | internal/registers/gate.go:54-130 | the invariant of every interleaving |
| Gate.GateSafety | internal/registers/gate.go:54-107 | while a holder's own window is open no cycle starts, and a live uncancelled one is about to be cancelled by a call that has not returned |
| Gate.GateAccounting | internal/registers/gate.go:82-130 | holds is the number of outstanding holders; reads are held off exactly while there is one and the newest window is open; otherwise a cycle can begin |
| Gate.LateReleaseIsHarmless | internal/registers/gate.go:25-36 | a late release never lifts another's live hold |
| Gate.WindowLasts | internal/registers/gate.go:78-95 | from a `Preempt` on, reads are held off and no cycle starts for the whole timeout, whatever anyone does, unless that caller releases |
| Preemption.PreemptBoundsPublishing | internal/registers/gate.go:78-95 | over every interleaving: while a holder's window is open the poll loop publishes at most one more value, if and only if no other `Preempt` that captured the cycle has still to cancel it |
| Preemption.AfterPreemptReturned | internal/registers/poller.go:71-112 | once every `Preempt` has returned, no cycle starts and at most one more value is published until the window closes |
| Preemption.OverlapPublishesOn | internal/registers/gate.go:78-95 | two overlapping calls, one of which has returned, and a cycle that publishes on |
| Preemption.CycleIsInterleaving | internal/registers/poller.go:71-112 | every publish phase that the poll loop can go through, with its cancellation, is an interleaving of that protocol |
| Resettle.Resettler.Schedule | internal/registers/resettle.go:60-79 | one entry per register, replaced and woken for; nothing without a delay |
| Resettle.Resettler.Due | internal/registers/resettle.go:81-101 | takes out exactly what is ready, each once, and finds the exact wait for the next |
| Resettle.NoRereadIsLost | internal/registers/resettle.go:60-151 | in every reachable state the re-read of a register's newest finished command is pending, collected or started |
| Resettle.NeverParkedOnPendingWork | internal/registers/resettle.go:104-150 | the runner sleeps on pending work without a timer only if a wake token is there or about to be |
| Resettle.CanCollect | internal/registers/resettle.go:81-101 | collecting is always possible |
| Resettle.PendingWorkGoesOn | internal/registers/resettle.go:116-150 | with work pending and no command under way the runner can go on, now or when its timer is due |
| Resettle.NoRereadIsEarly | internal/registers/resettle.go:83-125 | no re-read starts before a whole delay after its command was over |
| Resettle.RereadOnce | internal/registers/resettle.go:81-125 | no command is re-read twice |
| Resettle.TimerIsPrompt | internal/registers/resettle.go:116-150 | the timer is later than the first pending re-read is due by no more than the time spent since the runner last looked |
| CheckedPublish.AtMostOneAfterTrip | internal/registers/writer.go:352-408 | when every publish has a passing check of its own, at most one publish follows a trip, and none if it precedes the first check |
| Dedupe.RecordIsNewest | internal/registers/writer.go:464-479 | the record of a topic is the newest command sent on it that was not forgotten |
| Dedupe.DroppedIffRedelivered | internal/registers/writer.go:447-462 | a command is dropped if and only if the newest one sent had its value, within the window, and was not forgotten |
| Dedupe.ChangeBackIsSent | internal/registers/writer.go:447-462 | once another value was sent the earlier one is never dropped |
| WriteContract.SendTally | internal/registers/writer.go:413-439 | a command is tried at most as often as configured, always the same one, and delivered at most once |
| WriteContract.BackTally | internal/registers/writer.go:354-411 | each register is read back at most once per send, each reading is kept and at once published to its own topic, and nothing else is |
| WriteContract.VerifyTally | internal/registers/writer.go:277-317 | the verdict is what the readings say |
| WriteContract.WriteTally | internal/registers/writer.go:214-247 | at most two sends, the second only after a failed verification, and when the last one was made |
| WriteContract.ShowTally | internal/registers/writer.go:319-340 | the state is published once if it can be, from the reading and never from the bare command when there is a state register |
| WriteContract.HandleMessageContract | internal/registers/writer.go:157-261 | every path: at most two sends and twice the attempts, all of one command, a second send only after a failed verification, a verdict that is what the readings say, reads made on the wire as it was, a state that only a trusted reading made after the last send shows, and an outcome that matches |
| Delivery.MessageMeans | internal/registers/writer.go:166-187 | a message is accepted as n if and only if it is some spelling of n, with a sign or none, any digits and white space around, and n fits 64 bits |
| Delivery.WordsOnTheWire | internal/registers/writer.go:185-202 | for a message that means n, every send is the template with a numeral of n in its place; a state without state_from and the record are that numeral too |
| Delivery.SendsExactly | internal/registers/writer.go:413-439 | exactly how often a command is sent in whatever context, and how that ends: until a try does not fail, with a backoff between two, as often as configured, and only while the context is live |
| Delivery.CommandWaits | internal/registers/writer.go:236-241 | no read-back comes sooner than a settle delay after the command began, and a command is interrupted only for a context found done |
| ReadBacks.CommandReadsInFull | internal/registers/writer.go:354-411 | every verdict comes after every listed and configured register was read since the send, state_from first, each as often as listed until it gave a reading, and nothing else |
| WriteContract.StateIsTrusted | internal/registers/writer.go:319-340 | a lawful account of genuine reads shows a state only from a trusted reading of the state register after the last send |
| ReadTrace.CarryGoesOn | internal/registers/writer.go:214-261 | every read of a command was made in the world it had reached and returned what a confirmed read returns there; time goes on |
| ReadTrace.RefreshGoesOn | internal/registers/writer.go:106-144 | the same of a settle re-read |
| ReadTrace.GenuineIsTrusted | internal/registers/reader.go:147-186 | a genuine reading was near what was trusted when it came, or agreed with an earlier one of its call |
| WriteContract.NilMeans | internal/registers/writer.go:157-261 | nil if and only if the topic is unknown, the command is a redelivery, or the last verdict passed |
| WriteContract.LawfulThroughout | internal/registers/writer.go:214-261 | in a lawful account each act was allowed by those before it |
| WriteContract.ConfirmedWriteIsHeld | internal/registers/writer.go:276-317 | after a write that the state register confirmed, a trusted reading made after the last send puts the unit within half of the last printed place of the command |
| CommandHistory.ItoaDistinguishes | internal/registers/writer.go:183-187 | commands are compared by parsed value |
| CommandHistory.ServeRecords | internal/registers/writer.go:226-257 | over every run the record is what the history says |
| CommandHistory.DropsOnlyRedeliveries | internal/registers/writer.go:185-191 | over every run a valid message is dropped if and only if it is a redelivery |
| CommandHistory.ChangeBackReachesWire | internal/registers/writer.go:447-462 | after any run in which another value was sent on the topic and this one was not sent on it since, a valid change back is carried out, however soon |
| CommandHistory.RetryReachesWireUnless | internal/registers/writer.go:224-257 | a failed command is taken for a redelivery if and only if it left a send unread, for one window after that send; that send falls within the call |
| CommandHistory.CarryByGuards | internal/registers/writer.go:215-257 | a send is left unread if and only if the settle wait after it is cut short or the second send fails, and the record then has its time |
| CommandHistory.RetryAfterWindow | internal/registers/writer.go:447-462 | one window after its call has ended every failed command can be repeated |
| CommandHistory.InterruptedRepeatIsDropped | internal/registers/writer.go:224-241 | an interrupted command that is repeated within a window of its beginning is dropped |
| CommandHistory.FailedCommandIsDropped | internal/registers/writer.go:224-241 | a failed command whose retry is dropped |
| Supersession.RefreshWatches | internal/registers/writer.go:354-411 | throughout a re-read every publish has a check of its own, and no check passes once a newer command was accepted |
| Supersession.SupersessionBound | internal/registers/writer.go:106-144 | wherever a newer command falls, at most one value is published after it, and none if it precedes the first check |
| Supersession.SupersededIsSilent | internal/registers/writer.go:113-117 | a re-read superseded before it starts publishes nothing |
| Supersession.SettledStateWasTrusted | internal/registers/writer.go:126-143 | the state topic only receives a trusted reading that this re-read made |
| ReadBacks.RefreshDoesItsWork | internal/registers/writer.go:106-144 | a re-read that no newer command overtakes reads every listed and configured register, and then shows the reading of state_from on the state topic as its last act, once, if there is a topic and a reading, and otherwise no state |
| Writer.Writer.constructor | internal/registers/writer.go:52-78 | at least one attempt, and an index of the topics that are subscribed to |
| Writer.Writer.WriteSequence | internal/registers/writer.go:91-96 | the count at the moment of looking |
| Writer.Writer.NextWriteSequence | internal/registers/writer.go:98-104 | one more accepted command |
| Writer.Writer.RememberSent | internal/registers/writer.go:474-479 | the record and the history move together |
| Writer.Writer.ForgetSent | internal/registers/writer.go:464-473 | only a record of the same value is forgotten |
| Writer.Writer.TrySend | internal/registers/writer.go:420-436 | one attempt to send |
| Writer.Writer.SendCommand | internal/registers/writer.go:413-439 | the loop computes the sending function |
| Writer.Writer.ReadAndPublish | internal/registers/writer.go:390-407 | reading one register back and publishing it |
| Writer.Writer.IsCurrent | internal/registers/writer.go:379-382 | the check for a newer command |
| Writer.Writer.ReadBackOne | internal/registers/writer.go:375-408 | one turn of the read-back loop |
| Writer.Writer.ReadBackAll | internal/registers/writer.go:372-410 | the loop computes the read-back, and whether anything was read |
| Writer.Writer.ReadBackIfCurrent | internal/registers/writer.go:352-411 | the read-back with its three answers |
| Writer.Writer.Verify | internal/registers/writer.go:276-317 | the verdict function |
| Writer.Writer.PublishState | internal/registers/writer.go:319-340 | the state function |
| Writer.Writer.WriteOnce | internal/registers/writer.go:215-247 | one send and its verification |
| Writer.Writer.Carry | internal/registers/writer.go:214-260 | the attempts, then the state, then forgetting what failed |
| Writer.Writer.CountAndCarry | internal/registers/writer.go:198-212 | with the gate held, the command is counted before it goes out, and a re-read is filed under its number on every path |
| Writer.Writer.InFlight | internal/registers/writer.go:193-212 | the gate is held and released exactly once |
| Writer.Writer.Screen | internal/registers/writer.go:166-191 | validation before anything is disturbed |
| Writer.Writer.HandleMessage | internal/registers/writer.go:157-261 | the whole call: the command function, balanced holds, and a re-read filed exactly for accepted commands |
| Writer.Writer.RefreshHeld | internal/registers/writer.go:126-143 | with the gate held, the part of a re-read that needs it |
| Writer.Writer.RefreshIfCurrent | internal/registers/writer.go:106-144 | the whole re-read, with balanced holds, and the gate left alone if it is superseded at the start |
| Poller.DerivedIndependently | internal/registers/derived.go:37-66 | a derived register's value is decided by its own sources and formula |
| Poller.DerivedValidWhen | internal/registers/derived.go:68-95 | valid if and only if all sources are valid and the formula yields a value |
| Poller.DerivedCalculator.CalculateSingle | internal/registers/derived.go:68-95 | the loop over the sources |
| Poller.DerivedCalculator.Calculate | internal/registers/derived.go:37-66 | the loop over the registers |
| Poller.EachIsPublishedOnce | internal/registers/reader.go:299-329 | in any order of the map, as many publishes as valid entries with a topic, and each among them |
| Poller.OnlyValidIsPublished | internal/registers/reader.go:299-329 | nothing else is published: every publish is the value of a valid entry, to its own topic |
| Poller.StatesAreShown | internal/registers/poller.go:114-138 | every state the snapshot can fill is published once, in order, to its own topic, with the snapshot's value |
| Poller.CancelledCycleBound | internal/registers/poller.go:71-112 | wherever a cancellation falls, at most one publish of the cycle follows it, and none if it precedes the first check |
| Poller.Broker.CheckLive | internal/registers/poller.go:79-88 | a truthful check |
| Poller.Broker.PublishAll | internal/registers/reader.go:291-329 | everything once, or a first part of it if cancelled |
| Poller.Broker.PublishStates | internal/registers/poller.go:114-138 | every resolvable state once, in order, or a first part of them |
| Poller.Poller.PublishDerived | internal/registers/derived.go:175-201 | the valid derived values of one snapshot |
| Poller.Poller.PublishCycle | internal/registers/poller.go:71-111 | a nil end means everything was attempted exactly once; any other end a first part of it, and a context found done |
| Poller.Poller.PublishRest | internal/registers/poller.go:97-111 | the states and the derived values, all of them unless the context was found done |
| Poller.Poller.RunCycle | internal/registers/poller.go:46-112 | skipped exactly when unhealthy or held off; published from one snapshot; ended early only for a context found done, so a cycle that nobody cancels publishes everything once; deregistered on every path |

## Left out

- The MQTT client, discovery payloads, logging, YAML loading, `Warnings` and error texts: I/O without a deep invariant. A publish is an attempt; whether it gets through changes nothing else.
- `cmd/main.go` and the command queue: only the assumption of one poll loop, one settle runner and one worker that takes commands in order.
- The formulas of derived registers: any function of the sources, with a text or no value as its result.
- IEEE rounding: values are exact tenths and quotients are rounded exactly, halves away from zero.
- Texts that are no whole number in `processValue`: `Transact` returns none, so the model rejects them where `ParseFloat` might not.
- White space outside ASCII, in messages and commands.
- The 64-bit wrap of cycle and sequence numbers; `Atoi` does keep to 64 bits.
- CycleBudget.AppConfig.ApplyDefaults: covers the serial link's timing and the read interval, the settings that a cycle depends on; the port, the write timing, the device id, logging and MQTT have defaults of the same kind, each in its own field.
- CycleBudget.AppConfig.Validate: covers those settings; the checks of parity, byte size, stop bits, broker, QoS, the write and MQTT durations, jitter and logging look at fields that no cycle depends on, so a configuration that passes here can be completed to one that passes them all.
- The rest of `internal/config/config.go`, and the settings that pass through unchanged.
- SerialLink.SerialPort.Close: does not report the device's own close error, which nothing acts on.
- `IsTimeout`, `IsPortError`, termios and the driver: an error carries the class those functions would give it.
- Time spent writing and draining inside a transaction, which the cycle budget does not charge for either.
- The loop of `resettler.run` as a method: it never ends, so it is the runner of the protocol in Resettle.dfy, whose steps are the calls of `Schedule` and `Due`. Timers fire at or after their time; that they fire at all is not claimed.
- Goroutines acting while `HandleMessage`, `RefreshIfCurrent` or `RunCycle` runs: the methods meet them as scripts (trust gained elsewhere, newer commands, cancellation), and the gate's and the runner's interleavings are explored in their protocols. So what `RunCycle` says of the gate's state afterwards is for a cycle that nobody else interrupts; Preemption.dfy has the cycle with everybody else.
